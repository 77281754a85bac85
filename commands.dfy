/**
 * The commands the public accessors enqueue: the wire text (without the CR
 * the dispatcher appends) and the pause in milliseconds before the next
 * command may be sent.
 */
module Commands {
  import opened Decoder

  datatype Cmd = Cmd(cmd: string, wait: nat)

  /** `on()`: power on, then hold the queue for 5000 ms. */
  function PowerOn(): Cmd { Cmd("PWON", 5000) }

  /** `off()`: standby, then hold the queue for 5000 ms. */
  function PowerOff(): Cmd { Cmd("PWSTANDBY", 5000) }

  /** `setVolume(vol)`: the level is appended as given. */
  function SetVolume(vol: string): Cmd { Cmd("MV" + vol, 0) }

  /** `setMute(mute)`. */
  function SetMute(mute: bool): Cmd { Cmd(if mute then "MUON" else "MUOFF", 0) }

  /** `setInput(inp)`: the source name is appended as given. */
  function SetInput(inp: string): Cmd { Cmd("SI" + inp, 0) }

  /** `setDynamicVolume(dv)`: note the space before the mode. */
  function SetDynamicVolume(dv: string): Cmd { Cmd("PSDYNVOL " + dv, 0) }

  /**
   * A volume command, echoed back by the device as a line, decodes to the
   * level that was set; the command holds the queue for no time.
   */
  lemma VolumeEcho(st: State, vol: string)
    requires vol != [] && AllIn(Digits, vol)
    ensures SetVolume(vol).wait == 0
    ensures var s := st["volume" := Text(vol)];
      DecodeLine(st, SetVolume(vol).cmd) == Outcome(s, [s])
  {
    assert "MV" + vol == "MV" + vol + "";
    VolumeLine(st, vol, "");
  }

  /** A mute command, echoed back, decodes to the boolean that was set. */
  lemma MuteEcho(st: State, mute: bool)
    ensures SetMute(mute).wait == 0
    ensures var s := st["muted" := Flag(mute)];
      DecodeLine(st, SetMute(mute).cmd) == Outcome(s, [s])
  {
    var c := if mute then "MUON" else "MUOFF";
    assert c == c + "";
    MuteLine(st, mute, "");
  }

  /** An input command, echoed back, decodes to the source that was set. */
  lemma InputEcho(st: State, inp: string)
    requires inp != [] && AllIn(InputChars, inp)
    ensures SetInput(inp).wait == 0
    ensures var s := st["input" := Text(inp)];
      DecodeLine(st, SetInput(inp).cmd) == Outcome(s, [s])
  {
    assert "SI" + inp == "SI" + inp + "";
    InputLine(st, inp, "");
  }

  /** A dynamic-volume command, echoed back, decodes to the mode that was set. */
  lemma DynamicVolumeEcho(st: State, dv: string)
    requires dv != [] && AllIn(Letters, dv)
    ensures SetDynamicVolume(dv).wait == 0
    ensures var s := st["dynamicVolume" := Text(dv)];
      DecodeLine(st, SetDynamicVolume(dv).cmd) == Outcome(s, [s])
  {
    assert "PSDYNVOL " + dv == "PSDYNVOL " + dv + "";
    DynamicVolumeLine(st, dv, "");
  }

  /**
   * The power commands hold the queue for 5000 ms, and their text matches
   * no decoder entry: the power state is only learnt from `ZM` lines.
   */
  lemma PowerCommandsNotDecoded(st: State, on: bool)
    ensures var c := if on then PowerOn() else PowerOff();
      c.wait == 5000 && DecodeLine(st, c.cmd) == Outcome(st, [])
  {
    var line := (if on then PowerOn() else PowerOff()).cmd;
    assert line[0] == 'P' && line[1] == 'W';
    forall k | 0 <= k < |Table| ensures CheckCommand(line, Table[k].pattern).None? {
      assert Table[k].pattern.prefix[1] != 'W';
    }
    DecodeLineNoMatch(st, line, |Table|);
  }
}
