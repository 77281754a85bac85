/**
 * The session object: one receiver, its command queue and single in-flight
 * slot, the connection flag and socket writes, the decoded state, and the
 * address adopted from discovery.
 *
 * Timers and socket events are methods the event loop calls: `TimerFired`
 * is the dispatcher's `setTimeout` expiring, `Connected`, `Error`, `Closed`
 * and `Received` are the socket's events, `Reconnect` is the 5000 ms timer
 * armed on close, and `Discovered` is the beacon callback. A pending
 * dispatcher timer exists exactly while `run` holds a command; its delay is
 * that command's `wait`.
 */
module Session {
  import opened Wrappers
  import opened Strings
  import opened Decoder
  import opened Commands
  import opened Amxb
  import opened Adoption

  class DenonAvr {
    // Dispatcher: the FIFO of commands not yet sent, the one in flight, and
    // the retry count the dispatcher sets but nothing reads.
    var que: seq<Cmd>
    var run: Option<Cmd>
    var retry: int

    // Connection: the flag the socket events maintain, every text written
    // to a socket, the addresses the keeper dialled, the sockets destroyed
    // by a change of address, and the reconnect timers armed on close.
    var tcpcon: bool
    var sent: seq<string>
    var address: string
    var mdns: bool
    var keeper: bool
    var model: Option<string>
    var listening: bool
    var dials: seq<string>
    var destroyed: nat
    var reconnects: nat

    // Decoder: the state object and every snapshot handed to the callback.
    var state: State
    var notified: seq<State>

    // Every command ever enqueued, and every command moved into `run`, in order.
    ghost var pushed: seq<Cmd>
    ghost var taken: seq<Cmd>

    /** FIFO: the commands left the queue in the order they entered it; `run` is the latest one taken. */
    ghost predicate Queued()
      reads this
    {
      pushed == taken + que &&
      (run.Some? ==> taken != [] && run.value == taken[|taken| - 1])
    }

    /** The rest of the object invariant: the state shape and the keeper's bookkeeping. */
    ghost predicate Linked()
      reads this
    {
      WellTyped(state) &&
      keeper == (dials != []) &&
      (reconnects > 0 ==> keeper) &&
      (destroyed > 0 ==> keeper)
    }

    /** The dispatcher is idle only when nothing is queued: no command is ever stranded. */
    ghost predicate Valid()
      reads this
    {
      Queued() && Linked() && (run.None? ==> que == [])
    }

    /** The effect of one dispatch from idle: the head of the queue, if any, goes in flight and is written when connected. */
    twostate predicate DispatchedHead()
      reads this
    {
      if old(que) == [] then
        run.None? && que == [] && taken == old(taken) && retry == old(retry) && sent == old(sent)
      else
        run == Some(old(que)[0]) && que == old(que)[1..] && taken == old(taken) + [old(que)[0]] &&
        retry == 5 && sent == old(sent) + (if tcpcon then [old(que)[0].cmd + "\r"] else [])
    }

    /** The effect of `pushExec(c)`: `c` joins the tail; if nothing was in flight, it is dispatched at once. */
    twostate predicate Enqueued(c: Cmd)
      reads this
    {
      pushed == old(pushed) + [c] &&
      if old(run).None? then
        run == Some(c) && que == [] && taken == old(taken) + [c] && retry == 5 &&
        sent == old(sent) + (if tcpcon then [c.cmd + "\r"] else [])
      else
        run == old(run) && que == old(que) + [c] && taken == old(taken) &&
        retry == old(retry) && sent == old(sent)
    }

    /** `new denonavr(address)`: an empty address means "discover one". */
    constructor (addr: string)
      ensures Valid()
      ensures que == [] && run == None && pushed == [] && taken == []
      ensures !tcpcon && sent == [] && !keeper && model == None && !listening
      ensures address == addr && mdns == (addr != "")
      ensures dials == [] && destroyed == 0 && reconnects == 0
      ensures state == map[] && notified == []
    {
      que, run, retry := [], None, 0;
      tcpcon, sent := false, [];
      keeper, model, listening := false, None, false;
      dials, destroyed, reconnects := [], 0, 0;
      state, notified := map[], [];
      address := addr;
      mdns := addr != "";
      pushed, taken := [], [];
    }

    /**
     * `init(callback, model)`: a given model replaces the filter; with a
     * configured address the keeper starts at once, otherwise the session
     * starts listening for beacons.
     */
    method Init(m: Option<string>)
      requires Valid()
      modifies this`model, this`keeper, this`dials, this`listening
      ensures Valid()
      ensures model == (if m.Some? then m else old(model))
      ensures mdns ==> keeper && dials == old(dials) + [address] && listening == old(listening)
      ensures !mdns ==> keeper == old(keeper) && dials == old(dials) && listening
    {
      if m.Some? {
        model := m;
      }
      if mdns {
        keeper := true;
        dials := dials + [address];
      } else {
        listening := true;
      }
    }

    /**
     * `dispatcher`: fill `run` from the head of the queue, write it if the
     * socket is connected, and arm the timer. Both callers enter it with
     * nothing in flight (`pushExec` tests `run`, `dispatcher2` clears it), so
     * the source's own test of `run` always succeeds.
     */
    method Dispatch()
      requires Queued() && Linked() && run.None?
      modifies this`que, this`run, this`retry, this`sent, this`taken
      ensures Valid() && DispatchedHead()
    {
      if |que| > 0 {
        run := Some(que[0]);
        que := que[1..];
        retry := 5;
        taken := taken + [run.value];
      } else {
        run := None;
      }
      if run.Some? {
        if tcpcon {
          sent := sent + [run.value.cmd + "\r"];
        }
      }
    }

    /** `dispatcher2`: the wait of the command in flight is over; drop it and dispatch the next. */
    method TimerFired()
      requires Valid() && run.Some?
      modifies this`que, this`run, this`retry, this`sent, this`taken
      ensures Valid() && DispatchedHead()
    {
      run := None;
      Dispatch();
    }

    /** `pushExec(f, cmd, wait)`. */
    method PushExec(c: Cmd)
      requires Valid()
      modifies this`que, this`run, this`retry, this`sent, this`pushed, this`taken
      ensures Valid() && Enqueued(c)
    {
      que := que + [c];
      pushed := pushed + [c];
      if run.None? {
        Dispatch();
      }
    }

    /** The connect callback: ask for the power state, then mark the session connected. */
    method Connected()
      requires Valid() && keeper
      modifies this`tcpcon, this`sent
      ensures Valid() && tcpcon && sent == old(sent) + ["ZM?\r"]
    {
      sent := sent + ["ZM?\r"];
      tcpcon := true;
    }

    /** The socket's `error` event. */
    method Error()
      requires Valid() && keeper
      modifies this`tcpcon
      ensures Valid() && !tcpcon
    {
      tcpcon := false;
    }

    /** The socket's `close` event: disconnected, with a reconnect armed. */
    method Closed()
      requires Valid() && keeper
      modifies this`tcpcon, this`reconnects
      ensures Valid() && !tcpcon && reconnects == old(reconnects) + 1
    {
      tcpcon := false;
      reconnects := reconnects + 1;
    }

    /** A reconnect timer fires: the keeper dials the address adopted by then. */
    method Reconnect()
      requires Valid() && reconnects > 0
      modifies this`reconnects, this`dials
      ensures Valid() && reconnects == old(reconnects) - 1 && dials == old(dials) + [address]
    {
      reconnects := reconnects - 1;
      dials := dials + [address];
    }

    /**
     * The socket's `data` event: every CR-terminated line of the chunk is
     * decoded against the table in order; the unterminated remainder is
     * dropped.
     */
    method Received(data: string)
      requires Valid() && keeper
      modifies this`state, this`notified
      ensures Valid()
      ensures state == DecodeLines(old(state), Terminated(data)).state
      ensures notified == old(notified) + DecodeLines(old(state), Terminated(data)).snapshots
    {
      var ws := Split(data, CR);
      ReceivedLines(ws, |ws| - 1);
      assert ws[..|ws| - 1] == Terminated(data);
      DecodeLinesInvariant(old(state), Terminated(data));
    }

    /** The outer loop of the `data` handler: the first `n` pieces of the split chunk, in order. */
    method ReceivedLines(ws: seq<string>, n: nat)
      requires n <= |ws|
      modifies this`state, this`notified
      ensures state == DecodeLines(old(state), ws[..n]).state
      ensures notified == old(notified) + DecodeLines(old(state), ws[..n]).snapshots
    {
      var i := 0;
      while i < n
        invariant 0 <= i <= n
        invariant state == DecodeLines(old(state), ws[..i]).state
        invariant notified == old(notified) + DecodeLines(old(state), ws[..i]).snapshots
      {
        DecodeLinesNext(old(state), ws[..i], ws[i]);
        ReceivedLine(ws[i]);
        assert ws[..i + 1] == ws[..i] + [ws[i]];
        i := i + 1;
      }
    }

    /** The inner loop of the `data` handler: one line against each table entry in turn. */
    method ReceivedLine(line: string)
      modifies this`state, this`notified
      ensures state == DecodeLine(old(state), line).state
      ensures notified == old(notified) + DecodeLine(old(state), line).snapshots
    {
      var j := 0;
      while j < |Table|
        invariant 0 <= j <= |Table|
        invariant state == DecodeEntries(old(state), line, j).state
        invariant notified == old(notified) + DecodeEntries(old(state), line, j).snapshots
      {
        var cdef := Table[j];
        var arg := CheckCommand(line, cdef.pattern);
        DecodeEntriesNext(old(state), line, j, arg);
        if arg.Some? {
          var v: Value;
          if cdef.trueSymbol.Some? {
            v := Flag(arg.value == cdef.trueSymbol.value);
          } else {
            v := Text(arg.value);
          }
          assert v == Assign(cdef, arg.value);
          state := state[cdef.prop := v];
          notified := notified + [state];
        }
        j := j + 1;
      }
    }

    /**
     * The beacon callback of `init`, proved against `Adopt`; `local` is the
     * answer of the host's locality test for `d.address` when the report arrives.
     */
    method Discovered(d: Discovery, local: bool)
      requires Valid() && listening
      modifies this`address, this`keeper, this`dials, this`destroyed
      ensures Valid()
      ensures var s := Adopt(model, Target(old(address), old(keeper)), d, local);
        address == s.target.address && keeper == s.target.keeper &&
        dials == old(dials) + (if s.effect == StartKeeper then [d.address] else []) &&
        destroyed == old(destroyed) + (if s.effect == DestroySocket then 1 else 0)
    {
      if model.Some? && ("Model" !in d.info || model.value != d.info["Model"]) {
        return;
      }
      if address != d.address && local {
        address := d.address;
        if !keeper {
          keeper := true;
          dials := dials + [address];
        } else {
          destroyed := destroyed + 1;
        }
      }
    }

    /** `on()`. */
    method On()
      requires Valid()
      modifies this`que, this`run, this`retry, this`sent, this`pushed, this`taken
      ensures Valid() && Enqueued(Cmd("PWON", 5000))
    {
      PushExec(PowerOn());
    }

    /** `off()`. */
    method Off()
      requires Valid()
      modifies this`que, this`run, this`retry, this`sent, this`pushed, this`taken
      ensures Valid() && Enqueued(Cmd("PWSTANDBY", 5000))
    {
      PushExec(PowerOff());
    }

    /** `setVolume(vol)`. */
    method SetVolumeLevel(vol: string)
      requires Valid()
      modifies this`que, this`run, this`retry, this`sent, this`pushed, this`taken
      ensures Valid() && Enqueued(Cmd("MV" + vol, 0))
    {
      PushExec(SetVolume(vol));
    }

    /** `setMute(mute)`. */
    method SetMuted(mute: bool)
      requires Valid()
      modifies this`que, this`run, this`retry, this`sent, this`pushed, this`taken
      ensures Valid() && Enqueued(Cmd(if mute then "MUON" else "MUOFF", 0))
    {
      PushExec(SetMute(mute));
    }

    /** `setInput(inp)`. */
    method SetInputSource(inp: string)
      requires Valid()
      modifies this`que, this`run, this`retry, this`sent, this`pushed, this`taken
      ensures Valid() && Enqueued(Cmd("SI" + inp, 0))
    {
      PushExec(SetInput(inp));
    }

    /** `setDynamicVolume(dv)`. */
    method SetDynamicVolumeMode(dv: string)
      requires Valid()
      modifies this`que, this`run, this`retry, this`sent, this`pushed, this`taken
      ensures Valid() && Enqueued(Cmd("PSDYNVOL " + dv, 0))
    {
      PushExec(SetDynamicVolume(dv));
    }
  }

  /** A client of a connected session: a volume report lands in the state and reaches the callback. */
  method ReportScenario(avr: DenonAvr, digits: string)
    requires avr.Valid() && avr.keeper && digits != [] && AllIn(Digits, digits)
    modifies avr
  {
    var st, n := avr.state, avr.notified;
    assert CR !in "MV" + digits;
    TerminatedOne("MV" + digits);
    VolumeLine(st, digits, "");
    assert "MV" + digits + "" == "MV" + digits;
    avr.Received("MV" + digits + [CR]);
    assert avr.state == st["volume" := Text(digits)] && avr.notified == n + [avr.state];
  }

  /**
   * A client of the session: discovery of a local address `a` starts the
   * keeper, and a report of another local address `b` destroys the socket so
   * that the reconnect dials `b`.
   */
  method AddressChangeScenario(a: string, b: string)
    requires a != "" && a != b
  {
    var avr := new DenonAvr("");
    avr.Init(None);
    avr.Discovered(Discovery(a, map[]), true);
    assert avr.keeper && avr.dials == [a];
    avr.Discovered(Discovery(b, map[]), true);
    assert avr.address == b && avr.destroyed == 1;
    avr.Closed();
    avr.Reconnect();
    assert avr.dials == [a, b];
  }

  /**
   * A client of the dispatcher: on an idle connected session the first
   * command goes out at once and the second waits in the queue behind it.
   */
  method DispatchScenario(avr: DenonAvr, vol: string, mute: bool)
    requires avr.Valid() && avr.run == None && avr.tcpcon
    modifies avr
  {
    var s0 := avr.sent;
    var v, m := SetVolume(vol), SetMute(mute);
    avr.SetVolumeLevel(vol);
    assert avr.run == Some(v) && avr.que == [] && avr.sent == s0 + [v.cmd + "\r"];
    avr.SetMuted(mute);
    assert avr.run == Some(v) && avr.que == [m] && avr.sent == s0 + [v.cmd + "\r"];
  }

  /** The queue drains one command per expired wait: the last queued command goes out, then the dispatcher idles. */
  method DrainScenario(avr: DenonAvr, c: Cmd)
    requires avr.Valid() && avr.run.Some? && avr.que == [c] && avr.tcpcon
    modifies avr
  {
    var s0 := avr.sent;
    avr.TimerFired();
    assert avr.run == Some(c) && avr.que == [] && avr.sent == s0 + [c.cmd + "\r"];
    avr.TimerFired();
    assert avr.run == None && avr.sent == s0 + [c.cmd + "\r"];
  }


  /** A client of the dispatcher: a command dispatched while disconnected is dropped unwritten. */
  method DisconnectedScenario(a: string)
    requires a != ""
  {
    var avr := new DenonAvr(a);
    avr.Init(None);
    avr.Connected();
    avr.Closed();
    avr.SetInputSource("TV");
    assert avr.run == Some(SetInput("TV")) && avr.sent == ["ZM?\r"];
    avr.TimerFired();
    assert avr.run == None && avr.sent == ["ZM?\r"];
  }
}
