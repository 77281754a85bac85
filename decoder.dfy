/**
 * The receive path of the session: every CR-terminated line of a chunk is
 * matched against a fixed table of five start-anchored patterns, and each
 * match writes one property of the state snapshot and notifies the caller.
 *
 * The patterns are `^MV([0-9]+)`, `^MU(ON|OFF)`, `^SI([A-Z0-9.¥/]+)`,
 * `^ZM(ON|OFF)` and `^PSDYNVOL ([A-Z]+)`. Only the start is anchored, so
 * whatever follows the captured text is ignored.
 */
module Decoder {
  import opened Wrappers
  import opened Strings

  /** A property value: the captured text, or a boolean for the mute entry. */
  datatype Value = Text(text: string) | Flag(on: bool)

  /** The `state` object: property name to last decoded value. */
  type State = map<string, Value>

  /** The three bracketed character classes of the table. */
  datatype CharClass = Digits | InputChars | Letters

  predicate InClass(cls: CharClass, c: char)
  {
    match cls
    case Digits => '0' <= c <= '9'
    case Letters => 'A' <= c <= 'Z'
    case InputChars => 'A' <= c <= 'Z' || '0' <= c <= '9' || c == '.' || c == '\U{00A5}' || c == '/'
  }

  /** A pattern `^PREFIX([class]+)` or `^PREFIX(ON|OFF)`. */
  datatype Pattern = Run(prefix: string, cls: CharClass) | OnOff(prefix: string)

  /** End of the longest run of `cls` characters in `s` that starts at `i`. */
  function RunEnd(s: string, i: nat, cls: CharClass): (r: nat)
    requires i <= |s|
    ensures i <= r <= |s|
    ensures forall k :: i <= k < r ==> InClass(cls, s[k])
    ensures r < |s| ==> !InClass(cls, s[r])
    decreases |s| - i
  {
    if i == |s| || !InClass(cls, s[i]) then i else RunEnd(s, i + 1, cls)
  }

  /**
   * `checkCommand`: the text captured by the pattern's group when the line
   * matches, `None` otherwise. A run captures greedily; `(ON|OFF)` tries
   * `ON` first.
   */
  function CheckCommand(line: string, p: Pattern): (r: Option<string>)
    ensures r.Some? ==> p.prefix + r.value <= line && r.value != []
  {
    match p
    case Run(pre, cls) =>
      if pre <= line && |pre| < |line| && InClass(cls, line[|pre|]) then
        var e := RunEnd(line, |pre|, cls);
        assert line[..|pre|] == pre;
        assert line[..e] == pre + line[|pre|..e];
        Some(line[|pre|..e])
      else None
    case OnOff(pre) =>
      if pre + "ON" <= line then Some("ON")
      else if pre + "OFF" <= line then Some("OFF")
      else None
  }

  /**
   * `^PREFIX([class]+)` matches exactly when the prefix is followed by a
   * character of the class, and then captures the whole run of the class
   * that starts there, stopping only at the end of the line or at a
   * character outside the class.
   */
  lemma RunMatch(line: string, pre: string, cls: CharClass)
    ensures var r := CheckCommand(line, Run(pre, cls));
      (r.Some? <==> pre <= line && |pre| < |line| && InClass(cls, line[|pre|])) &&
      (r.Some? ==>
        (AllIn(cls, r.value) && (|pre| + |r.value| == |line| || !InClass(cls, line[|pre| + |r.value|]))))
  {
    if pre <= line && |pre| < |line| && InClass(cls, line[|pre|]) {
      var e := RunEnd(line, |pre|, cls);
      var v := line[|pre|..e];
      assert CheckCommand(line, Run(pre, cls)) == Some(v);
      assert forall k :: 0 <= k < |v| ==> v[k] == line[|pre| + k];
    }
  }

  /** `^PREFIX(ON|OFF)` matches exactly when the prefix is followed by `ON` or `OFF`, and captures that word. */
  lemma OnOffMatch(line: string, pre: string)
    ensures var r := CheckCommand(line, OnOff(pre));
      (r.Some? <==> pre + "ON" <= line || pre + "OFF" <= line) &&
      (r.Some? ==> r.value == "ON" || r.value == "OFF")
  {
  }

  /** One row of the table: the property it writes and, for `muted`, the text meaning true. */
  datatype Entry = Entry(prop: string, pattern: Pattern, trueSymbol: Option<string>)

  const Table: seq<Entry> := [
    Entry("volume", Run("MV", Digits), None),
    Entry("muted", OnOff("MU"), Some("ON")),
    Entry("input", Run("SI", InputChars), None),
    Entry("powerState", OnOff("ZM"), None),
    Entry("dynamicVolume", Run("PSDYNVOL ", Letters), None)
  ]

  /** The value stored for a captured argument. */
  function Assign(e: Entry, arg: string): Value
  {
    if e.trueSymbol.Some? then Flag(arg == e.trueSymbol.value) else Text(arg)
  }

  /** The state after decoding, and the snapshots handed to the callback, oldest first. */
  datatype Outcome = Outcome(state: State, snapshots: seq<State>)

  /** The inner loop after its first `n` table entries. */
  function DecodeEntries(st: State, line: string, n: nat): Outcome
    requires n <= |Table|
  {
    if n == 0 then Outcome(st, [])
    else
      var o := DecodeEntries(st, line, n - 1);
      var e := Table[n - 1];
      match CheckCommand(line, e.pattern)
      case None => o
      case Some(arg) =>
        var s := o.state[e.prop := Assign(e, arg)];
        Outcome(s, o.snapshots + [s])
  }

  /** One more table entry: a capture stores its value and hands over a snapshot; no capture changes nothing. */
  lemma DecodeEntriesNext(st: State, line: string, j: nat, arg: Option<string>)
    requires j < |Table| && arg == CheckCommand(line, Table[j].pattern)
    ensures var o := DecodeEntries(st, line, j);
      DecodeEntries(st, line, j + 1) ==
        if arg.None? then o
        else Outcome(o.state[Table[j].prop := Assign(Table[j], arg.value)],
                     o.snapshots + [o.state[Table[j].prop := Assign(Table[j], arg.value)]])
  {
  }

  /** One line matched against the whole table. */
  function DecodeLine(st: State, line: string): Outcome
  {
    DecodeEntries(st, line, |Table|)
  }

  /** The outer loop: the lines decoded in order, each from the state the previous left. */
  function DecodeLines(st: State, lines: seq<string>): Outcome
  {
    if lines == [] then Outcome(st, [])
    else
      var o := DecodeLines(st, lines[..|lines| - 1]);
      var l := DecodeLine(o.state, lines[|lines| - 1]);
      Outcome(l.state, o.snapshots + l.snapshots)
  }

  /** One more line: it is decoded from the state the earlier lines left, and its snapshots follow theirs. */
  lemma DecodeLinesNext(st: State, lines: seq<string>, line: string)
    ensures var o := DecodeLines(st, lines); var l := DecodeLine(o.state, line);
      DecodeLines(st, lines + [line]) == Outcome(l.state, o.snapshots + l.snapshots)
  {
    assert (lines + [line])[..|lines|] == lines;
  }

  /** The prefixes of the table are pairwise incomparable, so no line matches two entries. */
  lemma AtMostOneEntry(line: string, a: nat, b: nat)
    requires a < |Table| && b < |Table|
    requires CheckCommand(line, Table[a].pattern).Some?
    requires CheckCommand(line, Table[b].pattern).Some?
    ensures a == b
  {
    SecondChar(line, a);
    SecondChar(line, b);
  }

  /** The entry whose prefix has `c` as its second character. */
  function EntryOf(c: char): int
  {
    if c == 'V' then 0 else if c == 'U' then 1 else if c == 'I' then 2
    else if c == 'M' then 3 else if c == 'S' then 4 else -1
  }

  /**
   * The prefixes `MV`, `MU`, `SI`, `ZM` and `PSDYNVOL ` already differ in
   * their second character, so a matched line's second character names the entry.
   */
  lemma SecondChar(line: string, k: nat)
    requires k < |Table| && CheckCommand(line, Table[k].pattern).Some?
    ensures |line| >= 2 && EntryOf(line[1]) == k
  {
    var p := Table[k].pattern.prefix;
    assert p <= line;
    assert |p| >= 2 && EntryOf(p[1]) == k;
    assert line[1] == line[..|p|][1];
  }

  /** Entries other than `k` leave the state alone; entry `k` writes its property once. */
  lemma {:induction false} DecodeEntriesOne(st: State, line: string, k: nat, arg: string, n: nat)
    requires k < |Table| && n <= |Table|
    requires CheckCommand(line, Table[k].pattern) == Some(arg)
    ensures var s := st[Table[k].prop := Assign(Table[k], arg)];
      DecodeEntries(st, line, n) == if n <= k then Outcome(st, []) else Outcome(s, [s])
  {
    if n > 0 {
      var hit := CheckCommand(line, Table[n - 1].pattern);
      DecodeEntriesOne(st, line, k, arg, n - 1);
      DecodeEntriesNext(st, line, n - 1, hit);
      if n - 1 != k && hit.Some? {
        AtMostOneEntry(line, k, n - 1);
      }
    }
  }


  /**
   * A line matching entry `k` sets exactly that entry's property to the
   * captured value and fires the callback once, with the new state.
   */
  lemma DecodeLineMatch(st: State, line: string, k: nat)
    requires k < |Table|
    requires CheckCommand(line, Table[k].pattern).Some?
    ensures var s := st[Table[k].prop := Assign(Table[k], CheckCommand(line, Table[k].pattern).value)];
      DecodeLine(st, line) == Outcome(s, [s])
  {
    DecodeEntriesOne(st, line, k, CheckCommand(line, Table[k].pattern).value, |Table|);
  }

  /** A line matching no entry leaves the state unchanged and fires no callback. */
  lemma {:induction false} DecodeLineNoMatch(st: State, line: string, n: nat)
    requires n <= |Table|
    requires forall k :: 0 <= k < |Table| ==> CheckCommand(line, Table[k].pattern).None?
    ensures DecodeEntries(st, line, n) == Outcome(st, [])
  {
    if n > 0 {
      DecodeLineNoMatch(st, line, n - 1);
    }
  }

  /** All characters of `s` belong to `cls`. */
  predicate AllIn(cls: CharClass, s: string)
  {
    forall k :: 0 <= k < |s| ==> InClass(cls, s[k])
  }

  /** Two runs of a class joined are a run of that class. */
  lemma AllInConcat(cls: CharClass, a: string, b: string)
    requires AllIn(cls, a) && AllIn(cls, b)
    ensures AllIn(cls, a + b)
  {
    assert forall k :: 0 <= k < |a + b| ==> (a + b)[k] == if k < |a| then a[k] else b[k - |a|];
  }

  /** A greedy run after `pre` captures exactly the run `arg` when what follows cannot extend it. */
  lemma RunCapture(pre: string, cls: CharClass, arg: string, rest: string)
    requires arg != [] && AllIn(cls, arg)
    requires rest == [] || !InClass(cls, rest[0])
    ensures CheckCommand(pre + arg + rest, Run(pre, cls)) == Some(arg)
  {
    var line := pre + arg + rest;
    assert pre <= line;
    assert line[|pre|] == arg[0];
    RunMatch(line, pre, cls);
    var r := CheckCommand(line, Run(pre, cls));
    var v := r.value;
    assert line[|pre|..|pre| + |arg|] == arg;
    assert line[|pre|..|pre| + |v|] == v;
    assert |v| == |arg|;
  }

  /** `MV` and a run of digits sets `volume` to those digits, as text. */
  lemma VolumeLine(st: State, digits: string, rest: string)
    requires digits != [] && AllIn(Digits, digits)
    requires rest == [] || !InClass(Digits, rest[0])
    ensures var s := st["volume" := Text(digits)];
      DecodeLine(st, "MV" + digits + rest) == Outcome(s, [s])
  {
    RunCapture("MV", Digits, digits, rest);
    DecodeLineMatch(st, "MV" + digits + rest, 0);
  }

  /** `MUON` and `MUOFF` set `muted` to true and false, whatever follows. */
  lemma MuteLine(st: State, on: bool, rest: string)
    ensures var s := st["muted" := Flag(on)];
      DecodeLine(st, (if on then "MUON" else "MUOFF") + rest) == Outcome(s, [s])
  {
    var line := (if on then "MUON" else "MUOFF") + rest;
    assert "MU" + (if on then "ON" else "OFF") <= line;
    assert line[3] == (if on then 'N' else 'F');
    DecodeLineMatch(st, line, 1);
  }

  /** `SI` and a run of input characters sets `input` to that run. */
  lemma InputLine(st: State, source: string, rest: string)
    requires source != [] && AllIn(InputChars, source)
    requires rest == [] || !InClass(InputChars, rest[0])
    ensures var s := st["input" := Text(source)];
      DecodeLine(st, "SI" + source + rest) == Outcome(s, [s])
  {
    RunCapture("SI", InputChars, source, rest);
    DecodeLineMatch(st, "SI" + source + rest, 2);
  }

  /** `ZMON` and `ZMOFF` set `powerState` to the text `ON` or `OFF`, not to a boolean. */
  lemma PowerLine(st: State, on: bool, rest: string)
    ensures var s := st["powerState" := Text(if on then "ON" else "OFF")];
      DecodeLine(st, (if on then "ZMON" else "ZMOFF") + rest) == Outcome(s, [s])
  {
    var line := (if on then "ZMON" else "ZMOFF") + rest;
    assert "ZM" + (if on then "ON" else "OFF") <= line;
    assert line[3] == (if on then 'N' else 'F');
    DecodeLineMatch(st, line, 3);
  }

  /** `PSDYNVOL ` and a run of capital letters sets `dynamicVolume` to that run. */
  lemma DynamicVolumeLine(st: State, mode: string, rest: string)
    requires mode != [] && AllIn(Letters, mode)
    requires rest == [] || !InClass(Letters, rest[0])
    ensures var s := st["dynamicVolume" := Text(mode)];
      DecodeLine(st, "PSDYNVOL " + mode + rest) == Outcome(s, [s])
  {
    RunCapture("PSDYNVOL ", Letters, mode, rest);
    DecodeLineMatch(st, "PSDYNVOL " + mode + rest, 4);
  }

  /** The shape every decoded state keeps: only the five table properties, `muted` a boolean, the rest text. */
  predicate WellTyped(st: State)
  {
    forall p :: p in st ==>
      (p == "muted" && st[p].Flag?) ||
      ((p == "volume" || p == "input" || p == "powerState" || p == "dynamicVolume") && st[p].Text?)
  }

  lemma {:induction false} DecodeEntriesWellTyped(st: State, line: string, n: nat)
    requires n <= |Table| && WellTyped(st)
    ensures WellTyped(DecodeEntries(st, line, n).state)
  {
    if n > 0 {
      DecodeEntriesWellTyped(st, line, n - 1);
    }
  }

  /**
   * Decoding keeps the state well typed; each line fires at most one
   * callback, and the last snapshot delivered is the final state.
   */
  lemma {:induction false} DecodeLinesInvariant(st: State, lines: seq<string>)
    requires WellTyped(st)
    ensures var o := DecodeLines(st, lines);
      WellTyped(o.state) && |o.snapshots| <= |lines| &&
      (o.snapshots != [] ==> o.snapshots[|o.snapshots| - 1] == o.state)
  {
    if lines != [] {
      var init := lines[..|lines| - 1];
      var line := lines[|lines| - 1];
      DecodeLinesInvariant(st, init);
      var o := DecodeLines(st, init);
      DecodeEntriesWellTyped(o.state, line, |Table|);
      if k :| 0 <= k < |Table| && CheckCommand(line, Table[k].pattern).Some? {
        DecodeLineMatch(o.state, line, k);
      } else {
        DecodeLineNoMatch(o.state, line, |Table|);
      }
    }
  }

  /** A chunk that ends in a CR holds exactly one line, the text before it. */
  lemma TerminatedOne(line: string)
    requires CR !in line
    ensures Terminated(line + [CR]) == [line]
  {
    assert Join([line] + [""], CR) == line + [CR];
    TerminatedOfLines([line], "");
  }

  /** A chunk without a CR holds no line at all. */
  lemma TerminatedNone(s: string)
    requires CR !in s
    ensures Terminated(s) == []
  {
    assert Join([] + [s], CR) == s;
    TerminatedOfLines([], s);
  }

  /** A chunk of one line decodes as that line. */
  lemma DecodeLinesOne(st: State, line: string)
    ensures DecodeLines(st, [line]) == DecodeLine(st, line)
  {
    assert [line][..0] == [];
  }

  /** `MV` and digits with no CR yet: no line, no change. */
  lemma UnterminatedIgnored(st: State, d: string)
    requires AllIn(Digits, d)
    ensures DecodeLines(st, Terminated("MV" + d)) == Outcome(st, [])
  {
    assert CR !in "MV" + d by {
      assert forall k :: 2 <= k < |"MV" + d| ==> ("MV" + d)[k] == d[k - 2];
    }
    TerminatedNone("MV" + d);
  }

  /** Digits with a CR but without their `MV`: a line no entry matches. */
  lemma HeadlessIgnored(st: State, d: string)
    requires d != [] && AllIn(Digits, d)
    ensures DecodeLines(st, Terminated(d + [CR])) == Outcome(st, [])
  {
    assert CR !in d by {
      assert forall k :: 0 <= k < |d| ==> InClass(Digits, d[k]);
    }
    TerminatedOne(d);
    DecodeLinesOne(st, d);
    forall k | 0 <= k < |Table| ensures CheckCommand(d, Table[k].pattern).None? {
      assert InClass(Digits, d[0]);
      assert Table[k].pattern.prefix[0] in "MSZP";
    }
    DecodeLineNoMatch(st, d, |Table|);
  }

  /** `MV`, digits and a CR in one chunk: the volume is set to the digits. */
  lemma VolumeChunk(st: State, d: string)
    requires d != [] && AllIn(Digits, d)
    ensures var s := st["volume" := Text(d)];
      DecodeLines(st, Terminated("MV" + d + [CR])) == Outcome(s, [s])
  {
    var line := "MV" + d;
    assert CR !in line by {
      assert forall k :: 2 <= k < |line| ==> line[k] == d[k - 2];
    }
    TerminatedOne(line);
    DecodeLinesOne(st, line);
    assert line == "MV" + d + "";
    VolumeLine(st, d, "");
  }

  /**
   * A line split across two chunks is lost: `MV` and digits in one chunk and
   * the rest of the digits with the CR in the next change nothing, while the
   * same text in one chunk sets the volume.
   */
  lemma FragmentsNotReassembled(st: State, d1: string, d2: string)
    requires d1 != [] && AllIn(Digits, d1)
    requires d2 != [] && AllIn(Digits, d2)
    ensures DecodeLines(st, Terminated("MV" + d1)) == Outcome(st, [])
    ensures DecodeLines(st, Terminated(d2 + [CR])) == Outcome(st, [])
    ensures var s := st["volume" := Text(d1 + d2)];
      DecodeLines(st, Terminated("MV" + d1 + d2 + [CR])) == Outcome(s, [s])
  {
    UnterminatedIgnored(st, d1);
    HeadlessIgnored(st, d2);
    AllInConcat(Digits, d1, d2);
    assert "MV" + d1 + d2 == "MV" + (d1 + d2);
    VolumeChunk(st, d1 + d2);
  }
}
