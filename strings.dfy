/**
 * Character-level helpers shared by the line decoder and the beacon parser:
 * searching for a character and JavaScript's `String.prototype.split` with a
 * one-character separator.
 */
module Strings {

  /** The carriage return that terminates every unit of the device protocol. */
  const CR: char := '\r'

  /** Index of the first `c` in `s` at or after `i`, or `|s|` when there is none. */
  function IndexOf(s: string, c: char, i: nat): (r: nat)
    requires i <= |s|
    ensures i <= r <= |s|
    ensures forall k :: i <= k < r ==> s[k] != c
    ensures r < |s| ==> s[r] == c
    decreases |s| - i
  {
    if i == |s| || s[i] == c then i else IndexOf(s, c, i + 1)
  }

  /** The first `c` at or after `i` is at `x` when `x` holds one and nothing before it does. */
  lemma IndexOfAt(s: string, c: char, i: nat, x: nat)
    requires i <= x < |s| && s[x] == c && c !in s[i..x]
    ensures IndexOf(s, c, i) == x
  {
    assert forall k :: i <= k < x ==> s[k] == s[i..x][k - i];
  }

  /** A slice of a slice is a slice of the whole. */
  lemma SliceOfSlice(s: string, i: nat, j: nat, a: nat, b: nat)
    requires i <= j <= |s| && a <= b <= j - i
    ensures s[i..j][a..b] == s[i + a..i + b]
  {
    assert forall t :: 0 <= t < b - a ==> s[i..j][a..b][t] == s[i + a + t];
  }

  /**
   * `s.split(sep)`: the pieces of `s` between the separators, always one more
   * piece than there are separators, so an empty string gives `[""]`.
   */
  function Split(s: string, sep: char): (r: seq<string>)
    ensures |r| >= 1
    ensures forall k :: 0 <= k < |r| ==> sep !in r[k]
    decreases |s|
  {
    var i := IndexOf(s, sep, 0);
    if i == |s| then [s] else [s[..i]] + Split(s[i + 1..], sep)
  }

  /** `parts.join(sep)`, the inverse of `Split`. */
  function Join(parts: seq<string>, sep: char): string
    requires |parts| >= 1
  {
    if |parts| == 1 then parts[0] else parts[0] + [sep] + Join(parts[1..], sep)
  }

  /** Splitting and joining again gives back the original text. */
  lemma {:induction false} JoinSplit(s: string, sep: char)
    ensures Join(Split(s, sep), sep) == s
    decreases |s|
  {
    var i := IndexOf(s, sep, 0);
    if i < |s| {
      JoinSplit(s[i + 1..], sep);
      assert s == s[..i] + [sep] + s[i + 1..];
    }
  }

  /** Joining pieces free of the separator and splitting again gives back the pieces. */
  lemma {:induction false} SplitJoin(parts: seq<string>, sep: char)
    requires |parts| >= 1
    requires forall k :: 0 <= k < |parts| ==> sep !in parts[k]
    ensures Split(Join(parts, sep), sep) == parts
  {
    var s := Join(parts, sep);
    var p := parts[0];
    var i := IndexOf(s, sep, 0);
    if |parts| == 1 {
      assert sep !in s;
      assert i == |s|;
    } else {
      var rest := Join(parts[1..], sep);
      assert s == p + [sep] + rest;
      assert forall k :: 0 <= k < |p| ==> s[k] == p[k] && s[k] != sep;
      assert s[|p|] == sep;
      assert i == |p|;
      assert s[..i] == p;
      assert s[i + 1..] == rest;
      SplitJoin(parts[1..], sep);
    }
  }

  /**
   * The carriage-return-terminated lines of a received chunk: every piece of
   * `Split(s, CR)` but the last, which is the unterminated remainder.
   */
  function Terminated(s: string): (r: seq<string>)
    ensures forall k :: 0 <= k < |r| ==> CR !in r[k]
  {
    var p := Split(s, CR);
    p[..|p| - 1]
  }

  /** Lines each followed by CR, then an unterminated tail, give back exactly those lines. */
  lemma TerminatedOfLines(lines: seq<string>, tail: string)
    requires forall k :: 0 <= k < |lines| ==> CR !in lines[k]
    requires CR !in tail
    ensures Terminated(Join(lines + [tail], CR)) == lines
  {
    var parts := lines + [tail];
    assert forall k :: 0 <= k < |parts| ==> CR !in parts[k] by {
      forall k | 0 <= k < |parts| ensures CR !in parts[k] {
        if k < |lines| { assert parts[k] == lines[k]; } else { assert parts[k] == tail; }
      }
    }
    SplitJoin(parts, CR);
    assert parts[..|parts| - 1] == lines;
  }

  /** Appending text without CR to a chunk extends its last piece and leaves the others alone. */
  lemma {:induction false} SplitAppend(s: string, t: string, sep: char)
    requires sep !in t
    ensures var p := Split(s, sep); Split(s + t, sep) == p[..|p| - 1] + [p[|p| - 1] + t]
    decreases |s|
  {
    var i := IndexOf(s, sep, 0);
    var j := IndexOf(s + t, sep, 0);
    if i == |s| {
      assert forall k :: 0 <= k < |s + t| ==> (s + t)[k] != sep by {
        forall k | 0 <= k < |s + t| ensures (s + t)[k] != sep {
          if k >= |s| { assert (s + t)[k] == t[k - |s|]; }
        }
      }
      assert j == |s + t|;
    } else {
      assert forall k :: 0 <= k < i ==> (s + t)[k] == s[k];
      assert (s + t)[i] == sep;
      assert j == i;
      assert (s + t)[..j] == s[..i];
      assert (s + t)[j + 1..] == s[i + 1..] + t;
      SplitAppend(s[i + 1..], t, sep);
      var q := Split(s[i + 1..], sep);
      var p := Split(s, sep);
      assert p == [s[..i]] + q;
      assert p[..|p| - 1] == [s[..i]] + q[..|q| - 1];
      assert p[|p| - 1] == q[|q| - 1];
      assert Split(s + t, sep) == [s[..i]] + Split(s[i + 1..] + t, sep);
    }
  }

  /**
   * Text after the last CR of a chunk never reaches the decoder: appending more
   * unterminated text does not change the decoded lines.
   */
  lemma TerminatedIgnoresTail(s: string, t: string)
    requires CR !in t
    ensures Terminated(s + t) == Terminated(s)
  {
    SplitAppend(s, t, CR);
  }
}
