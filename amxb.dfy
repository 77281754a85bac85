/**
 * The AMXB discovery beacon: a datagram that starts with the four characters
 * `AMXB` and carries `<-KEY=VALUE>` tags, which the listener collects into a
 * flat map and hands, with the sender's address, to the discovery callback.
 */
module Amxb {
  import opened Wrappers
  import opened Strings

  /** What the discovery callback receives: the sender's address and the tag map. */
  datatype Discovery = Discovery(address: string, info: map<string, string>)

  datatype Tag = Tag(key: string, value: string)

  /** What `<-([^=]+)=([^>]+)>` can capture: a non-empty key without `=`, a non-empty value without `>`. */
  predicate WellFormed(t: Tag)
  {
    t.key != [] && '=' !in t.key && t.value != [] && '>' !in t.value
  }

  /** The text of one tag. */
  function Render(t: Tag): string
  {
    "<-" + t.key + "=" + t.value + ">"
  }

  /** The tags of a list rendered one after another. */
  function RenderAll(tags: seq<Tag>): string
  {
    if tags == [] then "" else Render(tags[0]) + RenderAll(tags[1..])
  }

  /** A match of the tag pattern: the captured tag and the span `[start, end)` it covers. */
  datatype Found = Found(tag: Tag, start: nat, end: nat)

  /**
   * The match of `<-([^=]+)=([^>]+)>` that starts at `i`, if any. The key
   * runs to the first `=`, the value to the first `>` after it; the classes
   * leave the regular expression no other way to match.
   */
  function TagAt(s: string, i: nat): (r: Option<Found>)
    requires i <= |s|
    ensures r.Some? ==>
      (r.value.start == i && WellFormed(r.value.tag) && r.value.end == i + |Render(r.value.tag)| <= |s|)
  {
    if i + 2 <= |s| && s[i] == '<' && s[i + 1] == '-' then
      var k := IndexOf(s, '=', i + 2);
      if k == i + 2 || k == |s| then None
      else
        var v := IndexOf(s, '>', k + 1);
        if v == k + 1 || v == |s| then None
        else Some(Found(Tag(s[i + 2..k], s[k + 1..v]), i, v + 1))
    else None
  }

  /** A match covers exactly the text of the tag it captures. */
  lemma TagAtSound(s: string, i: nat)
    requires i <= |s| && TagAt(s, i).Some?
    ensures s[i..TagAt(s, i).value.end] == Render(TagAt(s, i).value.tag)
  {
    var k := IndexOf(s, '=', i + 2);
    var v := IndexOf(s, '>', k + 1);
    RenderSlices(s, i, k, v);
  }

  /** Conversely, every well-formed tag written out at `i` is matched there, with exactly that key and value. */
  lemma TagAtComplete(s: string, i: nat, t: Tag)
    requires WellFormed(t)
    requires i + |Render(t)| <= |s| && s[i..i + |Render(t)|] == Render(t)
    ensures TagAt(s, i) == Some(Found(t, i, i + |Render(t)|))
  {
    var k := i + 2 + |t.key|;
    var v := k + 1 + |t.value|;
    assert v + 1 == i + |Render(t)| && s[i + 2..k] == t.key && s[k + 1..v] == t.value &&
      s[i] == '<' && s[i + 1] == '-' && IndexOf(s, '=', i + 2) == k && IndexOf(s, '>', k + 1) == v by {
      RenderAt(s, i, t);
      IndexOfAt(s, '=', i + 2, k);
      IndexOfAt(s, '>', k + 1, v);
    }
    TagAtSplit(s, i, k, v);
  }

  /** The characters of `s` where a rendered tag sits. */
  lemma RenderAt(s: string, i: nat, t: Tag)
    requires i + |Render(t)| <= |s| && s[i..i + |Render(t)|] == Render(t)
    ensures var k := i + 2 + |t.key|; var v := k + 1 + |t.value|;
      v + 1 == i + |Render(t)| && s[i] == '<' && s[i + 1] == '-' && s[i + 2..k] == t.key &&
      s[k] == '=' && s[k + 1..v] == t.value && s[v] == '>'
  {
    var k := i + 2 + |t.key|;
    var v := k + 1 + |t.value|;
    RenderParts(t);
    var w := s[i..v + 1];
    assert s[i] == w[0] && s[i + 1] == w[1] && s[k] == w[k - i] && s[v] == w[v - i];
    SliceOfSlice(s, i, v + 1, 2, k - i);
    SliceOfSlice(s, i, v + 1, k - i + 1, v - i);
  }

  /** `TagAt` once the positions of the first `=` and the first `>` after it are known. */
  lemma TagAtSplit(s: string, i: nat, k: nat, v: nat)
    requires i + 2 < k && k + 1 < v < |s| && s[i] == '<' && s[i + 1] == '-'
    requires IndexOf(s, '=', i + 2) == k && IndexOf(s, '>', k + 1) == v
    ensures TagAt(s, i) == Some(Found(Tag(s[i + 2..k], s[k + 1..v]), i, v + 1))
  {
  }

  /** A tag read back from the characters around its punctuation renders to those characters. */
  lemma RenderSlices(s: string, i: nat, k: nat, v: nat)
    requires i + 2 <= k < v < |s| && s[i] == '<' && s[i + 1] == '-' && s[k] == '=' && s[v] == '>'
    ensures s[i..v + 1] == Render(Tag(s[i + 2..k], s[k + 1..v]))
  {
    assert s[i..v + 1] == s[i..i + 2] + s[i + 2..k] + s[k..k + 1] + s[k + 1..v] + s[v..v + 1];
    assert s[i..i + 2] == "<-";
  }

  /** Where the key, the value and the punctuation sit in a rendered tag. */
  lemma RenderParts(t: Tag)
    ensures var r := Render(t); var n := |t.key|;
      |r| == n + |t.value| + 4 &&
      r[0] == '<' && r[1] == '-' && r[2..2 + n] == t.key && r[2 + n] == '=' &&
      r[3 + n..3 + n + |t.value|] == t.value && r[3 + n + |t.value|] == '>'
  {
    var n := |t.key|;
    var a := "<-" + t.key;
    var b := a + "=" + t.value;
    assert Render(t) == b + ">";
    assert a[2..] == t.key;
    assert b[..2 + n] == a;
    assert b[3 + n..] == t.value;
  }

  /** `m.match(...)`: the leftmost match at or after `i`. */
  function Search(s: string, i: nat): (r: Option<Found>)
    requires i <= |s|
    ensures r.Some? ==> i <= r.value.start < r.value.end <= |s| && WellFormed(r.value.tag)
    decreases |s| - i
  {
    var t := TagAt(s, i);
    if t.Some? || i == |s| then t else Search(s, i + 1)
  }

  /** The search returns a match at its start, and the leftmost one: no match begins earlier, and none at all when it finds nothing. */
  lemma SearchLeftmost(s: string, i: nat)
    requires i <= |s|
    ensures Search(s, i).Some? ==> TagAt(s, Search(s, i).value.start) == Search(s, i)
    ensures Search(s, i).Some? ==> forall j :: i <= j < Search(s, i).value.start ==> TagAt(s, j).None?
    ensures Search(s, i).None? ==> forall j :: i <= j <= |s| ==> TagAt(s, j).None?
  {
    SearchFound(s, i);
    SearchBefore(s, i);
    SearchNone(s, i);
  }

  lemma {:induction false} SearchFound(s: string, i: nat)
    requires i <= |s|
    ensures Search(s, i).Some? ==> TagAt(s, Search(s, i).value.start) == Search(s, i)
    decreases |s| - i
  {
    if TagAt(s, i).None? && i < |s| {
      SearchFound(s, i + 1);
    }
  }

  lemma {:induction false} SearchBefore(s: string, i: nat)
    requires i <= |s|
    ensures Search(s, i).Some? ==> forall j :: i <= j < Search(s, i).value.start ==> TagAt(s, j).None?
    decreases |s| - i
  {
    if TagAt(s, i).None? && i < |s| {
      SearchBefore(s, i + 1);
    }
  }

  lemma {:induction false} SearchNone(s: string, i: nat)
    requires i <= |s|
    ensures Search(s, i).None? ==> forall j :: i <= j <= |s| ==> TagAt(s, j).None?
    decreases |s| - i
  {
    if TagAt(s, i).None? && i < |s| {
      SearchNone(s, i + 1);
    }
  }



  /** The tags the scanning loop finds: each search resumes right after the previous match. */
  function Tags(m: string): seq<Tag>
    decreases |m|
  {
    match Search(m, 0)
    case None => []
    case Some(f) => [f.tag] + Tags(m[f.end..])
  }

  /** A match at `i` is the one the search from `i` returns. */
  lemma SearchAt(s: string, i: nat)
    requires i <= |s| && TagAt(s, i).Some?
    ensures Search(s, i) == TagAt(s, i)
  {
  }

  /** Every tag the loop finds could have been written by `Render`: a non-empty key without `=`, a non-empty value without `>`. */
  lemma {:induction false} TagsWellFormed(m: string)
    ensures forall k :: 0 <= k < |Tags(m)| ==> WellFormed(Tags(m)[k])
    decreases |m|
  {
    match Search(m, 0)
    case None =>
    case Some(f) =>
      TagsWellFormed(m[f.end..]);
      assert Tags(m) == [f.tag] + Tags(m[f.end..]);
  }

  /** One step of `Tags`: the first match, then the tags after it. */
  lemma TagsFirst(m: string, f: Found)
    requires Search(m, 0) == Some(f)
    ensures f.end <= |m| && Tags(m) == [f.tag] + Tags(m[f.end..])
  {
  }

  /**
   * The one key a plain JavaScript object does not store: assigning a string
   * to `__proto__` goes to the inherited prototype setter, which ignores it.
   */
  const ProtoKey: string := "__proto__"

  /** `js[key] = value` on a plain object. */
  function Store(js: map<string, string>, t: Tag): map<string, string>
  {
    if t.key == ProtoKey then js else js[t.key := t.value]
  }

  /** The map the loop builds: the tags stored in order, so a later value for a key replaces an earlier one. */
  function Collect(acc: map<string, string>, tags: seq<Tag>): map<string, string>
    decreases |tags|
  {
    if tags == [] then acc else Collect(Store(acc, tags[0]), tags[1..])
  }

  /** The datagram starts with the header `AMXB`. */
  predicate Header(message: string)
  {
    "AMXB" <= message
  }

  /**
   * The `message` handler: a datagram without the header yields no callback;
   * otherwise the callback receives the sender and the map of every tag
   * found, even when that map is empty.
   */
  method OnMessage(message: string, sender: string) returns (r: Option<Discovery>)
    ensures !Header(message) ==> r == None
    ensures Header(message) ==> r == Some(Discovery(sender, Collect(map[], Tags(message))))
  {
    if !("AMXB" <= message) {
      return None;
    }
    var js: map<string, string> := map[];
    var m := message;
    var result := Search(m, 0);
    while result.Some?
      invariant result == Search(m, 0)
      invariant Collect(js, Tags(m)) == Collect(map[], Tags(message))
      decreases |m|
    {
      if result.value.tag.key != ProtoKey {
        js := js[result.value.tag.key := result.value.tag.value];
      }
      m := m[result.value.end..];
      result := Search(m, 0);
    }
    return Some(Discovery(sender, js));
  }

  /** Search skips a stretch without `<`, where no tag can start. */
  lemma {:induction false} SearchSkips(s: string, i: nat, j: nat)
    requires i <= j <= |s|
    requires forall k :: i <= k < j ==> s[k] != '<'
    ensures Search(s, i) == Search(s, j)
    decreases j - i
  {
    if i < j {
      assert TagAt(s, i).None?;
      SearchSkips(s, i + 1, j);
    }
  }

  /**
   * Writing well-formed tags out after text without `<` (such as the header)
   * and scanning again gives back exactly those tags, in order.
   */
  lemma {:induction false} TagsOfRendered(p: string, tags: seq<Tag>)
    requires '<' !in p
    requires forall k :: 0 <= k < |tags| ==> WellFormed(tags[k])
    ensures Tags(p + RenderAll(tags)) == tags
    decreases |tags|
  {
    if tags == [] {
      assert p + RenderAll(tags) == p;
      TagsOfPlain(p);
    } else {
      var rest := RenderAll(tags[1..]);
      assert Tags(rest) == tags[1..] by {
        TagsOfRendered("", tags[1..]);
        assert "" + rest == rest;
      }
      assert p + RenderAll(tags) == p + Render(tags[0]) + rest;
      TagsOfFirst(p, tags[0], rest);
      assert tags == [tags[0]] + tags[1..];
    }
  }

  /** Text without `<` holds no tag. */
  lemma TagsOfPlain(p: string)
    requires '<' !in p
    ensures Tags(p) == []
  {
    assert p[..|p|] == p;
    SearchSkipsPlain(p, |p|);
    assert TagAt(p, |p|).None?;
  }

  /** Text without `<` before `j` holds no match: the search from the start is the search from `j`. */
  lemma SearchSkipsPlain(s: string, j: nat)
    requires j <= |s| && '<' !in s[..j]
    ensures Search(s, 0) == Search(s, j)
  {
    assert forall k :: 0 <= k < j ==> s[k] != '<' by {
      forall k | 0 <= k < j ensures s[k] != '<' {
        assert s[k] == s[..j][k];
      }
    }
    SearchSkips(s, 0, j);
  }

  /** A tag written out after a plain prefix is the first match, and the scan resumes right after it. */
  lemma TagsOfFirst(p: string, t: Tag, q: string)
    requires '<' !in p && WellFormed(t)
    ensures Tags(p + Render(t) + q) == [t] + Tags(q)
  {
    var n := |Render(t)|;
    var s := p + Render(t) + q;
    var f := Found(t, |p|, |p| + n);
    assert Search(s, 0) == Some(f) by {
      assert s[..|p|] == p;
      assert s[|p|..|p| + n] == Render(t);
      TagAtComplete(s, |p|, t);
      SearchFirst(s, |p|, f);
    }
    assert s[|p| + n..] == q;
    TagsFirst(s, f);
  }

  /** A match at `j` after text without `<` is the first match of the whole text. */
  lemma SearchFirst(s: string, j: nat, f: Found)
    requires j <= |s| && '<' !in s[..j] && TagAt(s, j) == Some(f)
    ensures Search(s, 0) == Some(f)
  {
    SearchSkipsPlain(s, j);
    SearchAt(s, j);
  }

  /** The key a later tag sets is in the map, with the value of the last tag that names it. */
  lemma {:induction false} CollectLastWins(acc: map<string, string>, tags: seq<Tag>, i: nat)
    requires i < |tags| && tags[i].key != ProtoKey
    requires forall j :: i < j < |tags| ==> tags[j].key != tags[i].key
    ensures tags[i].key in Collect(acc, tags) && Collect(acc, tags)[tags[i].key] == tags[i].value
    decreases |tags|
  {
    var acc' := Store(acc, tags[0]);
    if i == 0 {
      CollectKeeps(acc', tags[1..], tags[0].key);
    } else {
      CollectLastWins(acc', tags[1..], i - 1);
    }
  }

  /** A key no tag names keeps its entry in the accumulator, present or absent. */
  lemma {:induction false} CollectKeeps(acc: map<string, string>, tags: seq<Tag>, key: string)
    requires forall j :: 0 <= j < |tags| ==> tags[j].key != key
    ensures key in Collect(acc, tags) <==> key in acc
    ensures key in acc ==> Collect(acc, tags)[key] == acc[key]
    decreases |tags|
  {
    if tags != [] {
      CollectKeeps(Store(acc, tags[0]), tags[1..], key);
    }
  }

  /** A header with a well-formed tag list after it yields the map of those tags. */
  lemma BeaconOfTags(tags: seq<Tag>)
    requires forall k :: 0 <= k < |tags| ==> WellFormed(tags[k])
    ensures Header("AMXB" + RenderAll(tags))
    ensures Collect(map[], Tags("AMXB" + RenderAll(tags))) == Collect(map[], tags)
  {
    var m := "AMXB" + RenderAll(tags);
    assert m[..4] == "AMXB";
    assert Tags(m) == tags by {
      TagsOfRendered("AMXB", tags);
    }
  }

  /** The example beacon is the header followed by its two tags written out. */
  lemma ExampleRendered(m: string)
    requires m == "AMXB" + "<-Device-Model=AVR-X2400H>" + "<-Config-URL=http://x>"
    ensures m == "AMXB" + RenderAll([Tag("Device-Model", "AVR-X2400H"), Tag("Config-URL", "http://x")])
  {
    var t1 := Tag("Device-Model", "AVR-X2400H");
    var t2 := Tag("Config-URL", "http://x");
    RenderAllPair(t1, t2);
    assert Render(t1) == "<-Device-Model=AVR-X2400H>";
    assert Render(t2) == "<-Config-URL=http://x>";
  }

  /** Two tags stored one after the other. */
  lemma CollectPair(acc: map<string, string>, a: Tag, b: Tag)
    requires a.key != ProtoKey && b.key != ProtoKey
    ensures Collect(acc, [a, b]) == acc[a.key := a.value][b.key := b.value]
  {
    assert [a, b][1..] == [b] && [b][1..] == [];
    assert Collect(acc, [a, b]) == Collect(acc[a.key := a.value], [b]);
    assert Collect(acc[a.key := a.value], [b]) == Collect(acc[a.key := a.value][b.key := b.value], []);
  }

  /**
   * No beacon can set `__proto__`: the callback's map never holds that key,
   * and a tag naming it leaves the map as it was.
   */
  lemma {:induction false} ProtoNeverStored(acc: map<string, string>, tags: seq<Tag>)
    requires ProtoKey !in acc
    ensures ProtoKey !in Collect(acc, tags)
    ensures tags != [] && tags[0].key == ProtoKey ==> Collect(acc, tags) == Collect(acc, tags[1..])
    decreases |tags|
  {
    if tags != [] {
      ProtoNeverStored(Store(acc, tags[0]), tags[1..]);
    }
  }

  /** Two tags written out one after the other. */
  lemma RenderAllPair(a: Tag, b: Tag)
    ensures RenderAll([a, b]) == Render(a) + Render(b)
  {
    assert [a, b][1..] == [b] && [b][1..] == [];
    assert RenderAll([b]) == Render(b) + RenderAll([]);
  }

  /** The two tags of the example beacon, found in order. */
  lemma ExampleTags(m: string)
    requires m == "AMXB" + "<-Device-Model=AVR-X2400H>" + "<-Config-URL=http://x>"
    ensures Tags(m) == [Tag("Device-Model", "AVR-X2400H"), Tag("Config-URL", "http://x")]
  {
    ExampleRendered(m);
    TagsOfRendered("AMXB", [Tag("Device-Model", "AVR-X2400H"), Tag("Config-URL", "http://x")]);
  }

  /**
   * The beacon of an AVR-X2400H, `AMXB<-Device-Model=AVR-X2400H><-Config-URL=http://x>`,
   * written as header and tags, yields the map of its two tags.
   */
  lemma ExampleBeacon(m: string)
    requires m == "AMXB" + "<-Device-Model=AVR-X2400H>" + "<-Config-URL=http://x>"
    ensures Header(m)
    ensures Collect(map[], Tags(m)) == map["Device-Model" := "AVR-X2400H", "Config-URL" := "http://x"]
  {
    var t1 := Tag("Device-Model", "AVR-X2400H");
    var t2 := Tag("Config-URL", "http://x");
    ExampleTags(m);
    CollectPair(map[], t1, t2);
  }

  /** `AMXB<-__proto__=x>` passes the header check and yields the empty map. */
  lemma ProtoBeacon(m: string)
    requires m == "AMXB" + "<-__proto__=x>"
    ensures Header(m) && Collect(map[], Tags(m)) == map[]
  {
    var t := Tag(ProtoKey, "x");
    assert Render(t) == "<-__proto__=x>";
    assert [t][1..] == [];
    assert RenderAll([t]) == Render(t) + RenderAll([]);
    assert m == "AMXB" + RenderAll([t]);
    assert m[..4] == "AMXB";
    TagsOfRendered("AMXB", [t]);
    ProtoNeverStored(map[], [t]);
    assert Collect(map[], [t][1..]) == map[];
  }
}
