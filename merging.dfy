/** Merging newly generated module content into what a project already
    holds, for the non-destructive "append" generation: summaries are
    concatenated, note sections are matched by title and their points
    unioned, and insights, flashcards and quiz questions are de-duplicated
    by a key. Data is untyped; a `TypeError` (a property read on `null`,
    `toLowerCase` of a non-string, `forEach` of a non-array, spread of a
    value that is neither an array nor a string) is `Thrown`. Spreading a
    string gives its characters, each as a one-character string. */
module Merging {
  import opened Common
  import opened JsValue

  /** A property read on these throws. */
  predicate Missing(v: Js) { v.Null? || v.Undefined? }

  // ---------------------------------------------------------------- summary

  /** The text of one side: the string itself, or its `summary` or `''`. */
  function SummaryText(d: Js): string
  {
    if d.Str? then d.s else Text(Or(Get(d, "summary"), Str("")))
  }

  const SummarySeparator := "\n\n<hr />\n\n"

  /** `mergeSummary`: one summary, the old text, a rule, the new text. */
  function MergeSummary(oldData: Js, newData: Js): (r: Js)
    ensures r.Obj? && Keys(r) == ["summary"]
    ensures Get(r, "summary").Str?
    ensures StartsWith(Get(r, "summary").s, SummaryText(oldData) + SummarySeparator)
    ensures EndsWith(Get(r, "summary").s, SummarySeparator + SummaryText(newData))
  {
    var text := SummaryText(oldData) + SummarySeparator + SummaryText(newData);
    assert text[..|SummaryText(oldData) + SummarySeparator|] == SummaryText(oldData) + SummarySeparator;
    assert text[|text| - |SummarySeparator + SummaryText(newData)|..] == SummarySeparator + SummaryText(newData);
    Obj([("summary", Str(text))])
  }

  // ------------------------------------------------------------- point sets

  /** `Array.from(new Set(xs))`: the first occurrence of each value, in
      order. Primitives compare by value; arrays and objects are distinct
      references and are all kept. */
  function Dedupe(s: seq<Js>): (r: seq<Js>)
    ensures forall x :: x in r <==> x in s
    ensures forall i, j :: 0 <= i < j < |r| ==> !StrictEq(r[i], r[j])
    ensures |r| <= |s|
    decreases |s|
  {
    if s == [] then []
    else
      var d, x := Dedupe(s[..|s| - 1]), s[|s| - 1];
      assert s == s[..|s| - 1] + [x];
      if !x.Arr? && !x.Obj? && x in d then d else d + [x]
  }

  predicate NoRepeats(s: seq<Js>)
  {
    forall i, j :: 0 <= i < j < |s| ==> !StrictEq(s[i], s[j])
  }

  /** A list without repeated values is its own de-duplication. */
  lemma {:induction false} DedupeNoRepeats(s: seq<Js>)
    requires NoRepeats(s)
    ensures Dedupe(s) == s
    decreases |s|
  {
    if s != [] {
      var p, x := s[..|s| - 1], s[|s| - 1];
      DedupeNoRepeats(p);
      assert p + [x] == s;
    }
  }

  /** De-duplicating a longer list keeps the de-duplicated prefix in front. */
  lemma {:induction false} DedupeExtends(p: seq<Js>, q: seq<Js>)
    ensures |Dedupe(p)| <= |Dedupe(p + q)| && Dedupe(p + q)[..|Dedupe(p)|] == Dedupe(p)
    decreases |q|
  {
    if q == [] {
      assert p + q == p;
    } else {
      var q', x := q[..|q| - 1], q[|q| - 1];
      DedupeExtends(p, q');
      assert (p + q)[..|p + q| - 1] == p + q' && (p + q)[|p + q| - 1] == x;
    }
  }

  /** The union of two point lists keeps every point of the first, in its
      order and in front, when the first has no repeats. */
  lemma UnionKeepsFirst(a: seq<Js>, b: seq<Js>)
    requires NoRepeats(a)
    ensures |a| <= |Dedupe(a + b)| && Dedupe(a + b)[..|a|] == a
  {
    DedupeNoRepeats(a);
    DedupeExtends(a, b);
  }

  // ------------------------------------------------------------------ notes

  /** `s.section.toLowerCase()` */
  function SectionKey(s: Js): (r: Result<string>)
    ensures r.Ok? <==> Get(s, "section").Str?
    ensures r.Ok? ==> r.value == Lower(Get(s, "section").s)
  {
    var t := Get(s, "section");
    if t.Str? then Ok(Lower(t.s)) else Thrown
  }

  /** `merged.find(s => s.section.toLowerCase() === newSec.section.toLowerCase())`,
      as an index, from position `k` on. */
  function FindSectionFrom(merged: seq<Js>, ns: Js, k: nat): (r: Result<Option<nat>>)
    ensures k >= |merged| ==> r == Ok(None)
    ensures r.Ok? && r.value.Some? ==>
              k <= r.value.value < |merged| && SectionKey(ns).Ok? && SectionKey(merged[r.value.value]) == SectionKey(ns)
              && forall j :: k <= j < r.value.value ==> SectionKey(merged[j]) != SectionKey(ns)
    ensures r.Ok? && r.value.None? ==> forall j :: k <= j < |merged| ==> SectionKey(merged[j]) != SectionKey(ns)
    ensures (forall j :: k <= j < |merged| ==> SectionKey(merged[j]).Ok?) && (k < |merged| ==> SectionKey(ns).Ok?) ==> r.Ok?
    decreases |merged| - k
  {
    if k >= |merged| then Ok(None)
    else
      var a := SectionKey(merged[k]);
      if a.Thrown? then Thrown
      else
        var b := SectionKey(ns);
        if b.Thrown? then Thrown
        else if a == b then Ok(Some(k))
        else FindSectionFrom(merged, ns, k + 1)
  }

  /** `[...v]`: an array gives its elements, a string its characters as
      one-character strings; any other value is not iterable and throws. */
  function Spread(v: Js): (r: Result<seq<Js>>)
    ensures r.Ok? <==> v.Arr? || v.Str?
    ensures v.Arr? ==> r == Ok(v.items)
    ensures v.Str? ==> r.Ok? && |r.value| == |v.s| && forall i :: 0 <= i < |v.s| ==> r.value[i] == Str([v.s[i]])
  {
    if v.Arr? then Ok(v.items)
    else if v.Str? then Ok(seq(|v.s|, i requires 0 <= i < |v.s| => Str([v.s[i]])))
    else Thrown
  }

  /** The texts of a list of strings, joined. */
  function JoinTexts(xs: seq<Js>): string
  {
    if xs == [] then [] else Text(xs[0]) + JoinTexts(xs[1..])
  }

  /** Joining the characters a string spreads into gives the string back. */
  lemma {:induction false} SpreadJoinsBack(s: string)
    ensures JoinTexts(Spread(Str(s)).value) == s
    decreases |s|
  {
    if s != [] {
      var xs := Spread(Str(s)).value;
      SpreadJoinsBack(s[1..]);
      assert xs[1..] == Spread(Str(s[1..])).value;
      assert xs[0] == Str([s[0]]);
      assert s == [s[0]] + s[1..];
    }
  }

  /** `[...a, ...b]` de-duplicated: arrays give their elements, strings
      their characters; any other list throws. */
  function MergePoints(a: Js, b: Js): (r: Result<Js>)
    ensures r.Ok? <==> (a.Arr? || a.Str?) && (b.Arr? || b.Str?)
    ensures r.Ok? ==> r.value == Arr(Dedupe(Spread(a).value + Spread(b).value))
  {
    var x, y := Spread(a), Spread(b);
    if x.Ok? && y.Ok? then Ok(Arr(Dedupe(x.value + y.value))) else Thrown
  }

  /** One new section: its points go into the first section with the same
      title, ignoring case, or it is appended. */
  function NotesStep(merged: seq<Js>, ns: Js): (r: Result<seq<Js>>)
    ensures r.Ok? ==> |merged| <= |r.value| <= |merged| + 1
  {
    var found := FindSectionFrom(merged, ns, 0);
    if found.Thrown? then Thrown
    else if found.value.None? then Ok(merged + [ns])
    else
      var j := found.value.value;
      var sec := merged[j];
      var pts := MergePoints(Get(sec, "points"), Get(ns, "points"));
      if pts.Thrown? || !sec.Obj? then Thrown
      else Ok(merged[j := Put(sec, "points", pts.value)])
  }

  /** The sections after `newNotes.forEach(...)`, from `merged` on. */
  function MergeSections(merged: seq<Js>, news: seq<Js>): (r: Result<seq<Js>>)
    ensures r.Ok? ==> |merged| <= |r.value| <= |merged| + |news|
    decreases |news|
  {
    if news == [] then Ok(merged)
    else
      var prev := MergeSections(merged, news[..|news| - 1]);
      if prev.Thrown? then Thrown else NotesStep(prev.value, news[|news| - 1])
  }

  /** The `forEach` over the new sections, one step per section. */
  method MergeSectionsLoop(olds: seq<Js>, news: seq<Js>) returns (r: Result<seq<Js>>)
    ensures r == MergeSections(olds, news)
  {
    var merged := olds;
    var i := 0;
    while i < |news|
      invariant 0 <= i <= |news|
      invariant MergeSections(olds, news[..i]) == Ok(merged)
    {
      assert news[..i + 1][..i] == news[..i];
      var step := NotesStep(merged, news[i]);
      if step.Thrown? {
        MergeSectionsThrown(olds, news, i + 1);
        return Thrown;
      }
      merged := step.value;
      i := i + 1;
    }
    assert news[..i] == news;
    return Ok(merged);
  }

  /** Once a step throws, the whole `forEach` throws. */
  lemma {:induction false} MergeSectionsThrown(olds: seq<Js>, news: seq<Js>, k: nat)
    requires k <= |news| && MergeSections(olds, news[..k]).Thrown?
    ensures MergeSections(olds, news).Thrown?
    decreases |news| - k
  {
    if k < |news| {
      assert news[..k + 1][..k] == news[..k];
      MergeSectionsThrown(olds, news, k + 1);
    } else {
      assert news[..k] == news;
    }
  }

  /** A new section whose title matches no existing one, ignoring case,
      is appended as it is. */
  lemma UnmatchedSectionAppended(merged: seq<Js>, ns: Js)
    requires SectionKey(ns).Ok?
    requires forall j :: 0 <= j < |merged| ==> SectionKey(merged[j]).Ok? && SectionKey(merged[j]) != SectionKey(ns)
    ensures NotesStep(merged, ns) == Ok(merged + [ns])
  {
  }

  lemma {:induction false} FindSectionAt(merged: seq<Js>, ns: Js, j: nat, k: nat)
    requires k <= j < |merged|
    requires SectionKey(merged[j]).Ok? && SectionKey(merged[j]) == SectionKey(ns)
    requires forall i :: k <= i < j ==> SectionKey(merged[i]).Ok? && SectionKey(merged[i]) != SectionKey(ns)
    ensures FindSectionFrom(merged, ns, k) == Ok(Some(j))
    decreases j - k
  {
    if k < j {
      FindSectionAt(merged, ns, j, k + 1);
    }
  }

  /** A matching new section changes only the first matching section, whose
      points become the union, existing points first and in order. */
  lemma MatchedSectionUnion(merged: seq<Js>, ns: Js, j: nat)
    requires j < |merged| && merged[j].Obj?
    requires SectionKey(merged[j]).Ok? && SectionKey(merged[j]) == SectionKey(ns)
    requires forall i :: 0 <= i < j ==> SectionKey(merged[i]).Ok? && SectionKey(merged[i]) != SectionKey(ns)
    requires Get(merged[j], "points").Arr? && Get(ns, "points").Arr?
    requires NoRepeats(Get(merged[j], "points").items)
    ensures NotesStep(merged, ns).Ok?
    ensures var r := NotesStep(merged, ns).value;
            |r| == |merged| && (forall i :: 0 <= i < |merged| && i != j ==> r[i] == merged[i])
            && Get(r[j], "points").Arr?
            && (var old_ := Get(merged[j], "points").items;
                |old_| <= |Get(r[j], "points").items| && Get(r[j], "points").items[..|old_|] == old_
                && (forall x :: x in Get(r[j], "points").items <==> x in old_ || x in Get(ns, "points").items))
  {
    var a, b := Get(merged[j], "points").items, Get(ns, "points").items;
    FindSectionAt(merged, ns, j, 0);
    PutGet(merged[j], "points", Arr(Dedupe(a + b)), "points");
    UnionKeepsFirst(a, b);
  }

  /** The old side's sections, `[...(the array itself or its notes)]`: a
      string list spreads into its characters, and only a list that is
      neither an array nor a string throws. */
  function NotesList(d: Js, field: string): (r: Result<seq<Js>>)
    ensures d.Arr? ==> r == Ok(d.items)
    ensures !d.Arr? && !Truthy(Get(d, field)) ==> r == Ok([])
    ensures !d.Arr? && Get(d, field).Str? ==> r.Ok? && JoinTexts(r.value) == Get(d, field).s
    ensures !d.Arr? ==> (r.Thrown? <==> Truthy(Get(d, field)) && !Get(d, field).Arr? && !Get(d, field).Str?)
  {
    if d.Arr? then Ok(d.items)
    else
      var v := Or(Get(d, field), Arr([]));
      if v.Str? then SpreadJoinsBack(v.s); Spread(v) else Spread(v)
  }

  /** `mergeNotes(oldData, newData)`: the old sections are spread, the new
      ones iterated with `forEach`, which a string does not have. */
  function MergeNotes(oldData: Js, newData: Js): (r: Result<Js>)
    ensures r.Ok? ==> r.value.Obj? && Keys(r.value) == ["notes"] && Get(r.value, "notes").Arr?
  {
    var olds, news := NotesList(oldData, "notes"), ArrayOr(newData, "notes");
    if olds.Thrown? || news.Thrown? then Thrown
    else
      var m := MergeSections(olds.value, news.value);
      if m.Thrown? then Thrown else Ok(Obj([("notes", Arr(m.value))]))
  }

  /** A string of points merged into an existing section adds its
      characters: `["x"]` and `"ab"` give `["x", "a", "b"]`. */
  lemma StringPointsSpread()
    ensures var sec := Obj([("section", Str("T")), ("points", Arr([Str("x")]))]);
            var ns := Obj([("section", Str("T")), ("points", Str("ab"))]);
            var r := NotesStep([sec], ns);
            r.Ok? && |r.value| == 1 && Get(r.value[0], "points") == Arr([Str("x"), Str("a"), Str("b")])
  {
    var sec := Obj([("section", Str("T")), ("points", Arr([Str("x")]))]);
    var ns := Obj([("section", Str("T")), ("points", Str("ab"))]);
    var pts := [Str("x"), Str("a"), Str("b")];
    assert FindSectionFrom([sec], ns, 0) == Ok(Some(0)) by {
      assert Get(sec, "section") == Str("T") && Get(ns, "section") == Str("T");
    }
    assert Get(sec, "points") == Arr([Str("x")]) && Get(ns, "points") == Str("ab");
    StringPointsUnion();
    var merged := [sec];
    assert merged[0] == sec && sec.Obj?;
    assert merged[0 := Put(sec, "points", Arr(pts))] == [Put(sec, "points", Arr(pts))];
    assert NotesStep(merged, ns) == Ok([Put(sec, "points", Arr(pts))]);
    PutGet(sec, "points", Arr(pts), "points");
  }

  /** `new Set([...["x"], ..."ab"])` holds `"x"`, `"a"` and `"b"`. */
  lemma StringPointsUnion()
    ensures MergePoints(Arr([Str("x")]), Str("ab")) == Ok(Arr([Str("x"), Str("a"), Str("b")]))
  {
    var pts := [Str("x"), Str("a"), Str("b")];
    assert Spread(Str("ab")).value == [Str("a"), Str("b")];
    assert [Str("x")] + [Str("a"), Str("b")] == pts;
    assert NoRepeats(pts);
    DedupeNoRepeats(pts);
  }

  /** An old notes list that is a string is spread into its characters,
      while a new one that is a string throws, having no `forEach`. */
  lemma StringNotesSpread()
    ensures MergeNotes(Obj([("notes", Str("ab"))]), Obj([("notes", Arr([]))]))
            == Ok(Obj([("notes", Arr([Str("a"), Str("b")]))]))
    ensures MergeNotes(Obj([("notes", Arr([]))]), Obj([("notes", Str("ab"))])).Thrown?
  {
    assert Spread(Str("ab")).value == [Str("a"), Str("b")];
  }

  // ----------------------------------------------------------- keyed arrays

  /** `item[key]?.toLowerCase()`: None for a missing key. */
  function ItemKey(item: Js, key: string): (r: Result<Option<string>>)
    ensures r.Thrown? <==> Missing(item) || (!Missing(Get(item, key)) && !Get(item, key).Str?)
    ensures r.Ok? && r.value.Some? ==> Get(item, key).Str? && r.value.value == Lower(Get(item, key).s)
    ensures r.Ok? && r.value.None? ==> Missing(Get(item, key))
  {
    if Missing(item) then Thrown
    else
      var v := Get(item, key);
      if Missing(v) then Ok(None)
      else if v.Str? then Ok(Some(Lower(v.s)))
      else Thrown
  }

  /** A `Map` in insertion order. */
  type Entries = seq<(Option<string>, Js)>

  function KeyList(m: Entries): (r: seq<Option<string>>)
    ensures |r| == |m| && forall i :: 0 <= i < |m| ==> r[i] == m[i].0
  {
    if m == [] then [] else [m[0].0] + KeyList(m[1..])
  }

  /** No key occurs twice. */
  predicate DistinctKeys(m: Entries)
    decreases |m|
  {
    m == [] || (m[0].0 !in KeyList(m[1..]) && DistinctKeys(m[1..]))
  }

  /** `map.get(k)` */
  function MapGet(m: Entries, k: Option<string>): (r: Option<Js>)
    ensures r.None? <==> k !in KeyList(m)
  {
    if m == [] then None
    else if m[0].0 == k then Some(m[0].1)
    else MapGet(m[1..], k)
  }

  /** `map.set(k, v)`: an existing key keeps its place and takes the new
      value; a new key goes last. */
  function MapSet(m: Entries, k: Option<string>, v: Js): (r: Entries)
    ensures |m| <= |r| <= |m| + 1
    ensures MapGet(r, k) == Some(v)
  {
    if m == [] then [(k, v)]
    else if m[0].0 == k then [(k, v)] + m[1..]
    else
      var r := [m[0]] + MapSet(m[1..], k, v);
      assert r[1..] == MapSet(m[1..], k, v);
      r
  }

  /** After a `set` the key holds the new value and every other key keeps
      its value. */
  lemma {:induction false} MapSetGet(m: Entries, k: Option<string>, v: Js, k': Option<string>)
    ensures MapGet(MapSet(m, k, v), k') == if k' == k then Some(v) else MapGet(m, k')
    decreases |m|
  {
    if m != [] && m[0].0 != k {
      var r := MapSet(m, k, v);
      assert r == [m[0]] + MapSet(m[1..], k, v);
      MapSetGet(m[1..], k, v, k');
      assert r[1..] == MapSet(m[1..], k, v);
    }
  }

  /** The key order after a `set`: unchanged for a known key, the new key
      last otherwise. */
  lemma MapSetKeys(m: Entries, k: Option<string>, v: Js)
    ensures KeyList(MapSet(m, k, v)) == if k in KeyList(m) then KeyList(m) else KeyList(m) + [k]
  {
    if k in KeyList(m) {
      MapSetKnownKey(m, k, v);
    } else {
      MapSetNewKey(m, k, v);
    }
  }

  lemma {:induction false} MapSetKnownKey(m: Entries, k: Option<string>, v: Js)
    requires k in KeyList(m)
    ensures KeyList(MapSet(m, k, v)) == KeyList(m)
    decreases |m|
  {
    assert m == [m[0]] + m[1..];
    KeyListCons(m[0], m[1..]);
    if m[0].0 != k {
      var rest := MapSet(m[1..], k, v);
      assert MapSet(m, k, v) == [m[0]] + rest;
      MapSetKnownKey(m[1..], k, v);
      KeyListCons(m[0], rest);
    } else {
      assert MapSet(m, k, v) == [(k, v)] + m[1..];
      KeyListCons((k, v), m[1..]);
    }
  }

  lemma {:induction false} MapSetNewKey(m: Entries, k: Option<string>, v: Js)
    requires k !in KeyList(m)
    ensures KeyList(MapSet(m, k, v)) == KeyList(m) + [k]
    decreases |m|
  {
    if m != [] {
      assert m == [m[0]] + m[1..];
      KeyListCons(m[0], m[1..]);
      var rest := MapSet(m[1..], k, v);
      assert MapSet(m, k, v) == [m[0]] + rest;
      MapSetNewKey(m[1..], k, v);
      KeyListCons(m[0], rest);
      assert [m[0].0] + (KeyList(m[1..]) + [k]) == KeyList(m) + [k];
    }
  }

  /** The keys of an entry put in front. */
  lemma KeyListCons(e: (Option<string>, Js), m: Entries)
    ensures KeyList([e] + m) == [e.0] + KeyList(m)
  {
    assert ([e] + m)[1..] == m;
  }

  /** A `set` never makes a key occur twice. */
  lemma {:induction false} MapSetDistinct(m: Entries, k: Option<string>, v: Js)
    requires DistinctKeys(m)
    ensures DistinctKeys(MapSet(m, k, v))
    decreases |m|
  {
    if m != [] {
      var r := MapSet(m, k, v);
      if m[0].0 != k {
        var rest := MapSet(m[1..], k, v);
        MapSetDistinct(m[1..], k, v);
        MapSetKeys(m[1..], k, v);
        assert r[1..] == rest;
      } else {
        assert r[1..] == m[1..];
      }
    }
  }

  /** The map after `items.forEach(item => map.set(item[key]?.toLowerCase(), item))`. */
  function Fill(m: Entries, items: seq<Js>, key: string): (r: Result<Entries>)
    ensures r.Ok? <==> forall i :: 0 <= i < |items| ==> ItemKey(items[i], key).Ok?
    decreases |items|
  {
    if items == [] then Ok(m)
    else
      var p, last := items[..|items| - 1], items[|items| - 1];
      assert items == p + [last];
      var prev := Fill(m, p, key);
      var k := ItemKey(last, key);
      if prev.Thrown? then Thrown
      else if k.Thrown? then Thrown
      else Ok(MapSet(prev.value, k.value, last))
  }

  /** Filling adds at most one entry per item, and at least one when
      there are items. */
  lemma {:induction false} FillSize(m: Entries, items: seq<Js>, key: string)
    requires Fill(m, items, key).Ok?
    ensures var r := Fill(m, items, key).value;
            |m| <= |r| <= |m| + |items| && (items != [] ==> r != [])
    decreases |items|
  {
    if items != [] {
      FillSize(m, items[..|items| - 1], key);
    }
  }

  /** The last item of `items` whose key is `k`. */
  function LastWithKey(items: seq<Js>, key: string, k: Option<string>): Option<Js>
    decreases |items|
  {
    if items == [] then None
    else if ItemKey(items[|items| - 1], key) == Ok(k) then Some(items[|items| - 1])
    else LastWithKey(items[..|items| - 1], key, k)
  }

  /** After filling, a key holds the last item with that key, or what it
      held before when no item has it. */
  lemma {:induction false} FillLaterWins(m: Entries, items: seq<Js>, key: string, k: Option<string>)
    requires Fill(m, items, key).Ok?
    ensures MapGet(Fill(m, items, key).value, k) ==
            if LastWithKey(items, key, k).Some? then LastWithKey(items, key, k) else MapGet(m, k)
    ensures DistinctKeys(m) ==> DistinctKeys(Fill(m, items, key).value)
    decreases |items|
  {
    if items != [] {
      var p := items[..|items| - 1];
      assert Fill(m, p, key).Ok?;
      FillLaterWins(m, p, key, k);
      MapSetGet(Fill(m, p, key).value, ItemKey(items[|items| - 1], key).value, items[|items| - 1], k);
      if DistinctKeys(m) {
        MapSetDistinct(Fill(m, p, key).value, ItemKey(items[|items| - 1], key).value, items[|items| - 1]);
      }
    }
  }

  /** `Array.from(map.values())` */
  function Values(m: Entries): (r: seq<Js>)
    ensures |r| == |m| && forall i :: 0 <= i < |m| ==> r[i] == m[i].1
  {
    seq(|m|, i requires 0 <= i < |m| => m[i].1)
  }

  /** `mergeKeyedArray(oldArr, newArr, key)` */
  function MergeKeyed(oldArr: seq<Js>, newArr: seq<Js>, key: string): (r: Result<seq<Js>>)
    ensures r.Thrown? <==> (exists i :: 0 <= i < |oldArr| && ItemKey(oldArr[i], key).Thrown?)
                           || (exists i :: 0 <= i < |newArr| && ItemKey(newArr[i], key).Thrown?)
    ensures r.Ok? ==> |r.value| <= |oldArr| + |newArr|
    ensures r.Ok? && (oldArr != [] || newArr != []) ==> r.value != []
  {
    var a := Fill([], oldArr, key);
    if a.Thrown? then Thrown
    else
      var b := Fill(a.value, newArr, key);
      if b.Thrown? then Thrown
      else
        FillSize([], oldArr, key);
        FillSize(a.value, newArr, key);
        Ok(Values(b.value))
  }

  /** The merged list has one item per lower-cased key, items without the
      key collapsing into one, and each key's item is the last one given
      for it, new items after old. */
  lemma MergeKeyedProperties(oldArr: seq<Js>, newArr: seq<Js>, key: string, k: Option<string>)
    requires MergeKeyed(oldArr, newArr, key).Ok?
    ensures var a := Fill([], oldArr, key).value;
            var b := Fill(a, newArr, key).value;
            DistinctKeys(b)
            && MapGet(b, k) == if LastWithKey(newArr, key, k).Some? then LastWithKey(newArr, key, k) else LastWithKey(oldArr, key, k)
  {
    var a := Fill([], oldArr, key).value;
    FillLaterWins([], oldArr, key, k);
    FillLaterWins(a, newArr, key, k);
  }

  /** The same, written as the two `forEach` loops over a `Map`. */
  method MergeKeyedArray(oldArr: seq<Js>, newArr: seq<Js>, key: string) returns (r: Result<seq<Js>>)
    ensures r == MergeKeyed(oldArr, newArr, key)
  {
    var m: Entries := [];
    var i := 0;
    while i < |oldArr|
      invariant 0 <= i <= |oldArr|
      invariant Fill([], oldArr[..i], key) == Ok(m)
    {
      var k := ItemKey(oldArr[i], key);
      assert oldArr[..i + 1][..i] == oldArr[..i];
      if k.Thrown? {
        assert Fill([], oldArr[..i + 1], key).Thrown?;
        FillThrowsOn([], oldArr, i + 1, key);
        return Thrown;
      }
      m := MapSet(m, k.value, oldArr[i]);
      i := i + 1;
    }
    assert oldArr[..i] == oldArr;
    var a := m;
    i := 0;
    while i < |newArr|
      invariant 0 <= i <= |newArr|
      invariant Fill(a, newArr[..i], key) == Ok(m)
    {
      var k := ItemKey(newArr[i], key);
      assert newArr[..i + 1][..i] == newArr[..i];
      if k.Thrown? {
        assert Fill(a, newArr[..i + 1], key).Thrown?;
        FillThrowsOn(a, newArr, i + 1, key);
        return Thrown;
      }
      m := MapSet(m, k.value, newArr[i]);
      i := i + 1;
    }
    assert newArr[..i] == newArr;
    r := Ok(Values(m));
  }

  /** A fill that throws on a prefix throws on the whole list. */
  lemma FillThrowsOn(m: Entries, items: seq<Js>, n: nat, key: string)
    requires n <= |items| && Fill(m, items[..n], key).Thrown?
    ensures Fill(m, items, key).Thrown?
  {
    var i :| 0 <= i < n && ItemKey(items[..n][i], key).Thrown?;
    assert items[..n][i] == items[i];
  }

  /** An array, or the `field` list of an object (`[]` when falsy), as
      `forEach` walks it: a list that is not an array throws. */
  function ArrayOr(d: Js, field: string): (r: Result<seq<Js>>)
    ensures d.Arr? ==> r == Ok(d.items)
    ensures !d.Arr? && !Truthy(Get(d, field)) ==> r == Ok([])
    ensures !d.Arr? ==> (r.Thrown? <==> Truthy(Get(d, field)) && !Get(d, field).Arr?)
  {
    if d.Arr? then Ok(d.items)
    else
      var v := Or(Get(d, field), Arr([]));
      if v.Arr? then Ok(v.items) else Thrown
  }

  /** `mergeInsights`, `mergeFlashcards`, `mergeQuiz`: the list under
      `field` of each side, merged by `key`, under `field` again. */
  function MergeByKey(oldData: Js, newData: Js, field: string, key: string): (r: Result<Js>)
    ensures r.Ok? ==> r.value.Obj? && Keys(r.value) == [field]
  {
    var a, b := ArrayOr(oldData, field), ArrayOr(newData, field);
    if a.Thrown? || b.Thrown? then Thrown
    else
      var m := MergeKeyed(a.value, b.value, key);
      if m.Thrown? then Thrown else Ok(Obj([(field, Arr(m.value))]))
  }

  /** `mergeContent(oldData, newData, type)`: a falsy side yields the
      other, unknown types keep the new data, notes merge by section,
      insights by title, flashcards by question, and a quiz reads and writes
      `questions`. The ensures name the branch taken; what each branch
      computes is stated by its callee's own contract and lemmas
      (`MergeSummary`, `MatchedSectionUnion`, `UnmatchedSectionAppended`,
      `MergeKeyedProperties`). */
  function MergeContent(oldData: Js, newData: Js, kind: string): (r: Result<Js>)
    ensures !Truthy(oldData) ==> r == Ok(newData)
    ensures Truthy(oldData) && !Truthy(newData) ==> r == Ok(oldData)
    ensures Truthy(oldData) && Truthy(newData) && kind !in {"summary", "notes", "insights", "flashcards", "quiz"} ==> r == Ok(newData)
    ensures Truthy(oldData) && Truthy(newData) && kind == "summary" ==> r == Ok(MergeSummary(oldData, newData))
    ensures Truthy(oldData) && Truthy(newData) && kind == "notes" ==> r == MergeNotes(oldData, newData)
    ensures Truthy(oldData) && Truthy(newData) && kind == "insights" ==> r == MergeByKey(oldData, newData, "insights", "title")
    ensures Truthy(oldData) && Truthy(newData) && kind == "flashcards" ==> r == MergeByKey(oldData, newData, "flashcards", "question")
    ensures Truthy(oldData) && Truthy(newData) && kind == "quiz" ==> r == MergeByKey(oldData, newData, "questions", "question")
  {
    if !Truthy(oldData) then Ok(newData)
    else if !Truthy(newData) then Ok(oldData)
    else if kind == "summary" then Ok(MergeSummary(oldData, newData))
    else if kind == "notes" then MergeNotes(oldData, newData)
    else if kind == "insights" then MergeByKey(oldData, newData, "insights", "title")
    else if kind == "flashcards" then MergeByKey(oldData, newData, "flashcards", "question")
    else if kind == "quiz" then MergeByKey(oldData, newData, "questions", "question")
    else Ok(newData)
  }
}
