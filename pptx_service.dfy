/** Reading the slides of a PowerPoint file: first in the order the
    presentation part lists them, through its relationships; when that
    gives nothing, every `slides/slideN.xml` file in the order of `N`. The
    archive is given already opened: its file names in archive order and,
    for each, the element tree the XML reader makes of it (`None` for a text
    the reader rejects). The error log is left out. */
module PptxService {
  import opened Common
  import opened StableSorting
  import opened PptxSlide

  // ------------------------------------------------------------ names

  /** `stripPrefix(name)`: the part after the last `:`. */
  function StripPrefix(name: string): (r: string)
    ensures ':' !in r
  {
    var parts := Split(name, ':');
    SplitJoin(name, ':');
    parts[|parts| - 1]
  }

  /** A name without a prefix is kept. */
  lemma StripPrefixPlain(name: string)
    requires ':' !in name
    ensures StripPrefix(name) == name
  {
    SplitWithoutSeparator(name, ':');
  }

  /** A prefixed name loses its prefix, however many colons it holds. */
  lemma StripPrefixQualified(prefix: string, local: string)
    requires ':' !in local
    ensures StripPrefix(prefix + ":" + local) == local
  {
    SplitLastPiece(prefix, local, ':');
  }

  /** The last piece after a separator is what follows the last separator. */
  lemma {:induction false} SplitLastPiece(a: string, b: string, c: char)
    requires c !in b
    ensures var parts := Split(a + [c] + b, c);
            |parts| >= 2 && parts[|parts| - 1] == b
    decreases |a|
  {
    var s := a + [c] + b;
    if a == [] {
      assert s == [c] + b && s[1..] == b;
      SplitWithoutSeparator(b, c);
    } else {
      assert s[1..] == a[1..] + [c] + b;
      SplitLastPiece(a[1..], b, c);
    }
  }

  /** The path of a slide from its relationship target: an absolute target
      loses its `/`, a relative one is taken under `ppt/`, and a path not
      under `ppt/` then is put there. */
  function SlidePath(target: string): (r: string)
    ensures StartsWith(r, "ppt/")
  {
    var slidePath := if StartsWith(target, "/") then target[1..] else "ppt/" + target;
    if StartsWith(slidePath, "ppt/") then slidePath else "ppt/" + slidePath
  }

  /** `/ppt/slides/slide1.xml` is `ppt/slides/slide1.xml`. */
  lemma SlidePathAbsolute(p: string)
    requires StartsWith(p, "ppt/")
    ensures SlidePath("/" + p) == p
  {
    assert ("/" + p)[1..] == p;
  }

  /** An absolute target outside `ppt/` is moved under it. */
  lemma SlidePathAbsoluteOutside(p: string)
    requires !StartsWith(p, "ppt/")
    ensures SlidePath("/" + p) == "ppt/" + p
  {
    assert ("/" + p)[1..] == p;
  }

  /** `slides/slide1.xml` is `ppt/slides/slide1.xml`. */
  lemma SlidePathRelative(t: string)
    requires !StartsWith(t, "/")
    ensures SlidePath(t) == "ppt/" + t
  {
  }

  // ------------------------------------------------------------ the archive

  /** The archive: file names in archive order, and what each file reads as. */
  datatype Zip = Zip(names: seq<string>, entries: map<string, Option<Element>>)

  /** The names are exactly the files. */
  ghost predicate ValidZip(z: Zip)
  {
    forall n :: n in z.names <==> n in z.entries
  }

  const PresentationPath := "ppt/" + "presentation.xml"
  const RelsPath := "ppt/" + "_rels/" + "presentation.xml.rels"

  /** The tag names the presentation's slide list is looked up by, and the
      attribute naming a slide's relationship. */
  datatype ListNames = ListNames(list: string, entry: string, relId: string)

  /** The names the code uses: `slideIdLst`, `slideId` and `$['id']`. */
  const WrittenNames := ListNames("slideIdLst", "slideId", "id")

  /** The names PresentationML gives them: `sldIdLst`, `sldId`, and the
      relationship id in `r:id` (the presentation's attribute names keep
      their prefix, only its tag names are stripped). */
  const StandardNames := ListNames("sldIdLst", "sldId", "r:id")

  /** `presentation?.presentation?.<list>?.[0]?.<entry> || []` */
  function SlideIdList(pres: Element, names: ListNames): (r: seq<Element>)
    ensures pres.tag != "presentation" ==> r == []
    ensures forall e :: e in r ==>
              e.tag == names.entry && exists l :: l in pres.children && l.tag == names.list && e in l.children
  {
    if pres.tag != "presentation" then []
    else
      var l := Children(pres, names.list);
      if l == [] then []
      else
        ChildrenMembers(pres, names.list);
        ChildrenMembers(l[0], names.entry);
        assert l[0] in l;
        Children(l[0], names.entry)
  }

  /** `rels.Relationships?.Relationship || []` */
  function Relationships(rels: Element): (r: seq<Element>)
    ensures rels.tag != "Relationships" ==> r == []
    ensures rels.tag == "Relationships" ==>
              forall e :: e in r <==> e in rels.children && e.tag == "Relationship"
  {
    if rels.tag != "Relationships" then []
    else
      ChildrenMembers(rels, "Relationship");
      Children(rels, "Relationship")
  }

  /** An attribute used as an object key: a missing one is the key
      `"undefined"`. */
  function AttrKey(e: Element, name: string): string
  {
    if name in e.attrs then e.attrs[name] else "undefined"
  }

  /** `relMap[rel.$.Id] = rel.$.Target` for each relationship in turn: a
      later one wins, a missing target is stored as absent, and a
      relationship without attributes throws. */
  function RelMapOf(rels: seq<Element>): (r: Result<map<string, Option<string>>>)
    ensures r.Thrown? <==> exists i :: 0 <= i < |rels| && |rels[i].attrs| == 0
    ensures r.Ok? ==> forall i :: 0 <= i < |rels| ==> AttrKey(rels[i], "Id") in r.value
    decreases |rels|
  {
    if rels == [] then Ok(map[])
    else
      var init, rel := rels[..|rels| - 1], rels[|rels| - 1];
      assert forall i :: 0 <= i < |init| ==> init[i] == rels[i];
      match RelMapOf(init)
      case Thrown => Thrown
      case Ok(m) =>
        if |rel.attrs| == 0 then Thrown
        else Ok(m[AttrKey(rel, "Id") := if "Target" in rel.attrs then Some(rel.attrs["Target"]) else None])
  }

  /** `relMap[rId]`: absent when the key was never set. */
  function Target(m: map<string, Option<string>>, key: string): Option<string>
  {
    if key in m then m[key] else None
  }

  /** The slides read so far by the presentation pass, and whether it
      stopped on an error. */
  datatype Pass = Pass(slides: seq<Slide>, failed: bool)

  /** The path a slide-list entry leads to: none when its target is missing
      or empty (`if (!target) continue`). */
  function EntryPath(entry: Element, m: map<string, Option<string>>, names: ListNames): Option<string>
    requires |entry.attrs| > 0
  {
    var target := Target(m, AttrKey(entry, names.relId));
    if target.None? || target.value == "" then None else Some(SlidePath(target.value))
  }

  /** One entry of the slide list: an entry without attributes throws; an
      entry leading to a file of the archive adds its slide, or throws when
      the slide cannot be read. */
  function PassStep(acc: Pass, entry: Element, m: map<string, Option<string>>, zip: Zip, names: ListNames): Pass
  {
    if acc.failed then acc
    else if |entry.attrs| == 0 then Pass(acc.slides, true)
    else
      var path := EntryPath(entry, m, names);
      if path.None? || path.value !in zip.entries then acc
      else
        match SlideOf(zip.entries[path.value])
        case Thrown => Pass(acc.slides, true)
        case Ok(s) => Pass(acc.slides + [s], false)
  }

  /** The pass over the slide list. */
  function PrimaryPass(entries: seq<Element>, m: map<string, Option<string>>, zip: Zip, names: ListNames): Pass
    decreases |entries|
  {
    if entries == [] then Pass([], false)
    else PassStep(PrimaryPass(entries[..|entries| - 1], m, zip, names), entries[|entries| - 1], m, zip, names)
  }

  /** The pass reads at most one slide per entry, each with a title. */
  lemma {:induction false} PassBounded(entries: seq<Element>, m: map<string, Option<string>>, zip: Zip, names: ListNames)
    ensures var p := PrimaryPass(entries, m, zip, names);
            |p.slides| <= |entries| && forall s :: s in p.slides ==> s.title != ""
    decreases |entries|
  {
    if entries != [] {
      PassBounded(entries[..|entries| - 1], m, zip, names);
    }
  }

  /** The slides in presentation order: none when the presentation or its
      relationships cannot be read (the error is caught), the slides read
      before an error otherwise. */
  function Primary(zip: Zip, names: ListNames): (r: seq<Slide>)
    ensures PresentationPath !in zip.entries || zip.entries[PresentationPath].None? ==> r == []
    ensures RelsPath !in zip.entries || zip.entries[RelsPath].None? ==> r == []
    ensures PresentationPath in zip.entries && zip.entries[PresentationPath].Some? ==>
              |r| <= |SlideIdList(zip.entries[PresentationPath].value, names)|
    ensures forall s :: s in r ==> s.title != ""
  {
    if PresentationPath !in zip.entries || zip.entries[PresentationPath].None? then []
    else
      var list := SlideIdList(zip.entries[PresentationPath].value, names);
      if RelsPath !in zip.entries || zip.entries[RelsPath].None? then []
      else
        match RelMapOf(Relationships(zip.entries[RelsPath].value))
        case Thrown => []
        case Ok(m) =>
          PassBounded(list, m, zip, names);
          PrimaryPass(list, m, zip, names).slides
  }

  // ------------------------------------------------------------ fallback

  /** How many digits follow position `j`. */
  function DigitRun(s: string, j: nat): (k: nat)
    requires j <= |s|
    ensures j + k <= |s| && (j + k == |s| || !IsDigit(s[j + k]))
    ensures forall i :: j <= i < j + k ==> IsDigit(s[i])
    decreases |s| - j
  {
    if j < |s| && IsDigit(s[j]) then 1 + DigitRun(s, j + 1) else 0
  }

  /** `p`, then one or more digits, then `.xml`, at position `i`. A shorter
      run of digits cannot be followed by `.`, so the greedy run is the
      only one to try. */
  predicate MatchAt(s: string, p: string, i: nat)
  {
    OccursAt(s, p, i) && var k := DigitRun(s, i + |p|); k > 0 && OccursAt(s, ".xml", i + |p| + k)
  }

  /** The first position at or after `from` where the pattern matches. */
  function FirstMatch(s: string, p: string, from: nat): (r: Option<nat>)
    ensures r.Some? ==> from <= r.value <= |s| && MatchAt(s, p, r.value)
                        && forall i :: from <= i < r.value ==> !MatchAt(s, p, i)
    ensures r.None? ==> forall i :: from <= i <= |s| ==> !MatchAt(s, p, i)
    decreases |s| + 1 - from
  {
    if from > |s| then None
    else if MatchAt(s, p, from) then Some(from)
    else FirstMatch(s, p, from + 1)
  }

  /** `/ppt\/slides\/slide\d+\.xml/` or `/slides\/slide\d+\.xml/`, anywhere
      in the name. */
  predicate IsSlideFile(name: string)
  {
    FirstMatch(name, "ppt/slides/slide", 0).Some? || FirstMatch(name, "slides/slide", 0).Some?
  }

  /** The first pattern adds nothing to the second. */
  lemma SlideFilePattern(name: string)
    ensures IsSlideFile(name) <==> FirstMatch(name, "slides/slide", 0).Some?
  {
    var m := FirstMatch(name, "ppt/slides/slide", 0);
    if m.Some? {
      ShorterPatternMatches(name, m.value);
    }
  }

  /** Where `ppt/slides/slide` matches, `slides/slide` matches four
      characters on. */
  lemma ShorterPatternMatches(name: string, i: nat)
    requires MatchAt(name, "ppt/slides/slide", i)
    ensures i + 4 <= |name| && MatchAt(name, "slides/slide", i + 4)
  {
    assert name[i..i + 16] == "ppt/slides/slide";
    assert name[i + 4..i + 16] == name[i..i + 16][4..];
    assert OccursAt(name, "slides/slide", i + 4);
  }

  /** The numeric value of a run of digits, as `parseInt` reads it. */
  function DigitsValue(ds: string): nat
    requires forall i :: 0 <= i < |ds| ==> IsDigit(ds[i])
    decreases |ds|
  {
    if ds == [] then 0
    else DigitsValue(ds[..|ds| - 1]) * 10 + DigitValue(ds[|ds| - 1])
  }

  /** The value of one digit. */
  function DigitValue(c: char): (d: nat)
    requires IsDigit(c)
    ensures d < 10
  {
    c as int - '0' as int
  }

  /** The number in a file name: the digits of the first `slide\d+\.xml`,
      0 when there is none. */
  function SlideNumber(name: string): nat
  {
    match FirstMatch(name, "slide", 0)
    case None => 0
    case Some(i) => DigitsValue(name[i + 5..i + 5 + DigitRun(name, i + 5)])
  }

  /** The sort key of a file name. */
  function SlideKey(name: string): real
  {
    SlideNumber(name) as real
  }

  /** The names the fallback keeps, in archive order. */
  function SlideFiles(names: seq<string>): (r: seq<string>)
    ensures forall n :: n in r <==> n in names && IsSlideFile(n)
    decreases |names|
  {
    if names == [] then []
    else
      var last := names[|names| - 1];
      assert names == names[..|names| - 1] + [last];
      SlideFiles(names[..|names| - 1]) + (if IsSlideFile(last) then [last] else [])
  }

  /** The fallback's files, ordered by their number; files with the same
      number keep their archive order. */
  function FallbackNames(zip: Zip): (r: seq<string>)
    ensures ValidZip(zip) ==> forall n :: n in r ==> n in zip.entries && IsSlideFile(n)
  {
    var r := StableSort(SlideFiles(zip.names), SlideKey);
    assert forall n :: n in r ==> n in multiset(SlideFiles(zip.names));
    r
  }

  /** Each file read in turn; the first that cannot be read makes the whole
      reading throw. */
  function ParseAll(files: seq<string>, zip: Zip): (r: Result<seq<Slide>>)
    requires forall n :: n in files ==> n in zip.entries
    ensures r.Ok? ==> |r.value| == |files|
    decreases |files|
  {
    if files == [] then Ok([])
    else
      var init := files[..|files| - 1];
      assert forall n :: n in init ==> n in files;
      match ParseAll(init, zip)
      case Thrown => Thrown
      case Ok(ss) =>
        match SlideOf(zip.entries[files[|files| - 1]])
        case Thrown => Thrown
        case Ok(s) => Ok(ss + [s])
  }

  /** `extractSlides(buffer)`: the presentation's slides, or when there are
      none, the slide files by number. */
  function Extracted(zip: Zip, names: ListNames): Result<seq<Slide>>
    requires ValidZip(zip)
  {
    var p := Primary(zip, names);
    if p != [] then Ok(p) else ParseAll(FallbackNames(zip), zip)
  }

  // ------------------------------------------------------------ the loops

  /** The `forEach` over the relationships. */
  method BuildRelMap(rels: seq<Element>) returns (r: Result<map<string, Option<string>>>)
    ensures r == RelMapOf(rels)
  {
    var m: map<string, Option<string>> := map[];
    for i := 0 to |rels|
      invariant RelMapOf(rels[..i]) == Ok(m)
    {
      assert rels[..i + 1][..i] == rels[..i];
      var rel := rels[i];
      if |rel.attrs| == 0 {
        RelMapThrownStays(rels, i + 1);
        return Thrown;
      }
      m := m[AttrKey(rel, "Id") := if "Target" in rel.attrs then Some(rel.attrs["Target"]) else None];
    }
    assert rels[..|rels|] == rels;
    r := Ok(m);
  }

  /** Once a relationship has thrown, the map is never built. */
  lemma RelMapThrownStays(rels: seq<Element>, n: nat)
    requires n <= |rels| && RelMapOf(rels[..n]).Thrown?
    ensures RelMapOf(rels).Thrown?
  {
    var i :| 0 <= i < n && |rels[..n][i].attrs| == 0;
    assert rels[i] == rels[..n][i];
  }

  /** The loop over the slide list, stopping at the first error. */
  method ReadListed(entries: seq<Element>, m: map<string, Option<string>>, zip: Zip, names: ListNames)
    returns (slides: seq<Slide>)
    ensures slides == PrimaryPass(entries, m, zip, names).slides
  {
    slides := [];
    var i := 0;
    while i < |entries|
      invariant 0 <= i <= |entries|
      invariant PrimaryPass(entries[..i], m, zip, names) == Pass(slides, false)
    {
      PassUnfold(entries, i, m, zip, names);
      var entry := entries[i];
      if |entry.attrs| == 0 {
        FailedPassStays(entries, i + 1, m, zip, names);
        return;
      }
      var target := Target(m, AttrKey(entry, names.relId));
      if target.Some? && target.value != "" {
        var path := SlidePath(target.value);
        if path in zip.entries {
          var s := ParseSlide(zip.entries[path]);
          if s.Thrown? {
            FailedPassStays(entries, i + 1, m, zip, names);
            return;
          }
          slides := slides + [s.value];
        }
      }
      i := i + 1;
    }
    assert entries[..i] == entries;
  }

  /** One more entry is one more step of the pass. */
  lemma PassUnfold(entries: seq<Element>, i: nat, m: map<string, Option<string>>, zip: Zip, names: ListNames)
    requires i < |entries|
    ensures PrimaryPass(entries[..i + 1], m, zip, names)
            == PassStep(PrimaryPass(entries[..i], m, zip, names), entries[i], m, zip, names)
  {
    assert entries[..i + 1][..i] == entries[..i];
  }

  /** Once the pass has stopped, later entries add nothing. */
  lemma {:induction false} FailedPassStays(entries: seq<Element>, n: nat, m: map<string, Option<string>>, zip: Zip, names: ListNames)
    requires n <= |entries| && PrimaryPass(entries[..n], m, zip, names).failed
    ensures PrimaryPass(entries, m, zip, names) == PrimaryPass(entries[..n], m, zip, names)
    decreases |entries| - n
  {
    if n == |entries| {
      assert entries[..n] == entries;
    } else {
      assert entries[..n + 1][..n] == entries[..n];
      FailedPassStays(entries, n + 1, m, zip, names);
    }
  }

  /** The `try` block: the presentation pass. */
  method ReadPresentation(zip: Zip, names: ListNames) returns (slides: seq<Slide>)
    ensures slides == Primary(zip, names)
  {
    slides := [];
    if PresentationPath !in zip.entries || zip.entries[PresentationPath].None? {
      return;
    }
    var list := SlideIdList(zip.entries[PresentationPath].value, names);
    if RelsPath in zip.entries {
      if zip.entries[RelsPath].None? {
        return;
      }
      var m := BuildRelMap(Relationships(zip.entries[RelsPath].value));
      if m.Thrown? {
        return;
      }
      slides := ReadListed(list, m.value, zip, names);
    }
  }

  /** `extractSlides(buffer)` */
  method ExtractSlides(zip: Zip, names: ListNames) returns (r: Result<seq<Slide>>)
    requires ValidZip(zip)
    ensures r == Extracted(zip, names)
  {
    var slides := ReadPresentation(zip, names);
    if slides != [] {
      return Ok(slides);
    }
    r := ReadFiles(FallbackNames(zip), zip);
  }

  /** The fallback's loop over the slide files. */
  method ReadFiles(files: seq<string>, zip: Zip) returns (r: Result<seq<Slide>>)
    requires forall f :: f in files ==> f in zip.entries
    ensures r == ParseAll(files, zip)
  {
    var slides := [];
    for i := 0 to |files|
      invariant ParseAll(files[..i], zip) == Ok(slides)
    {
      assert files[..i + 1][..i] == files[..i];
      var s := ParseSlide(zip.entries[files[i]]);
      if s.Thrown? {
        ParseAllThrownStays(files, i + 1, zip);
        return Thrown;
      }
      slides := slides + [s.value];
    }
    assert files[..|files|] == files;
    r := Ok(slides);
  }

  /** Once a file cannot be read, the whole reading throws. */
  lemma {:induction false} ParseAllThrownStays(files: seq<string>, n: nat, zip: Zip)
    requires forall f :: f in files ==> f in zip.entries
    requires n <= |files| && ParseAll(files[..n], zip).Thrown?
    ensures ParseAll(files, zip).Thrown?
    decreases |files| - n
  {
    if n == |files| {
      assert files[..n] == files;
    } else {
      assert files[..n + 1][..n] == files[..n];
      ParseAllThrownStays(files, n + 1, zip);
    }
  }

  // ------------------------------------------------------------ properties

  /** The files are only scanned when the presentation pass read nothing. */
  lemma FallbackOnlyWhenEmpty(zip: Zip, names: ListNames)
    requires ValidZip(zip)
    ensures Primary(zip, names) != [] ==> Extracted(zip, names) == Ok(Primary(zip, names))
    ensures Primary(zip, names) == [] ==> Extracted(zip, names) == ParseAll(FallbackNames(zip), zip)
  {
  }

  /** Each character of a decimal rendering stands for its digit. */
  lemma DigitCharValue(d: nat)
    requires d < 10
    ensures DigitValue(DigitChar(d)) == d
  {
    if d == 0 {} else if d == 1 {} else if d == 2 {} else if d == 3 {} else if d == 4 {}
    else if d == 5 {} else if d == 6 {} else if d == 7 {} else if d == 8 {} else {}
  }

  /** Reading a rendered number gives the number back. */
  lemma {:induction false} DigitsValueOfNat(n: nat)
    ensures DigitsValue(NatToString(n)) == n
    decreases n
  {
    var s := NatToString(n);
    if n < 10 {
      DigitCharValue(n);
      assert s[..0] == [];
    } else {
      DigitsValueOfNat(n / 10);
      DigitCharValue(n % 10);
      assert s[..|s| - 1] == NatToString(n / 10);
    }
  }

  /** A run of digits followed by a non-digit is counted exactly. */
  lemma {:induction false} DigitRunOf(s: string, j: nat, k: nat)
    requires j + k <= |s| && (forall i :: j <= i < j + k ==> IsDigit(s[i]))
    requires j + k == |s| || !IsDigit(s[j + k])
    ensures DigitRun(s, j) == k
    decreases k
  {
    if k > 0 {
      DigitRunOf(s, j + 1, k - 1);
    }
  }

  /** The file of slide `n` is a slide file, numbered `n`. */
  lemma SlideFileNumber(n: nat)
    ensures var name := "ppt/slides/slide" + NatToString(n) + ".xml";
            IsSlideFile(name) && SlideNumber(name) == n
  {
    var pre, ds := "ppt/slides/slide", NatToString(n);
    var name := pre + ds + ".xml";
    assert name[..16] == pre;
    NumberedNameMatches(pre, ds);
    NoEarlierSlideWord(name);
    FirstMatchAt(name, "slide", 0, 11);
    DigitsValueOfNat(n);
  }

  /** The parts of a numbered slide file name, as the patterns see them. */
  lemma NumberedNameMatches(pre: string, ds: string)
    requires pre == "ppt/slides/slide"
    requires ds != [] && forall i :: 0 <= i < |ds| ==> IsDigit(ds[i])
    ensures var name := pre + ds + ".xml";
            && MatchAt(name, "slide", 11) && MatchAt(name, "slides/slide", 4)
            && DigitRun(name, 16) == |ds| && name[16..16 + |ds|] == ds
  {
    var name := pre + ds + ".xml";
    assert forall i :: 0 <= i < |ds| ==> name[16 + i] == ds[i];
    assert name[16 + |ds|..] == ".xml";
    DigitRunOf(name, 16, |ds|);
    assert name[11..16] == pre[11..16] == "slide";
    assert name[4..16] == pre[4..16] == "slides/slide";
    assert name[16..16 + |ds|] == ds;
  }

  /** Before the file part, `slide` only occurs in `slides/`, which no digit
      follows. */
  lemma NoEarlierSlideWord(name: string)
    requires |name| >= 16 && name[..16] == "ppt/slides/slide"
    ensures forall i :: 0 <= i < 11 ==> !MatchAt(name, "slide", i)
  {
    forall i | 0 <= i < 11
      ensures !MatchAt(name, "slide", i)
    {
      assert name[i] == name[..16][i] && name[i + 1] == name[..16][i + 1];
      if i == 4 {
        assert !IsDigit(name[9]) by {
          assert name[9] == name[..16][9];
        }
        assert DigitRun(name, 9) == 0;
      } else {
        SlideWordAt(name[..16], i);
        assert name[i..i + 5][0] == name[i] && name[i..i + 5][1] == name[i + 1];
      }
    }
  }

  /** In `ppt/slides/slide`, an `s` followed by `l` starts at 4 or 11 only. */
  lemma SlideWordAt(pre: string, i: nat)
    requires pre == "ppt/slides/slide" && i < 11 && i != 4
    ensures !(pre[i] == 's' && pre[i + 1] == 'l')
  {
  }

  /** The first match is the first position that matches. */
  lemma {:induction false} FirstMatchAt(s: string, p: string, from: nat, j: nat)
    requires from <= j <= |s| && MatchAt(s, p, j)
    requires forall i :: from <= i < j ==> !MatchAt(s, p, i)
    ensures FirstMatch(s, p, from) == Some(j)
    decreases j - from
  {
    if from < j {
      FirstMatchAt(s, p, from + 1, j);
    }
  }

  /** In the fallback, a file with a smaller number comes first, whatever
      the archive order. */
  lemma FallbackByNumber(zip: Zip, i: nat, j: nat)
    requires i < |FallbackNames(zip)| && j < |FallbackNames(zip)|
    requires SlideNumber(FallbackNames(zip)[i]) < SlideNumber(FallbackNames(zip)[j])
    ensures i < j
  {
    StableSortSorted(SlideFiles(zip.names), SlideKey);
  }

  /** `slide2.xml` is read before `slide10.xml`: the files of slides `m`
      and `n`, `m < n`, both kept by the fallback, come in that order. */
  lemma SmallerSlideFirst(zip: Zip, m: nat, n: nat)
    requires ValidZip(zip) && m < n
    requires "ppt/slides/slide" + NatToString(m) + ".xml" in zip.entries
    requires "ppt/slides/slide" + NatToString(n) + ".xml" in zip.entries
    ensures var files := FallbackNames(zip);
            exists i, j :: 0 <= i < j < |files|
                           && files[i] == "ppt/slides/slide" + NatToString(m) + ".xml"
                           && files[j] == "ppt/slides/slide" + NatToString(n) + ".xml"
  {
    var a, b := "ppt/slides/slide" + NatToString(m) + ".xml", "ppt/slides/slide" + NatToString(n) + ".xml";
    SlideFileNumber(m);
    SlideFileNumber(n);
    var kept := SlideFiles(zip.names);
    assert a in kept && b in kept;
    var files := FallbackNames(zip);
    assert a in multiset(files) && b in multiset(files);
    var i :| 0 <= i < |files| && files[i] == a;
    var j :| 0 <= j < |files| && files[j] == b;
    FallbackByNumber(zip, i, j);
  }

  // ------------------------------------------------------------ slide order

  /** Every entry of the list leads to a file of the archive that reads
      without error. */
  predicate AllResolve(entries: seq<Element>, m: map<string, Option<string>>, zip: Zip, names: ListNames)
  {
    forall i :: 0 <= i < |entries| ==>
      |entries[i].attrs| > 0 && EntryPath(entries[i], m, names).Some?
      && EntryPath(entries[i], m, names).value in zip.entries
      && SlideOf(zip.entries[EntryPath(entries[i], m, names).value]).Ok?
  }

  /** The slides of the entries, one each, in list order. */
  function ListedSlides(entries: seq<Element>, m: map<string, Option<string>>, zip: Zip, names: ListNames): (r: seq<Slide>)
    requires AllResolve(entries, m, zip, names)
    ensures |r| == |entries|
    decreases |entries|
  {
    if entries == [] then []
    else
      var last := entries[|entries| - 1];
      assert AllResolve(entries[..|entries| - 1], m, zip, names) by {
        forall i | 0 <= i < |entries| - 1 ensures entries[..|entries| - 1][i] == entries[i] {}
      }
      assert |last.attrs| > 0 && EntryPath(last, m, names).Some?;
      ListedSlides(entries[..|entries| - 1], m, zip, names) + [SlideOf(zip.entries[EntryPath(last, m, names).value]).value]
  }

  /** When every entry resolves, the pass reads one slide per entry, in the
      presentation's order. */
  lemma {:induction false} PassInListOrder(entries: seq<Element>, m: map<string, Option<string>>, zip: Zip, names: ListNames)
    requires AllResolve(entries, m, zip, names)
    ensures PrimaryPass(entries, m, zip, names) == Pass(ListedSlides(entries, m, zip, names), false)
    decreases |entries|
  {
    if entries != [] {
      var init := entries[..|entries| - 1];
      assert AllResolve(init, m, zip, names) by {
        forall i | 0 <= i < |init| ensures init[i] == entries[i] {}
      }
      PassInListOrder(init, m, zip, names);
    }
  }

  /** With the names PresentationML uses, a presentation whose listed slides
      all resolve is read in its own order, one slide per entry. */
  lemma StandardListOrderKept(zip: Zip, pres: Element, rels: Element, m: map<string, Option<string>>)
    requires ValidZip(zip)
    requires PresentationPath in zip.entries && zip.entries[PresentationPath] == Some(pres)
    requires RelsPath in zip.entries && zip.entries[RelsPath] == Some(rels)
    requires RelMapOf(Relationships(rels)) == Ok(m)
    requires SlideIdList(pres, StandardNames) != []
    requires AllResolve(SlideIdList(pres, StandardNames), m, zip, StandardNames)
    ensures Extracted(zip, StandardNames) == Ok(ListedSlides(SlideIdList(pres, StandardNames), m, zip, StandardNames))
  {
    PassInListOrder(SlideIdList(pres, StandardNames), m, zip, StandardNames);
  }

  /** With the names the code uses, a presentation that lists its slides
      under `sldIdLst`, as PresentationML names it, gives no slide list:
      the slides always come from the fallback, in file-number order. */
  lemma WrittenNamesMissStandardList(zip: Zip, pres: Element)
    requires ValidZip(zip)
    requires PresentationPath in zip.entries && zip.entries[PresentationPath] == Some(pres)
    requires Children(pres, "slideIdLst") == []
    ensures Primary(zip, WrittenNames) == []
    ensures Extracted(zip, WrittenNames) == ParseAll(FallbackNames(zip), zip)
  {
    assert SlideIdList(pres, WrittenNames) == [];
  }
}
