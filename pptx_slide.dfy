/** Reading one slide of a PowerPoint file: the text of each shape, the
    title taken from a title placeholder, the other shapes' texts as the
    content. The XML reader is not part of this model: a slide arrives as
    the element tree it produces, tag names already stripped of their
    namespace prefix (`PptxService.StripPrefix`), and `None` stands for a
    text the reader rejects. */
module PptxSlide {
  import opened Common

  /** An element as the XML reader gives it: its tag, its attributes (the
      reader's `$`, absent when there are none), its own text (`_`) and its
      child elements in document order. */
  datatype Element = Element(tag: string, attrs: map<string, string>, text: string, children: seq<Element>)

  /** The children of `e` with a given tag, in order (`e.tag`; an element
      with none gives `[]`, as `|| []` does). */
  function Children(e: Element, tag: string): (r: seq<Element>)
    ensures |r| <= |e.children|
    ensures forall i :: 0 <= i < |r| ==> r[i].tag == tag
  {
    WithTag(e.children, tag)
  }

  /** The children with a tag are exactly the children carrying it. */
  lemma ChildrenMembers(e: Element, tag: string)
    ensures forall c :: c in Children(e, tag) <==> c in e.children && c.tag == tag
  {
    WithTagMembers(e.children, tag);
  }

  lemma {:induction false} WithTagMembers(cs: seq<Element>, tag: string)
    ensures forall c :: c in WithTag(cs, tag) <==> c in cs && c.tag == tag
    decreases |cs|
  {
    if cs != [] {
      assert cs == cs[..|cs| - 1] + [cs[|cs| - 1]];
      WithTagMembers(cs[..|cs| - 1], tag);
    }
  }

  function WithTag(cs: seq<Element>, tag: string): (r: seq<Element>)
    ensures |r| <= |cs|
    ensures forall i :: 0 <= i < |r| ==> r[i].tag == tag
    decreases |cs|
  {
    if cs == [] then []
    else
      var last := cs[|cs| - 1];
      assert cs == cs[..|cs| - 1] + [last];
      WithTag(cs[..|cs| - 1], tag) + (if last.tag == tag then [last] else [])
  }

  /** The reader gives an element with attributes or child elements as an
      object, its text under `_` and only when not empty; such an object
      without text is added to a string as `[object Object]`. */
  function TextValue(t: Element): (r: string)
    ensures t.text != "" ==> r == t.text
    ensures t.text == "" && |t.attrs| == 0 && t.children == [] ==> r == ""
  {
    if t.text == "" && (|t.attrs| > 0 || t.children != []) then "[object Object]" else t.text
  }

  /** A run's text: its first `t` element, nothing when it has none. */
  function RunText(r: Element): string
  {
    var ts := Children(r, "t");
    if ts == [] then "" else TextValue(ts[0])
  }

  /** The runs' texts, concatenated in order. */
  function RunsText(rs: seq<Element>): (r: string)
    ensures rs == [] ==> r == ""
    decreases |rs|
  {
    if rs == [] then ""
    else RunsText(rs[..|rs| - 1]) + RunText(rs[|rs| - 1])
  }

  /** A paragraph's text: the texts of its runs. */
  function ParagraphText(p: Element): string
  {
    RunsText(Children(p, "r"))
  }

  /** The paragraphs' texts, in order. */
  function ParagraphTexts(ps: seq<Element>): (r: seq<string>)
    ensures |r| == |ps| && forall i :: 0 <= i < |ps| ==> r[i] == ParagraphText(ps[i])
  {
    seq(|ps|, i requires 0 <= i < |ps| => ParagraphText(ps[i]))
  }

  /** Each text that is not blank, followed by a line break. */
  function NonBlankLines(texts: seq<string>): (r: string)
    decreases |texts|
  {
    if texts == [] then ""
    else
      var t := texts[|texts| - 1];
      NonBlankLines(texts[..|texts| - 1]) + (if !IsBlank(t) then t + "\n" else "")
  }

  /** The text of a shape's text body, trimmed. */
  function BodyText(txBody: Element): (r: string)
    ensures r == [] || (!IsSpace(r[0]) && !IsSpace(r[|r| - 1]))
  {
    Trim(NonBlankLines(ParagraphTexts(Children(txBody, "p"))))
  }

  /** What a shape contributes: nothing, a title, or a content line. */
  datatype Role = NoText | TitleText(text: string) | BodyLine(text: string)

  /** The placeholder type of a shape (`nvSpPr[0].nvPr[0].ph[0].$.type`):
      `None` when the shape is no placeholder or the placeholder names no
      type; a placeholder element without any attribute has no `$`, and
      reading `type` from it throws. */
  function PlaceholderType(sp: Element): (r: Result<Option<string>>)
    ensures Children(sp, "nvSpPr") == [] ==> r == Ok(None)
    ensures r.Ok? && r.value.Some? ==>
              exists nv, pr, ph :: nv in sp.children && nv.tag == "nvSpPr" && pr in nv.children && pr.tag == "nvPr"
                                   && ph in pr.children && ph.tag == "ph" && "type" in ph.attrs && ph.attrs["type"] == r.value.value
    ensures r.Thrown? ==>
              exists nv, pr, ph :: nv in sp.children && nv.tag == "nvSpPr" && pr in nv.children && pr.tag == "nvPr"
                                   && ph in pr.children && ph.tag == "ph" && |ph.attrs| == 0
  {
    var nv := Children(sp, "nvSpPr");
    if nv == [] then Ok(None)
    else
      var pr := Children(nv[0], "nvPr");
      if pr == [] then Ok(None)
      else
        var ph := Children(pr[0], "ph");
        if ph == [] then Ok(None)
        else
          ChildrenMembers(sp, "nvSpPr");
          ChildrenMembers(nv[0], "nvPr");
          ChildrenMembers(pr[0], "ph");
          assert nv[0] in nv && pr[0] in pr && ph[0] in ph;
          if |ph[0].attrs| == 0 then Thrown
        else Ok(if "type" in ph[0].attrs then Some(ph[0].attrs["type"]) else None)
  }

  /** The role of one shape: a shape without a text body or with blank
      text contributes nothing; a text shape is a title when its placeholder
      type is `ctrTitle` or `title`. */
  function RoleOf(sp: Element): (r: Result<Role>)
    ensures r.Ok? && !r.value.NoText? ==> r.value.text != ""
  {
    var bodies := Children(sp, "txBody");
    if bodies == [] then Ok(NoText)
    else
      var text := BodyText(bodies[0]);
      if text == "" then Ok(NoText)
      else
        match PlaceholderType(sp)
        case Thrown => Thrown
        case Ok(t) => Ok(if t == Some("ctrTitle") || t == Some("title") then TitleText(text) else BodyLine(text))
  }

  /** A shape is skipped exactly when it has no text body or its text is
      blank; otherwise its text is kept, as the title exactly when its
      placeholder type is `ctrTitle` or `title`, and reading it throws
      exactly when its placeholder has no attribute. */
  lemma RoleOfShape(sp: Element)
    ensures var bodies := Children(sp, "txBody");
            var text := if bodies == [] then "" else BodyText(bodies[0]);
            && (RoleOf(sp) == Ok(NoText) <==> text == "")
            && (RoleOf(sp).Thrown? <==> text != "" && PlaceholderType(sp).Thrown?)
            && (RoleOf(sp).Ok? && !RoleOf(sp).value.NoText? ==> RoleOf(sp).value.text == text)
  {
  }

  /** The shapes whose text becomes the title. */
  lemma TitleShape(sp: Element)
    ensures RoleOf(sp).Ok? && RoleOf(sp).value.TitleText? <==>
              && Children(sp, "txBody") != [] && BodyText(Children(sp, "txBody")[0]) != ""
              && (PlaceholderType(sp) == Ok(Some("ctrTitle")) || PlaceholderType(sp) == Ok(Some("title")))
  {
    var bodies := Children(sp, "txBody");
    if bodies != [] && BodyText(bodies[0]) != "" {
      var t := PlaceholderType(sp);
      if t.Ok? {
        assert RoleOf(sp) == Ok(if t.value == Some("ctrTitle") || t.value == Some("title")
                                then TitleText(BodyText(bodies[0])) else BodyLine(BodyText(bodies[0])));
      }
    }
  }

  /** The text of a slide as read so far: the title (`"Untitled Slide"`
      until a title shape is met) and the content lines. */
  datatype Parts = Parts(title: string, lines: seq<string>)

  const Untitled := "Untitled Slide"

  /** The shapes read in order: a title shape replaces the title, any other
      shape with text adds a content line; an error ends the reading. */
  function PartsOf(shapes: seq<Element>): (r: Result<Parts>)
    ensures r.Ok? ==> forall i :: 0 <= i < |r.value.lines| ==> r.value.lines[i] != ""
    ensures r.Ok? ==> r.value.title != ""
    decreases |shapes|
  {
    if shapes == [] then Ok(Parts(Untitled, []))
    else
      match PartsOf(shapes[..|shapes| - 1])
      case Thrown => Thrown
      case Ok(acc) =>
        match RoleOf(shapes[|shapes| - 1])
        case Thrown => Thrown
        case Ok(NoText) => Ok(acc)
        case Ok(TitleText(t)) => Ok(Parts(t, acc.lines))
        case Ok(BodyLine(t)) => Ok(Parts(acc.title, acc.lines + [t]))
  }

  /** A slide: its title and its content lines joined. */
  datatype Slide = Slide(title: string, content: string)

  /** The slide made of what was read: the title when it is not the
      default text, otherwise the first content line when there is one. */
  function Finish(p: Parts): Slide
  {
    if p.title != Untitled then Slide(p.title, Join(p.lines, "\n"))
    else if p.lines != [] && p.lines[0] != "" then Slide(p.lines[0], Join(p.lines[1..], "\n"))
    else Slide(Untitled, Join(p.lines, "\n"))
  }

  /** The shapes of a slide: `sld.cSld[0].spTree[0].sp`, `[]` when any step
      is missing. */
  function Shapes(doc: Element): seq<Element>
  {
    if doc.tag != "sld" then []
    else
      var c := Children(doc, "cSld");
      if c == [] then []
      else
        var t := Children(c[0], "spTree");
        if t == [] then [] else Children(t[0], "sp")
  }

  /** `parseSlide(xml)` on what the XML reader gives. */
  function SlideOf(doc: Option<Element>): (r: Result<Slide>)
    ensures doc.None? ==> r.Thrown?
    ensures r.Ok? ==> r.value.title != ""
    ensures doc.Some? && Shapes(doc.value) == [] ==> r == Ok(Slide(Untitled, ""))
  {
    if doc.None? then Thrown
    else
      match PartsOf(Shapes(doc.value))
      case Thrown => Thrown
      case Ok(p) => Ok(Finish(p))
  }

  // ------------------------------------------------------------ the loops

  /** The loop over a paragraph's runs. */
  method ReadParagraph(p: Element) returns (text: string)
    ensures text == ParagraphText(p)
  {
    var runs := Children(p, "r");
    text := "";
    for i := 0 to |runs|
      invariant text == RunsText(runs[..i])
    {
      assert runs[..i + 1][..i] == runs[..i];
      assert RunsText(runs[..i + 1]) == RunsText(runs[..i]) + RunText(runs[i]);
      var ts := Children(runs[i], "t");
      if ts != [] {
        text := text + TextValue(ts[0]);
      } else {
        assert text + RunText(runs[i]) == text;
      }
    }
    assert runs[..|runs|] == runs;
  }

  /** The loop over a text body's paragraphs, then the trim. */
  method ReadBody(txBody: Element) returns (text: string)
    ensures text == BodyText(txBody)
  {
    var ps := Children(txBody, "p");
    ghost var texts := ParagraphTexts(ps);
    var lines := "";
    for i := 0 to |ps|
      invariant lines == NonBlankLines(texts[..i])
    {
      var t := ReadParagraph(ps[i]);
      assert texts[i] == t;
      LinesStep(texts, i);
      TrimEmptyIffBlank(t);
      if Trim(t) != "" {
        lines := lines + (t + "\n");
      }
    }
    assert texts[..|ps|] == texts;
    text := Trim(lines);
  }

  /** One shape of the loop: its text, then its placeholder type. */
  method ReadShape(sp: Element) returns (role: Result<Role>)
    ensures role == RoleOf(sp)
  {
    var bodies := Children(sp, "txBody");
    if bodies == [] {
      return Ok(NoText);
    }
    var text := ReadBody(bodies[0]);
    if text == "" {
      return Ok(NoText);
    }
    var t := PlaceholderType(sp);
    if t.Thrown? {
      return Thrown;
    }
    if t.value == Some("ctrTitle") || t.value == Some("title") {
      role := Ok(TitleText(text));
    } else {
      role := Ok(BodyLine(text));
    }
  }

  /** One more paragraph read. */
  lemma LinesStep(texts: seq<string>, i: nat)
    requires i < |texts|
    ensures NonBlankLines(texts[..i + 1]) == NonBlankLines(texts[..i]) + (if !IsBlank(texts[i]) then texts[i] + "\n" else "")
  {
    assert texts[..i + 1][..i] == texts[..i];
  }

  /** `parseSlide(xml)`: the loop over the shapes, keeping the last title
      and the content lines, then the title rule. */
  method ParseSlide(doc: Option<Element>) returns (r: Result<Slide>)
    ensures r == SlideOf(doc)
  {
    if doc.None? {
      return Thrown;
    }
    var shapes := Shapes(doc.value);
    var title := Untitled;
    var lines: seq<string> := [];
    for i := 0 to |shapes|
      invariant PartsOf(shapes[..i]) == Ok(Parts(title, lines))
    {
      var role := ReadShape(shapes[i]);
      PartsStep(shapes, i);
      if role.Thrown? {
        PartsThrownStays(shapes, i + 1);
        return Thrown;
      }
      match role.value
      case NoText =>
      case TitleText(t) => title := t;
      case BodyLine(t) => lines := lines + [t];
    }
    assert shapes[..|shapes|] == shapes;
    r := Ok(Finish(Parts(title, lines)));
  }

  /** One more shape read. */
  lemma PartsStep(shapes: seq<Element>, i: nat)
    requires i < |shapes|
    ensures PartsOf(shapes[..i + 1]) ==
            match PartsOf(shapes[..i])
            case Thrown => Thrown
            case Ok(acc) =>
              match RoleOf(shapes[i])
              case Thrown => Thrown
              case Ok(NoText) => Ok(acc)
              case Ok(TitleText(t)) => Ok(Parts(t, acc.lines))
              case Ok(BodyLine(t)) => Ok(Parts(acc.title, acc.lines + [t]))
  {
    assert shapes[..i + 1][..i] == shapes[..i];
  }

  /** Once reading a slide has thrown, further shapes change nothing. */
  lemma {:induction false} PartsThrownStays(shapes: seq<Element>, n: nat)
    requires n <= |shapes| && PartsOf(shapes[..n]) == Thrown
    ensures PartsOf(shapes) == Thrown
    decreases |shapes| - n
  {
    if n == |shapes| {
      assert shapes[..n] == shapes;
    } else {
      assert shapes[..n + 1][..n] == shapes[..n];
      PartsThrownStays(shapes, n + 1);
    }
  }

  // ------------------------------------------------------------ properties

  /** A shape's text is empty exactly when each of its paragraphs is blank. */
  lemma BodyTextEmptyIff(txBody: Element)
    ensures var ps := Children(txBody, "p");
            BodyText(txBody) == "" <==> forall i :: 0 <= i < |ps| ==> IsBlank(ParagraphText(ps[i]))
  {
    var texts := ParagraphTexts(Children(txBody, "p"));
    TrimEmptyIffBlank(NonBlankLines(texts));
    LinesBlankIff(texts);
  }

  lemma {:induction false} LinesBlankIff(texts: seq<string>)
    ensures IsBlank(NonBlankLines(texts)) <==> forall i :: 0 <= i < |texts| ==> IsBlank(texts[i])
    decreases |texts|
  {
    if texts != [] {
      var n := |texts| - 1;
      var init, t := texts[..n], texts[n];
      LinesBlankIff(init);
      var a := NonBlankLines(init);
      var b := if !IsBlank(t) then t + "\n" else "";
      assert NonBlankLines(texts) == a + b;
      BlankConcat(a, b);
      if !IsBlank(t) {
        BlankConcat(t, "\n");
      }
      assert texts == init + [t];
    }
  }

  lemma BlankConcat(a: string, b: string)
    ensures IsBlank(a + b) <==> IsBlank(a) && IsBlank(b)
  {
    if IsBlank(a + b) {
      forall i | 0 <= i < |b| ensures IsSpace(b[i]) {
        assert (a + b)[|a| + i] == b[i];
      }
      forall i | 0 <= i < |a| ensures IsSpace(a[i]) {
        assert (a + b)[i] == a[i];
      }
    }
  }

  /** The roles of the shapes, in order, when none throws. */
  function Roles(shapes: seq<Element>): (r: Result<seq<Role>>)
    ensures r.Ok? ==> |r.value| == |shapes|
    decreases |shapes|
  {
    if shapes == [] then Ok([])
    else
      match Roles(shapes[..|shapes| - 1])
      case Thrown => Thrown
      case Ok(rs) =>
        match RoleOf(shapes[|shapes| - 1])
        case Thrown => Thrown
        case Ok(x) => Ok(rs + [x])
  }

  /** The text of the last title shape, the default when there is none. */
  function LastTitle(roles: seq<Role>): string
    decreases |roles|
  {
    if roles == [] then Untitled
    else if roles[|roles| - 1].TitleText? then roles[|roles| - 1].text
    else LastTitle(roles[..|roles| - 1])
  }

  /** The texts of the non-title shapes, in order. */
  function BodyLines(roles: seq<Role>): seq<string>
    decreases |roles|
  {
    if roles == [] then []
    else BodyLines(roles[..|roles| - 1]) + (if roles[|roles| - 1].BodyLine? then [roles[|roles| - 1].text] else [])
  }

  /** Reading the shapes throws exactly when some shape's role throws, and
      otherwise keeps the last title shape's text and every other text. */
  lemma {:induction false} PartsOfRoles(shapes: seq<Element>)
    ensures PartsOf(shapes).Thrown? <==> Roles(shapes).Thrown?
    ensures Roles(shapes).Ok? ==> PartsOf(shapes) == Ok(Parts(LastTitle(Roles(shapes).value), BodyLines(Roles(shapes).value)))
    decreases |shapes|
  {
    if shapes != [] {
      var init := shapes[..|shapes| - 1];
      PartsOfRoles(init);
      if Roles(init).Ok? && RoleOf(shapes[|shapes| - 1]).Ok? {
        var rs := Roles(init).value;
        var x := RoleOf(shapes[|shapes| - 1]).value;
        var all := rs + [x];
        assert Roles(shapes) == Ok(all);
        assert all[..|all| - 1] == rs;
        var acc := Parts(LastTitle(rs), BodyLines(rs));
        assert PartsOf(init) == Ok(acc);
        match x
        case NoText =>
          assert PartsOf(shapes) == Ok(acc);
          assert LastTitle(all) == LastTitle(rs) && BodyLines(all) == BodyLines(rs);
        case TitleText(t) =>
          assert PartsOf(shapes) == Ok(Parts(t, acc.lines));
          assert LastTitle(all) == t && BodyLines(all) == BodyLines(rs);
        case BodyLine(t) =>
          assert PartsOf(shapes) == Ok(Parts(acc.title, acc.lines + [t]));
          assert LastTitle(all) == LastTitle(rs) && BodyLines(all) == BodyLines(rs) + [t];
      }
    }
  }

  /** The title rule: the last title shape's text, unless it is the default
      text; otherwise the first other text, which then leaves the content;
      otherwise the default, with no content. */
  lemma TitleRule(doc: Element)
    requires Roles(Shapes(doc)).Ok?
    ensures var roles := Roles(Shapes(doc)).value;
            var t, lines := LastTitle(roles), BodyLines(roles);
            SlideOf(Some(doc)) == Ok(
              if t != Untitled then Slide(t, Join(lines, "\n"))
              else if lines != [] then Slide(lines[0], Join(lines[1..], "\n"))
              else Slide(Untitled, ""))
  {
    PartsOfRoles(Shapes(doc));
  }

  /** A slide read without error never has an empty title. */
  lemma TitleNotEmpty(doc: Option<Element>)
    requires SlideOf(doc).Ok?
    ensures SlideOf(doc).value.title != ""
  {
  }
}
