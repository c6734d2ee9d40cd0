/** The preview format both content transformers produce: a title, a list of
    typed sections and a metadata record; plus the one loop they share. */
module PreviewModel {
  import opened Common
  import opened JsValue

  datatype Kind = Paragraph | ListItem | HeadingKind

  /** A preview section: an optional heading, the content as given, a kind. */
  datatype Section = Section(heading: Option<Js>, content: Js, kind: Kind)

  datatype Metadata = Metadata(wordCount: Option<nat>, readTime: Option<nat>, count: Option<nat>,
                               topics: Option<seq<Js>>, totalQuestions: Option<nat>,
                               difficulty: Option<Js>, totalCards: Option<Js>)

  const NoMetadata := Metadata(None, None, None, None, None, None, None)

  datatype Preview = Preview(title: string, sections: seq<Section>, metadata: Metadata)

  /** What a transformer gives: `null`, a preview, or a thrown TypeError. */
  datatype Outcome = NoPreview | Shown(preview: Preview) | Throws

  /** One list section per point, in order. */
  function ListSections(points: seq<Js>): (r: seq<Section>)
    ensures |r| == |points| && forall i :: 0 <= i < |points| ==> r[i] == Section(None, points[i], ListItem)
  {
    seq(|points|, i requires 0 <= i < |points| => Section(None, points[i], ListItem))
  }

  /** `points.forEach(p => sections.push({ content: p, type: 'list' }))` */
  method PushPoints(sections: seq<Section>, points: seq<Js>) returns (r: seq<Section>)
    ensures r == sections + ListSections(points)
  {
    r := sections;
    for i := 0 to |points|
      invariant r == sections + ListSections(points[..i])
    {
      r := r + [Section(None, points[i], ListItem)];
      assert ListSections(points[..i + 1]) == ListSections(points[..i]) + [Section(None, points[i], ListItem)];
    }
    assert points[..|points|] == points;
  }

  /** A label built as `tag + digits + ": " + rest` gives its number back:
      two labels with different numbers differ, whatever follows them. */
  lemma NumberedLabelsDiffer(tag: string, a: nat, b: nat, x: string, y: string)
    requires a != b
    ensures tag + NatToString(a) + ": " + x != tag + NatToString(b) + ": " + y
  {
    var sa, sb := NatToString(a), NatToString(b);
    var la, lb := tag + sa + ": " + x, tag + sb + ": " + y;
    if |sa| < |sb| {
      assert la[|tag| + |sa|] == ':' && lb[|tag| + |sa|] == sb[|sa|];
    } else if |sb| < |sa| {
      assert lb[|tag| + |sb|] == ':' && la[|tag| + |sb|] == sa[|sb|];
    } else if la == lb {
      assert sa == la[|tag|..|tag| + |sa|] == sb;
      NatToStringInjective(a, b);
    }
  }
}
