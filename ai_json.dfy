/** Reading a JSON object out of a model's reply: the trimmed reply as it
    is, else the contents of a Markdown code fence, else the text from the
    first `{` to the last `}` with trailing commas removed. `JSON.parse`
    (RFC 8259) is a parameter: `None` where it throws. */
module AiJson {
  import opened Common
  import opened JsValue

  /** A code fence, three backticks, starts at `i`. */
  predicate FenceAt(s: string, i: nat)
  {
    i + 3 <= |s| && s[i] == '`' && s[i + 1] == '`' && s[i + 2] == '`'
  }

  /** `s.indexOf("```", k)`: the first fence at or after `k`. */
  function FenceFrom(s: string, k: nat): (r: Option<nat>)
    ensures r.Some? ==> k <= r.value && FenceAt(s, r.value)
                        && forall j :: k <= j < r.value ==> !FenceAt(s, j)
    ensures r.None? ==> forall j :: k <= j ==> !FenceAt(s, j)
    decreases |s| - k
  {
    if k + 3 > |s| then None
    else if FenceAt(s, k) then Some(k)
    else FenceFrom(s, k + 1)
  }

  /** A backtick-free stretch before a fence: the search finds that fence. */
  lemma {:induction false} FenceFoundAt(s: string, k: nat, j: nat)
    requires k <= j && FenceAt(s, j)
    requires forall i :: k <= i < j ==> s[i] != '`'
    ensures FenceFrom(s, k) == Some(j)
    decreases j - k
  {
    if k < j {
      FenceFoundAt(s, k + 1, j);
    }
  }

  /** A text without backticks from `k` on has no fence there. */
  lemma FenceAbsent(s: string, k: nat)
    requires forall i :: k <= i < |s| ==> s[i] != '`'
    ensures FenceFrom(s, k) == None
  {
  }

  /** `s.indexOf(c)` */
  function IndexOfChar(s: string, c: char): (r: Option<nat>)
    ensures r.Some? ==> r.value < |s| && s[r.value] == c && c !in s[..r.value]
    ensures r.None? <==> c !in s
  {
    if c !in s then None
    else if s[0] == c then Some(0)
    else
      var t := IndexOfChar(s[1..], c);
      assert s[1..][..t.value] == s[1..t.value + 1];
      Some(t.value + 1)
  }

  /** `s.lastIndexOf(c)` */
  function LastIndexOfChar(s: string, c: char): (r: Option<nat>)
    ensures r.Some? ==> r.value < |s| && s[r.value] == c && c !in s[r.value + 1..]
    ensures r.None? <==> c !in s
  {
    if c !in s then None
    else if s[|s| - 1] == c then Some(|s| - 1)
    else
      var t := LastIndexOfChar(s[..|s| - 1], c);
      assert s[t.value + 1..] == s[..|s| - 1][t.value + 1..] + [s[|s| - 1]];
      Some(t.value)
  }

  /** The fence's optional `json` tag, matched regardless of case, is at `i`. */
  predicate JsonTagAt(s: string, i: nat)
  {
    i + 4 <= |s| && LowerChar(s[i]) == 'j' && LowerChar(s[i + 1]) == 's'
    && LowerChar(s[i + 2]) == 'o' && LowerChar(s[i + 3]) == 'n'
  }

  /** Where the text after the opening fence at `p` and its tag begins. */
  function AfterTag(s: string, p: nat): (r: nat)
    requires FenceAt(s, p)
    ensures r == (if JsonTagAt(s, p + 3) then p + 7 else p + 3) && r <= |s|
  {
    if JsonTagAt(s, p + 3) then p + 7 else p + 3
  }

  /** The group of the first match of `/```(?:json)?\s*([\s\S]*?)\s*```/i`:
      the text between the first fence (past its tag) and the next fence,
      the surrounding whitespace going to the `\s*` on either side. `None`
      when there is no closing fence. */
  function FenceBody(s: string): (r: Option<string>)
    ensures r.Some? ==> FenceFrom(s, 0).Some?
  {
    match FenceFrom(s, 0)
    case None => None
    case Some(p) =>
      var tag := AfterTag(s, p);
      match FenceFrom(s, tag)
      case None => None
      case Some(c) => Some(Trim(s[tag..c]))
  }

  /** A tagged fence preceded by backtick-free text yields its trimmed contents. */
  lemma FenceBodyTagged(pre: string, inner: string, post: string)
    requires forall i :: 0 <= i < |pre| ==> pre[i] != '`'
    requires forall i :: 0 <= i < |inner| ==> inner[i] != '`'
    ensures FenceBody(pre + "```json" + inner + "```" + post) == Some(Trim(inner))
  {
    TaggedLayout(pre, inner, post);
    TaggedFenceBody(pre + "```json" + inner + "```" + post, |pre|, |pre| + 7 + |inner|, inner);
  }

  /** A tagged fence at `p`, closed at `c`, with no backtick before either. */
  lemma TaggedFenceBody(s: string, p: nat, c: nat, inner: string)
    requires FenceAt(s, p) && JsonTagAt(s, p + 3) && FenceAt(s, c) && p + 7 <= c && s[p + 7..c] == inner
    requires forall i :: 0 <= i < p ==> s[i] != '`'
    requires forall i :: p + 7 <= i < c ==> s[i] != '`'
    ensures FenceBody(s) == Some(Trim(inner))
  {
    FenceFoundAt(s, 0, p);
    assert AfterTag(s, p) == p + 7;
    FenceFoundAt(s, p + 7, c);
  }

  /** Where the parts of a tagged fence lie in the text. */
  lemma TaggedLayout(pre: string, inner: string, post: string)
    requires forall i :: 0 <= i < |pre| ==> pre[i] != '`'
    requires forall i :: 0 <= i < |inner| ==> inner[i] != '`'
    ensures var s, p, c := pre + "```json" + inner + "```" + post, |pre|, |pre| + 7 + |inner|;
            && FenceAt(s, p) && JsonTagAt(s, p + 3) && FenceAt(s, c) && s[p + 7..c] == inner
            && (forall i :: 0 <= i < p ==> s[i] != '`')
            && (forall i :: p + 7 <= i < c ==> s[i] != '`')
  {
    var f, t := "```json", "```";
    var s, p, c := pre + f + inner + t + post, |pre|, |pre| + 7 + |inner|;
    assert forall i :: 0 <= i < p ==> s[i] == pre[i];
    assert forall i :: 0 <= i < 7 ==> s[p + i] == f[i];
    assert forall i :: p + 7 <= i < c ==> s[i] == inner[i - p - 7];
    assert forall i :: 0 <= i < 3 ==> s[c + i] == t[i];
    assert s[p + 7..c] == inner;
  }

  /** An untagged fence does the same, unless its contents begin with `json`,
      which the optional tag then takes. */
  lemma FenceBodyUntagged(pre: string, inner: string, post: string)
    requires forall i :: 0 <= i < |pre| ==> pre[i] != '`'
    requires forall i :: 0 <= i < |inner| ==> inner[i] != '`'
    requires !JsonTagAt(inner, 0)
    ensures FenceBody(pre + "```" + inner + "```" + post) == Some(Trim(inner))
  {
    var s := pre + "```" + inner + "```" + post;
    var p, c := |pre|, |pre| + 3 + |inner|;
    assert s[..p] == pre && s[p..c] == "```" + inner && s[c..c + 3] == "```";
    assert FenceAt(s, p) && FenceAt(s, c);
    assert !JsonTagAt(s, p + 3) by {
      if |inner| < 4 {
        assert s[p + 3 + |inner|] == '`';
      } else {
        assert s[p + 3..p + 7] == inner[..4];
      }
    }
    FenceFoundAt(s, 0, p);
    FenceFoundAt(s, p + 3, c);
    assert s[p + 3..c] == inner;
  }

  /** The remainder starts, after optional whitespace, with `]` or `}`. */
  predicate ClosesNext(t: string)
    decreases |t|
  {
    t != [] && (t[0] == ']' || t[0] == '}' || (IsSpace(t[0]) && ClosesNext(t[1..])))
  }

  /** `s.replace(/,(\s*[\]}])/g, '$1')`: a comma followed by optional
      whitespace and a closing bracket is dropped. The text a match consumes
      after its comma holds no comma, so every comma is judged on the
      original text. */
  function StripTrailingCommas(s: string): (r: string)
    ensures |r| <= |s|
    decreases |s|
  {
    if s == [] then []
    else if s[0] == ',' && ClosesNext(s[1..]) then StripTrailingCommas(s[1..])
    else [s[0]] + StripTrailingCommas(s[1..])
  }

  /** The text with its commas removed. */
  function WithoutCommas(s: string): (r: string)
    decreases |s|
  {
    if s == [] then [] else (if s[0] == ',' then [] else [s[0]]) + WithoutCommas(s[1..])
  }

  /** Only commas are removed: everything else is kept, in order. */
  lemma {:induction false} StripRemovesOnlyCommas(s: string)
    ensures WithoutCommas(StripTrailingCommas(s)) == WithoutCommas(s)
    decreases |s|
  {
    if s != [] {
      StripRemovesOnlyCommas(s[1..]);
      var r := StripTrailingCommas(s[1..]);
      if !(s[0] == ',' && ClosesNext(s[1..])) {
        assert ([s[0]] + r)[1..] == r;
      }
    }
  }

  /** Comma-free text passes through unchanged. */
  lemma {:induction false} StripCommaFree(w: string, t: string)
    requires ',' !in w
    ensures StripTrailingCommas(w + t) == w + StripTrailingCommas(t)
    decreases |w|
  {
    if w != [] {
      assert (w + t)[0] == w[0] && (w + t)[1..] == w[1..] + t;
      StripCommaFree(w[1..], t);
      assert [w[0]] + w[1..] == w;
    } else {
      assert w + t == t;
    }
  }

  /** A comma before whitespace and a closing bracket disappears, and the
      whitespace and bracket stay. */
  lemma {:induction false} StripDropsTrailingComma(w: string, close: char, t: string)
    requires IsBlank(w) && (close == ']' || close == '}')
    ensures StripTrailingCommas([','] + w + [close] + t) == w + [close] + StripTrailingCommas(t)
  {
    var s := [','] + w + [close] + t;
    assert s[1..] == w + [close] + t;
    ClosesAfterBlank(w, close, t);
    assert ',' !in w + [close] by {
      forall i | 0 <= i < |w + [close]| ensures (w + [close])[i] != ',' {
        if i < |w| { assert IsSpace(w[i]); }
      }
    }
    StripCommaFree(w + [close], t);
  }

  /** A comma that is not followed by whitespace and a closing bracket
      stays where it is. */
  lemma StripKeepsOtherComma(w: string, t: string)
    requires ',' !in w && !ClosesNext(t)
    ensures StripTrailingCommas(w + [','] + t) == w + [','] + StripTrailingCommas(t)
  {
    assert w + [','] + t == w + ([','] + t);
    StripCommaFree(w, [','] + t);
    assert ([','] + t)[1..] == t;
  }

  lemma {:induction false} ClosesAfterBlank(w: string, close: char, t: string)
    requires IsBlank(w) && (close == ']' || close == '}')
    ensures ClosesNext(w + [close] + t)
    decreases |w|
  {
    if w != [] {
      assert (w + [close] + t)[1..] == w[1..] + [close] + t;
      assert IsSpace(w[0]);
      ClosesAfterBlank(w[1..], close, t);
    }
  }

  /** `cleanText.substring(firstBrace, lastBrace + 1)` when the braces are in
      that order. */
  function BraceCandidate(s: string): (r: Option<string>)
    ensures r.Some? ==> |r.value| >= 2 && r.value[0] == '{' && r.value[|r.value| - 1] == '}'
    ensures r.None? <==> '{' !in s || '}' !in s || LastIndexOfChar(s, '}').value <= IndexOfChar(s, '{').value
  {
    var first, last := IndexOfChar(s, '{'), LastIndexOfChar(s, '}');
    if first.Some? && last.Some? && last.value > first.value then Some(s[first.value..last.value + 1])
    else None
  }

  /** Prose around a braced text is ignored. */
  lemma BraceCandidateOf(pre: string, mid: string, post: string)
    requires '{' !in pre && '}' !in post
    ensures BraceCandidate(pre + "{" + mid + "}" + post) == Some("{" + mid + "}")
  {
    var b := "{" + mid + "}";
    var s := pre + b + post;
    var f, l := |pre|, |pre| + |b| - 1;
    assert s == pre + "{" + mid + "}" + post;
    ThreeParts(pre, b, post);
    assert b[0] == '{' && b[|b| - 1] == '}';
    BraceCandidateAt(s, f, l);
  }

  /** The three parts of a concatenation, read back by slicing. */
  lemma ThreeParts(a: string, b: string, c: string)
    ensures var s := a + b + c; s[..|a|] == a && s[|a|..|a| + |b|] == b && s[|a| + |b|..] == c
  {
  }

  /** The braces found are the first `{` and the last `}`. */
  lemma BraceCandidateAt(s: string, f: nat, l: nat)
    requires f < l < |s| && s[f] == '{' && '{' !in s[..f] && s[l] == '}' && '}' !in s[l + 1..]
    ensures BraceCandidate(s) == Some(s[f..l + 1])
  {
    FirstIndexIs(s, '{', f);
    LastIndexIs(s, '}', l);
  }

  /** The first occurrence of `c` is where `c` occurs with none before. */
  lemma FirstIndexIs(s: string, c: char, f: nat)
    requires f < |s| && s[f] == c && c !in s[..f]
    ensures IndexOfChar(s, c) == Some(f)
  {
    var r := IndexOfChar(s, c).value;
    assert forall j :: 0 <= j < f ==> s[..f][j] == s[j];
    assert forall j :: 0 <= j < r ==> s[..r][j] == s[j];
  }

  /** The last occurrence of `c` is where `c` occurs with none after. */
  lemma LastIndexIs(s: string, c: char, l: nat)
    requires l < |s| && s[l] == c && c !in s[l + 1..]
    ensures LastIndexOfChar(s, c) == Some(l)
  {
    var r := LastIndexOfChar(s, c).value;
    assert forall j :: l < j < |s| ==> s[l + 1..][j - l - 1] == s[j];
    assert forall j :: r < j < |s| ==> s[r + 1..][j - r - 1] == s[j];
  }

  /** `safeParseAiJson(text)`: `None` stands for the `null` it returns after
      logging. */
  function SafeParseAiJson(text: Js, parse: string -> Option<Js>): (r: Option<Js>)
    ensures !text.Str? || text.s == "" ==> r == None
    ensures text.Str? && text.s != "" && parse(Trim(text.s)).Some? ==> r == parse(Trim(text.s))
    ensures text.Str? && text.s != "" && parse(Trim(text.s)).None? && FenceBody(Trim(text.s)).None? ==>
              r == if BraceCandidate(Trim(text.s)).Some? then parse(StripTrailingCommas(BraceCandidate(Trim(text.s)).value)) else None
  {
    if !Truthy(text) || !text.Str? then None
    else
      var clean := Trim(text.s);
      if parse(clean).Some? then parse(clean)
      else
        var fence := FenceBody(clean);
        if fence.Some? && fence.value != "" && parse(Trim(fence.value)).Some? then parse(Trim(fence.value))
        else
          var candidate := BraceCandidate(clean);
          if candidate.Some? then parse(StripTrailingCommas(candidate.value)) else None
  }

  /** A text that starts and ends with a non-space character trims to itself. */
  lemma TrimKeeps(s: string)
    requires s != [] && !IsSpace(s[0]) && !IsSpace(s[|s| - 1])
    ensures Trim(s) == s
  {
  }

  /** A reply that is exactly a tagged code fence is parsed from the fence's
      contents when it does not parse as a whole. */
  lemma FencedReplyParsed(inner: string, parse: string -> Option<Js>)
    requires forall i :: 0 <= i < |inner| ==> inner[i] != '`'
    requires Trim(inner) != [] && parse(Trim(inner)).Some?
    requires parse("```json" + inner + "```").None?
    ensures SafeParseAiJson(Str("```json" + inner + "```"), parse) == parse(Trim(inner))
  {
    TrimmedParse(inner, parse);
    TrimmedFenceBody(inner);
    TrimOfTrimmed(inner);
    FenceStep("```json" + inner + "```", Trim(inner), parse);
  }

  /** The fence's contents of a trimmed tagged fence. */
  lemma TrimmedFenceBody(inner: string)
    requires forall i :: 0 <= i < |inner| ==> inner[i] != '`'
    ensures FenceBody(Trim("```json" + inner + "```")) == Some(Trim(inner))
  {
    TrimmedFence(inner);
    FencedTextBody(inner);
  }

  /** Parsing a trimmed fenced text parses the text itself. */
  lemma TrimmedParse(inner: string, parse: string -> Option<Js>)
    ensures parse(Trim("```json" + inner + "```")) == parse("```json" + inner + "```")
  {
    FencedTextTrimmed(inner);
  }

  /** The fence of a trimmed fenced text is the text's own fence. */
  lemma TrimmedFence(inner: string)
    ensures FenceBody(Trim("```json" + inner + "```")) == FenceBody("```json" + inner + "```")
  {
    FencedTextTrimmed(inner);
  }

  /** A fenced text starts and ends with a backtick, so trimming keeps it. */
  lemma FencedTextTrimmed(inner: string)
    ensures Trim("```json" + inner + "```") == "```json" + inner + "```"
  {
    var s := "```json" + inner + "```";
    assert s[0] == '`' && s[|s| - 1] == '`';
    TrimKeeps(s);
  }

  /** The fence's contents of a tagged fence are its trimmed inner text. */
  lemma FencedTextBody(inner: string)
    requires forall i :: 0 <= i < |inner| ==> inner[i] != '`'
    ensures FenceBody("```json" + inner + "```") == Some(Trim(inner))
  {
    assert "" + "```json" + inner + "```" + "" == "```json" + inner + "```";
    FenceBodyTagged("", inner, "");
  }

  /** The second attempt: a reply that does not parse whole but has a
      non-empty fence that does gives the fence's value. */
  lemma FenceStep(s: string, body: string, parse: string -> Option<Js>)
    requires s != "" && parse(Trim(s)).None?
    requires FenceBody(Trim(s)) == Some(body) && body != "" && parse(Trim(body)).Some?
    ensures SafeParseAiJson(Str(s), parse) == parse(Trim(body))
  {
    assert Truthy(Str(s));
  }

  lemma TrimOfTrimmed(s: string)
    ensures Trim(Trim(s)) == Trim(s)
  {
    var t := Trim(s);
    if t != [] { TrimKeeps(t); }
  }

  /** A reply with one braced object inside prose, no code fence and no
      direct parse is parsed from the braces on, trailing commas removed. */
  lemma BracedReplyParsed(pre: string, mid: string, post: string, parse: string -> Option<Js>)
    requires '{' !in pre && '}' !in post
    requires forall i :: 0 <= i < |pre + "{" + mid + "}" + post| ==> (pre + "{" + mid + "}" + post)[i] != '`'
    requires pre == [] || !IsSpace(pre[0])
    requires post == [] || !IsSpace(post[|post| - 1])
    requires parse(pre + "{" + mid + "}" + post).None?
    ensures SafeParseAiJson(Str(pre + "{" + mid + "}" + post), parse) == parse(StripTrailingCommas("{" + mid + "}"))
  {
    var s := pre + "{" + mid + "}" + post;
    assert s[0] == (if pre == [] then '{' else pre[0]);
    assert s[|s| - 1] == (if post == [] then '}' else post[|post| - 1]);
    TrimKeeps(s);
    FenceAbsent(s, 0);
    BraceCandidateOf(pre, mid, post);
  }

  /** The third attempt: a reply that does not parse whole and has no
      fence that parses is parsed from its braces, or gives `None`. */
  lemma BraceStep(s: string, parse: string -> Option<Js>)
    requires s != "" && parse(Trim(s)).None?
    requires var f := FenceBody(Trim(s)); f.None? || f.value == "" || parse(Trim(f.value)).None?
    ensures SafeParseAiJson(Str(s), parse)
            == if BraceCandidate(Trim(s)).Some? then parse(StripTrailingCommas(BraceCandidate(Trim(s)).value)) else None
  {
    assert Truthy(Str(s));
  }

  /** The braces of a fenced reply are found inside the fence. */
  lemma FencedBraceCandidate(pre: string, mid: string, post: string)
    requires '{' !in pre && '}' !in post
    ensures BraceCandidate("```json" + (pre + "{" + mid + "}" + post) + "```") == Some("{" + mid + "}")
  {
    var head, tail := "```json" + pre, post + "```";
    assert "```json" + (pre + "{" + mid + "}" + post) + "```" == head + "{" + mid + "}" + tail;
    assert forall i :: 0 <= i < |head| ==> head[i] != '{' by {
      forall i | 0 <= i < |head| ensures head[i] != '{' {
        if i >= 7 { assert head[i] == pre[i - 7]; }
      }
    }
    assert forall i :: 0 <= i < |tail| ==> tail[i] != '}' by {
      forall i | 0 <= i < |tail| ensures tail[i] != '}' {
        if i < |post| { assert tail[i] == post[i]; }
      }
    }
    BraceCandidateOf(head, mid, tail);
  }

  /** A tagged fence whose contents do not parse falls back to the braces
      of the whole reply. */
  lemma UnparsedFenceUsesBraces(pre: string, mid: string, post: string, parse: string -> Option<Js>)
    requires forall i :: 0 <= i < |pre + "{" + mid + "}" + post| ==> (pre + "{" + mid + "}" + post)[i] != '`'
    requires '{' !in pre && '}' !in post
    requires parse("```json" + (pre + "{" + mid + "}" + post) + "```").None?
    requires parse(Trim(pre + "{" + mid + "}" + post)).None?
    ensures SafeParseAiJson(Str("```json" + (pre + "{" + mid + "}" + post) + "```"), parse)
            == parse(StripTrailingCommas("{" + mid + "}"))
  {
    FencedBraceCandidate(pre, mid, post);
    UnparsedFenceFallback(pre + "{" + mid + "}" + post, "{" + mid + "}", parse);
  }

  /** The same for any fence contents and the braces found around them. */
  lemma UnparsedFenceFallback(inner: string, braced: string, parse: string -> Option<Js>)
    requires forall i :: 0 <= i < |inner| ==> inner[i] != '`'
    requires parse("```json" + inner + "```").None? && parse(Trim(inner)).None?
    requires BraceCandidate("```json" + inner + "```") == Some(braced)
    ensures SafeParseAiJson(Str("```json" + inner + "```"), parse) == parse(StripTrailingCommas(braced))
  {
    TrimmedParse(inner, parse);
    TrimmedFenceBody(inner);
    TrimOfTrimmed(inner);
    TrimmedBraces(inner);
    BraceStep("```json" + inner + "```", parse);
  }

  /** The braces of a trimmed fenced text are the text's own braces. */
  lemma TrimmedBraces(inner: string)
    ensures BraceCandidate(Trim("```json" + inner + "```")) == BraceCandidate("```json" + inner + "```")
  {
    FencedTextTrimmed(inner);
  }

  /** A reply with no fence, no opening brace and no direct parse gives `None`. */
  lemma ProseReplyIsNull(text: string, parse: string -> Option<Js>)
    requires forall i :: 0 <= i < |Trim(text)| ==> Trim(text)[i] != '`' && Trim(text)[i] != '{'
    requires parse(Trim(text)).None?
    ensures SafeParseAiJson(Str(text), parse) == None
  {
    FenceAbsent(Trim(text), 0);
  }
}
