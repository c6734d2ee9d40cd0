/** The regular expressions of the two type-stripping scripts, each written out
    as a matcher over the rest of the line (the length of the match at its
    start, if there is one), and `re.sub` over such a matcher. Each matcher
    follows the backtracking order of Python's `re` for its pattern; the
    pattern itself is quoted in the comment above it. */
module TsPatterns {
  import opened Common

  /** The length of the match at the start of a text, if the pattern matches there. */
  type Matcher = string -> Option<nat>

  /** The length of a usable match at the start of `t`, 0 for none. */
  function MatchLen(t: string, m: Matcher): (n: nat)
    ensures n <= |t|
  {
    match m(t)
    case Some(k) => if k <= |t| then k else 0
    case None => 0
  }

  /** `re.sub(pattern, rep, t)` for a pattern that never matches the empty
      string: scan left to right, replace each match and resume after it. */
  function Sub(t: string, m: Matcher, rep: string): string
    decreases |t|
  {
    if t == [] then []
    else
      var n := MatchLen(t, m);
      if n > 0 then rep + Sub(t[n..], m, rep) else [t[0]] + Sub(t[1..], m, rep)
  }

  /** A substitution whose replacement has no newline adds none. */
  lemma {:induction false} SubKeepsNoNewline(t: string, m: Matcher, rep: string)
    ensures '\n' !in t && '\n' !in rep ==> '\n' !in Sub(t, m, rep)
    decreases |t|
  {
    if t != [] && '\n' !in t && '\n' !in rep {
      var n := MatchLen(t, m);
      if n > 0 {
        SubKeepsNoNewline(t[n..], m, rep);
      } else {
        SubKeepsNoNewline(t[1..], m, rep);
      }
    }
  }

  /** A substitution whose every match is at least as long as the replacement
      never makes the text longer. */
  lemma {:induction false} SubShrinks(t: string, m: Matcher, rep: string)
    requires forall u: string :: MatchLen(u, m) == 0 || MatchLen(u, m) >= |rep|
    ensures |Sub(t, m, rep)| <= |t|
    decreases |t|
  {
    if t != [] {
      var n := MatchLen(t, m);
      if n > 0 {
        SubShrinks(t[n..], m, rep);
      } else {
        SubShrinks(t[1..], m, rep);
      }
    }
  }

  /** A substitution whose pattern matches nowhere leaves the text as it is. */
  lemma {:induction false} SubNoMatch(t: string, m: Matcher, rep: string)
    requires forall i :: 0 <= i < |t| ==> MatchLen(t[i..], m) == 0
    ensures Sub(t, m, rep) == t
    decreases |t|
  {
    if t != [] {
      assert MatchLen(t[0..], m) == 0;
      assert t[0..] == t;
      forall i | 0 <= i < |t[1..]| ensures MatchLen(t[1..][i..], m) == 0 {
        assert t[1..][i..] == t[i + 1..];
      }
      SubNoMatch(t[1..], m, rep);
    }
  }

  /** No match of `m` starts at any of the first `n` positions of `t`. */
  predicate NoMatchBefore(t: string, m: Matcher, n: nat)
    requires n <= |t|
  {
    forall i :: 0 <= i < n ==> MatchLen(t[i..], m) == 0
  }

  /** Every match of `m` starts with the character `c`. */
  ghost predicate StartsWithAll(m: Matcher, c: char)
  {
    forall u: string :: MatchLen(u, m) > 0 ==> u[0] == c
  }

  /** Every match of `m` holds the character `c` at offset `off`. */
  ghost predicate HoldsCharAt(m: Matcher, c: char, off: nat)
  {
    forall u: string :: MatchLen(u, m) > 0 ==> off < |u| && u[off] == c
  }

  /** A text without the character every match holds is left as it is. */
  lemma SubWithoutCharAt(t: string, m: Matcher, rep: string, c: char, off: nat)
    requires HoldsCharAt(m, c, off) && c !in t
    ensures Sub(t, m, rep) == t
  {
    SubCharOnlyBefore(t, m, rep, c, off);
  }

  /** A text whose every occurrence of the character every match holds at
      `off` comes before `off` is left as it is. */
  lemma SubCharOnlyBefore(t: string, m: Matcher, rep: string, c: char, off: nat)
    requires HoldsCharAt(m, c, off) && forall j :: 0 <= j < |t| && t[j] == c ==> j < off
    ensures Sub(t, m, rep) == t
  {
    forall i | 0 <= i < |t| ensures MatchLen(t[i..], m) == 0 {
      if i + off < |t| {
        assert t[i..][off] == t[i + off];
      }
    }
    SubNoMatch(t, m, rep);
  }

  /** `re.sub` copies a head in which no match starts, and goes on after it
      as on the rest alone. */
  lemma {:induction false} SubSkips(a: string, x: string, m: Matcher, rep: string)
    requires NoMatchBefore(a + x, m, |a|)
    ensures Sub(a + x, m, rep) == a + Sub(x, m, rep)
    decreases |a|
  {
    if a == [] {
      assert a + x == x;
    } else {
      var t := a + x;
      assert t[0..] == t;
      assert t[1..] == a[1..] + x;
      forall i | 0 <= i < |a[1..]| ensures MatchLen((a[1..] + x)[i..], m) == 0 {
        assert (a[1..] + x)[i..] == t[i + 1..];
      }
      SubSkips(a[1..], x, m, rep);
      assert [a[0]] + (a[1..] + Sub(x, m, rep)) == a + Sub(x, m, rep);
    }
  }

  /** A head without the character every match starts with is copied. */
  lemma SubSkipsChar(a: string, x: string, m: Matcher, rep: string, c: char)
    requires StartsWithAll(m, c) && c !in a
    ensures Sub(a + x, m, rep) == a + Sub(x, m, rep)
  {
    forall i | 0 <= i < |a| ensures MatchLen((a + x)[i..], m) == 0 {
      assert (a + x)[i..][0] == a[i];
    }
    SubSkips(a, x, m, rep);
  }

  /** A text without the character every match starts with is left as it is. */
  lemma SubWithoutChar(t: string, m: Matcher, rep: string, c: char)
    requires StartsWithAll(m, c) && c !in t
    ensures Sub(t, m, rep) == t
  {
    SubSkipsChar(t, [], m, rep, c);
    assert t + [] == t;
  }

  /** Where no match starts, the first character is copied. */
  lemma SubUnmatched(c: char, z: string, m: Matcher, rep: string)
    requires m([c] + z) == None
    ensures Sub([c] + z, m, rep) == [c] + Sub(z, m, rep)
  {
    assert MatchLen([c] + z, m) == 0;
    assert ([c] + z)[1..] == z;
  }

  /** A match at the start is replaced, and the scan resumes after it. */
  lemma SubMatched(x: string, m: Matcher, rep: string, n: nat)
    requires n > 0 && m(x) == Some(n) && n <= |x|
    ensures Sub(x, m, rep) == rep + Sub(x[n..], m, rep)
  {
    assert MatchLen(x, m) == n;
  }

  /** When the replacement lets no `q` form across its edges, a substituted
      text starts with a proper suffix of `q` only if the original does. */
  lemma {:induction false} SubStartsWith(t: string, m: Matcher, rep: string, q: string, k: nat)
    requires 0 < k <= |q| && SeamFree(q, rep)
    ensures StartsWith(Sub(t, m, rep), q[k..]) ==> StartsWith(t, q[k..])
    decreases |t|
  {
    var w := q[k..];
    if w != [] && t != [] {
      var o := Sub(t, m, rep);
      var n := MatchLen(t, m);
      if n > 0 {
        assert o == rep + Sub(t[n..], m, rep);
        if |w| <= |rep| {
          assert o[..|w|] == rep[..|w|];
        } else {
          var head, oh := w[..|rep|], o[..|rep|];
          assert oh == rep;
          assert StartsWith(o, w) ==> head == oh;
        }
      } else {
        var o' := Sub(t[1..], m, rep);
        assert o == [t[0]] + o';
        assert q[k + 1..] == w[1..];
        assert w == [w[0]] + w[1..];
        SubStartsWith(t[1..], m, rep, q, k + 1);
        if |w| <= |o| {
          assert o[..|w|] == [t[0]] + o'[..|w| - 1];
        }
        if |w| <= |t| {
          assert t[..|w|] == [t[0]] + t[1..][..|w| - 1];
        }
      }
    }
  }

  /** A character copied in front of a substituted tail forms no `q` when
      the text held none. */
  lemma NoneAfterSubCopy(t: string, m: Matcher, rep: string, q: string)
    requires t != [] && q != [] && SeamFree(q, rep) && !Contains(t, q)
    requires !Contains(Sub(t[1..], m, rep), q)
    ensures !Contains([t[0]] + Sub(t[1..], m, rep), q)
  {
    var o' := Sub(t[1..], m, rep);
    var o := [t[0]] + o';
    forall i: nat | i <= |o|
      ensures !OccursAt(o, q, i)
    {
      if i == 0 {
        if OccursAt(o, q, 0) {
          HeadOccurrence(t[0], o', q);
          SubStartsWith(t[1..], m, rep, q, 1);
          HeadJoined(t, q);
          assert false;
        }
      } else if OccursAt(o, q, i) {
        OccurrenceAfterHead(t[0], o', q, i);
        assert false;
      }
    }
  }

  /** `re.sub` with a replacement that lets no `q` form brings in no `q`. */
  lemma {:induction false} NoneAfterSub(t: string, m: Matcher, rep: string, q: string)
    requires q != [] && SeamFree(q, rep) && !Contains(t, q)
    ensures !Contains(Sub(t, m, rep), q)
    decreases |t|
  {
    if t != [] {
      var n := MatchLen(t, m);
      if n > 0 {
        AbsentFromSuffix(t, q, n);
        NoneAfterSub(t[n..], m, rep, q);
        NoneAcrossReplacement(rep, Sub(t[n..], m, rep), q);
      } else {
        AbsentFromSuffix(t, q, 1);
        NoneAfterSub(t[1..], m, rep, q);
        NoneAfterSubCopy(t, m, rep, q);
      }
    }
  }

  // ------------------------------------------------------------------
  // Runs of characters
  // ------------------------------------------------------------------

  /** Length of the leading run of `\s`. */
  function WsLen(t: string): (n: nat)
    ensures n <= |t|
    ensures forall i :: 0 <= i < n ==> IsSpace(t[i])
    ensures n == |t| || !IsSpace(t[n])
    decreases |t|
  {
    if t != [] && IsSpace(t[0]) then 1 + WsLen(t[1..]) else 0
  }

  /** Length of the leading run of `\w`. */
  function WordLen(t: string): (n: nat)
    ensures n <= |t|
    ensures forall i :: 0 <= i < n ==> IsWordChar(t[i])
    ensures n == |t| || !IsWordChar(t[n])
    decreases |t|
  {
    if t != [] && IsWordChar(t[0]) then 1 + WordLen(t[1..]) else 0
  }

  /** The class `[\w.]`. */
  predicate IsWordOrDot(c: char) { IsWordChar(c) || c == '.' }

  function WordOrDotLen(t: string): (n: nat)
    ensures n <= |t|
    ensures n == |t| || !IsWordOrDot(t[n])
    decreases |t|
  {
    if t != [] && IsWordOrDot(t[0]) then 1 + WordOrDotLen(t[1..]) else 0
  }

  /** The class `[\w<>\[\]\|]`. */
  predicate IsCastChar(c: char) { IsWordChar(c) || c == '<' || c == '>' || c == '[' || c == ']' || c == '|' }

  function CastLen(t: string): (n: nat)
    ensures n <= |t|
    decreases |t|
  {
    if t != [] && IsCastChar(t[0]) then 1 + CastLen(t[1..]) else 0
  }

  /** The first `>` at or after `k` that `.*?` can reach (it stops at a newline). */
  function FirstClose(t: string, k: nat): (q: Option<nat>)
    ensures q.Some? ==> k <= q.value < |t| && t[q.value] == '>'
    decreases |t| - k
  {
    if k >= |t| || t[k] == '\n' then None
    else if t[k] == '>' then Some(k)
    else FirstClose(t, k + 1)
  }

  // ------------------------------------------------------------------
  // Declaration lines:  ^\s*(export\s+)?(interface|type)\s+\w+
  // ------------------------------------------------------------------

  /** `re.match` of the declaration pattern (anchored at the start of the line). */
  predicate IsDeclLine(line: string)
  {
    var a := WsLen(line);
    var b := if OccursAt(line, "export", a) && WsLen(line[a + 6..]) > 0
             then a + 6 + WsLen(line[a + 6..]) else a;
    var c := if OccursAt(line, "interface", b) then b + 9
             else if OccursAt(line, "type", b) then b + 4 else 0;
    c > 0 && WsLen(line[c..]) > 0 && c + WsLen(line[c..]) < |line| && IsWordChar(line[c + WsLen(line[c..])])
  }

  // ------------------------------------------------------------------
  // Generic arguments of a hook call:  useState<.*?>  and  useRef<.*?>
  // ------------------------------------------------------------------

  function HookGeneric(hook: string, t: string): (r: Option<nat>)
    ensures r.Some? ==> |hook| + 2 <= r.value <= |t| && t[|hook|] == '<'
    ensures r.Some? ==> OccursAt(t, hook + "<", 0)
  {
    if OccursAt(t, hook + "<", 0) then
      match FirstClose(t, |hook| + 1)
      case Some(q) => Some(q + 1)
      case None => None
    else None
  }

  /** `.*?>` stops at the first `>` when no newline comes before it. */
  lemma {:induction false} FirstCloseAt(t: string, k: nat, j: nat)
    requires k <= j < |t| && t[j] == '>'
    requires forall i :: k <= i < j ==> t[i] != '>' && t[i] != '\n'
    ensures FirstClose(t, k) == Some(j)
    decreases j - k
  {
    if k < j {
      FirstCloseAt(t, k + 1, j);
    }
  }

  /** A hook's type arguments, free of `>` and newlines, are matched up to and
      including their closing `>`. */
  lemma HookMatch(hook: string, ty: string, b: string)
    requires '>' !in ty && '\n' !in ty
    ensures HookGeneric(hook, hook + "<" + ty + ">" + b) == Some(|hook| + |ty| + 2)
  {
    var t := hook + "<" + ty + ">" + b;
    assert t[..|hook| + 1] == hook + "<";
    forall i | |hook| + 1 <= i < |hook| + 1 + |ty| ensures t[i] != '>' && t[i] != '\n' {
      assert t[i] == ty[i - |hook| - 1];
    }
    FirstCloseAt(t, |hook| + 1, |hook| + 1 + |ty|);
  }

  /** `\s*` takes a whole whitespace run that a non-space character ends. */
  lemma {:induction false} WsRun(w: string, b: string)
    requires (forall i :: 0 <= i < |w| ==> IsSpace(w[i])) && (b == [] || !IsSpace(b[0]))
    ensures WsLen(w + b) == |w|
    decreases |w|
  {
    if w == [] {
      assert w + b == b;
    } else {
      assert (w + b)[1..] == w[1..] + b;
      WsRun(w[1..], b);
    }
  }

  /** Every character is a word character (`\w`). */
  predicate Word(w: string) { forall i :: 0 <= i < |w| ==> IsWordChar(w[i]) }

  /** `\w+` takes a whole word that a non-word character ends. */
  lemma {:induction false} WordRun(w: string, b: string)
    requires Word(w) && (b == [] || !IsWordChar(b[0]))
    ensures WordLen(w + b) == |w|
    decreases |w|
  {
    if w == [] {
      assert w + b == b;
    } else {
      assert (w + b)[1..] == w[1..] + b;
      WordRun(w[1..], b);
    }
  }

  /** `[\w.]+` takes a whole word that neither a word character nor a dot
      follows. */
  lemma {:induction false} WordOrDotRun(w: string, b: string)
    requires Word(w) && (b == [] || !IsWordOrDot(b[0]))
    ensures WordOrDotLen(w + b) == |w|
    decreases |w|
  {
    if w == [] {
      assert w + b == b;
    } else {
      assert (w + b)[1..] == w[1..] + b;
      WordOrDotRun(w[1..], b);
    }
  }

  /** `[\w<>\[\]\|]+` takes a whole run of its class that a character
      outside it ends. */
  lemma {:induction false} CastRun(w: string, b: string)
    requires (forall i :: 0 <= i < |w| ==> IsCastChar(w[i])) && (b == [] || !IsCastChar(b[0]))
    ensures CastLen(w + b) == |w|
    decreases |w|
  {
    if w == [] {
      assert w + b == b;
    } else {
      assert (w + b)[1..] == w[1..] + b;
      CastRun(w[1..], b);
    }
  }

  // ------------------------------------------------------------------
  // Type parameters before a call:  <\s*[A-Z]\w*\s*>(?=\s*\()
  // ------------------------------------------------------------------

  function GenericBeforeParen(t: string): (r: Option<nat>)
    ensures r.Some? ==> 3 <= r.value <= |t| && t[0] == '<' && t[r.value - 1] == '>'
  {
    if t == [] || t[0] != '<' then None
    else
      var a := 1 + WsLen(t[1..]);
      if a >= |t| || !IsUpper(t[a]) then None
      else
        var b := a + 1 + WordLen(t[a + 1..]);
        var c := b + WsLen(t[b..]);
        if c >= |t| || t[c] != '>' then None
        else
          var d := c + 1 + WsLen(t[c + 1..]);
          if d < |t| && t[d] == '(' then Some(c + 1) else None
  }

  // ------------------------------------------------------------------
  // Type assertions:  \s+as\s+[A-Z]<class>+
  // ------------------------------------------------------------------

  /** The assertion pattern; `wide` selects the class `[\w<>\[\]\|]` of
      transform_ts.py, otherwise the class is `\w` as in strip_types.py. */
  function AsCast(t: string, wide: bool): (r: Option<nat>)
    ensures r.Some? ==> 6 <= r.value <= |t| && IsSpace(t[0])
  {
    var w1 := WsLen(t);
    if w1 == 0 || !OccursAt(t, "as", w1) then None
    else
      var w2 := WsLen(t[w1 + 2..]);
      var k := w1 + 2 + w2;
      if w2 == 0 || k >= |t| || !IsUpper(t[k]) then None
      else
        var run := if wide then CastLen(t[k + 1..]) else WordLen(t[k + 1..]);
        if run == 0 then None else Some(k + 1 + run)
  }

  /** No whitespace character is directly followed by `a`, so no type
      assertion can start anywhere. */
  predicate NoSpaceThenA(line: string)
  {
    forall j :: 0 < j < |line| && IsSpace(line[j - 1]) ==> line[j] != 'a'
  }

  /** No assertion starts in a head where no whitespace is followed by `a`
      and that does not end in whitespace, whatever comes after it. */
  lemma NoCastStartsIn(a: string, x: string, wide: bool)
    requires NoSpaceThenA(a) && (a == [] || !IsSpace(a[|a| - 1]))
    ensures forall i :: 0 <= i < |a| ==> AsCast((a + x)[i..], wide) == None
  {
    forall i | 0 <= i < |a| ensures AsCast((a + x)[i..], wide) == None {
      var t := (a + x)[i..];
      var w1 := WsLen(t);
      assert t[|a| - 1 - i] == a[|a| - 1];
      assert w1 < |a| - i;
      if 0 < w1 && w1 + 2 <= |t| {
        assert t[w1..w1 + 2][0] == t[w1];
        assert a[i + w1] == t[w1] && a[i + w1 - 1] == t[w1 - 1];
      }
    }
  }

  /** A line where no whitespace is followed by `a` holds no assertion. */
  lemma NoCastIn(line: string, wide: bool)
    requires NoSpaceThenA(line)
    ensures forall i :: 0 <= i < |line| ==> AsCast(line[i..], wide) == None
  {
    forall i | 0 <= i < |line| ensures AsCast(line[i..], wide) == None {
      var t := line[i..];
      var w1 := WsLen(t);
      if 0 < w1 && w1 + 2 <= |t| {
        assert t[w1..w1 + 2][0] == t[w1];
        assert line[i + w1] == t[w1] && line[i + w1 - 1] == t[w1 - 1];
      }
    }
  }

  // ------------------------------------------------------------------
  // Router links:  <Link\s+to=
  // ------------------------------------------------------------------

  function LinkTo(t: string): (r: Option<nat>)
    ensures r.Some? ==> 9 <= r.value <= |t| && t[0] == '<'
  {
    if !OccursAt(t, "<Link", 0) then None
    else
      var w := WsLen(t[5..]);
      if w > 0 && OccursAt(t, "to=", 5 + w) then Some(5 + w + 3) else None
  }

  // ------------------------------------------------------------------
  // Annotations of transform_ts.py:
  //   :\s*(string|number|boolean|any|void|unknown|never|ChatMessage|Mode|
  //        AppMode|GenerationPayload|HTML\w+Element|React\.\w+(<.*?>)?|
  //        [\w.]+(<.*?>)?(\[\])?)(?=[,;)\s}=]|$)
  // ------------------------------------------------------------------

  /** The lookahead `(?=[,;)\s}=]|$)`. */
  predicate TsFollow(t: string, k: nat)
  {
    k == |t| || (k < |t| && (t[k] in ",;)}=" || IsSpace(t[k])))
  }

  /** The first named alternative that matches at `a` and is followed by the lookahead. */
  function NamedTs(t: string, a: nat, names: seq<string>): (r: Option<nat>)
    ensures r.Some? ==> a <= r.value <= |t| && TsFollow(t, r.value)
  {
    if names == [] then None
    else if OccursAt(t, names[0], a) && TsFollow(t, a + |names[0]|) then Some(a + |names[0]|)
    else NamedTs(t, a, names[1..])
  }

  /** `<.*?>` followed by the lookahead, with `(\[\])?` between them when
      `arrays`: the first `>` at or after `q` for which the rest matches. */
  function LazyCloseTs(t: string, q: nat, arrays: bool): (r: Option<nat>)
    ensures r.Some? ==> q < r.value <= |t| && TsFollow(t, r.value)
    decreases |t| - q
  {
    if q >= |t| || t[q] == '\n' then None
    else if t[q] == '>' && arrays && OccursAt(t, "[]", q + 1) && TsFollow(t, q + 3) then Some(q + 3)
    else if t[q] == '>' && TsFollow(t, q + 1) then Some(q + 1)
    else LazyCloseTs(t, q + 1, arrays)
  }

  const TsTypeNames: seq<string> :=
    ["string", "number", "boolean", "any", "void", "unknown", "never",
     "ChatMessage", "Mode", "AppMode", "GenerationPayload"]

  function AnnotationTs(t: string): (r: Option<nat>)
    ensures r.Some? ==> 1 < r.value <= |t| && t[0] == ':' && TsFollow(t, r.value)
  {
    if t == [] || t[0] != ':' then None
    else
      var a := 1 + WsLen(t[1..]);
      var named := NamedTs(t, a, TsTypeNames);
      if named.Some? && named.value > a then named
      else
        var html := HtmlElementAlternative(t, a);
        if html.Some? then html
        else
          var react := ReactAlternative(t, a);
          if react.Some? then react else DottedAlternative(t, a)
  }

  /** A character the lookahead accepts ends every run of the type classes. */
  lemma FollowEndsRuns(t: string, k: nat)
    requires TsFollow(t, k) && k < |t|
    ensures !IsWordOrDot(t[k]) && t[k] != '<' && t[k] != '['
  {
  }

  /** No named alternative reaches past the end of a word run, as every
      name is itself a word. */
  lemma {:induction false} NamedTsWithin(t: string, a: nat, names: seq<string>, n: nat)
    requires a <= n <= |t| && (n == |t| || !IsWordChar(t[n]))
    requires forall k :: 0 <= k < |names| ==> Word(names[k])
    ensures NamedTs(t, a, names).Some? ==> NamedTs(t, a, names).value <= n
    decreases |names|
  {
    if names != [] {
      var w := names[0];
      if OccursAt(t, w, a) && TsFollow(t, a + |w|) {
        assert Word(w);
        assert forall j :: a <= j < a + |w| ==> t[j] == t[a..a + |w|][j - a];
      } else {
        NamedTsWithin(t, a, names[1..], n);
      }
    }
  }

  lemma TsTypeNamesAreWords()
    ensures forall k :: 0 <= k < |TsTypeNames| ==> Word(TsTypeNames[k])
  {
    LowerTypeNamesAreWords();
    UpperTypeNamesAreWords();
  }

  lemma LowerTypeNamesAreWords()
    ensures Word("string") && Word("number") && Word("boolean") && Word("any")
    ensures Word("void") && Word("unknown") && Word("never")
  {
  }

  lemma UpperTypeNamesAreWords()
    ensures Word("ChatMessage") && Word("Mode") && Word("AppMode") && Word("GenerationPayload")
  {
  }

  /** `React.` is a run of `[\w.]`. */
  lemma ReactPrefixIsWordOrDot()
    ensures forall k :: 0 <= k < |"React."| ==> IsWordOrDot("React."[k])
  {
  }

  /** A word that the lookahead follows is matched whole as an annotation,
      whichever alternative takes it. */
  lemma AnnotationMatched(w: string, b: string)
    requires w != [] && Word(w) && TsFollow(b, 0)
    ensures AnnotationTs(": " + w + b) == Some(2 + |w|)
  {
    var t := ": " + w + b;
    var n := 2 + |w|;
    assert t[0] == ':';
    assert 1 + WsLen(t[1..]) == 2 by { AnnotationSpace(w, b); }
    assert var r := NamedTs(t, 2, TsTypeNames); r.Some? ==> r.value == n
      by { NamedAnnotationWhole(w, b); }
    assert var r := HtmlElementAlternative(t, 2); r.Some? ==> r.value == n
      by { HtmlAnnotationWhole(w, b); }
    assert ReactAlternative(t, 2) == None by { AnnotationNotReact(w, b); }
    assert DottedAlternative(t, 2) == Some(n) by { DottedMatched(w, b); }
    AnnotationOfParts(t, n);
  }

  /** The alternatives of the annotation pattern, tried in order at `a`,
      all end at `n` or fail. */
  lemma AnnotationOfParts(t: string, n: nat)
    requires t != [] && t[0] == ':' && 1 + WsLen(t[1..]) == 2
    requires var r := NamedTs(t, 2, TsTypeNames); r.Some? ==> r.value == n
    requires var r := HtmlElementAlternative(t, 2); r.Some? ==> r.value == n
    requires ReactAlternative(t, 2) == None && DottedAlternative(t, 2) == Some(n)
    ensures AnnotationTs(t) == Some(n)
  {
  }

  lemma NamedAnnotationWhole(w: string, b: string)
    requires w != [] && Word(w) && TsFollow(b, 0)
    ensures var r := NamedTs(": " + w + b, 2, TsTypeNames); r.Some? ==> r.value == 2 + |w|
  {
    var t := ": " + w + b;
    var n := 2 + |w|;
    AnnotationWordFacts(w, b);
    var named := NamedTs(t, 2, TsTypeNames);
    if named.Some? {
      TsTypeNamesAreWords();
      NamedTsWithin(t, 2, TsTypeNames, n);
      if named.value < n {
        assert IsWordChar(t[named.value]);
        FollowEndsRuns(t, named.value);
      }
    }
  }

  lemma HtmlAnnotationWhole(w: string, b: string)
    requires w != [] && Word(w) && TsFollow(b, 0)
    ensures var r := HtmlElementAlternative(": " + w + b, 2); r.Some? ==> r.value == 2 + |w|
  {
    var t := ": " + w + b;
    assert t[2..] == w + b;
    if b != [] {
      FollowEndsRuns(b, 0);
    }
    WordRun(w, b);
  }

  lemma AnnotationSpace(w: string, b: string)
    requires w != [] && Word(w)
    ensures 1 + WsLen((": " + w + b)[1..]) == 2
  {
    assert (": " + w + b)[1..] == " " + (w + b);
    WsRun(" ", w + b);
  }

  lemma AnnotationWordFacts(w: string, b: string)
    requires TsFollow(b, 0)
    ensures forall i :: 2 <= i < 2 + |w| ==> (": " + w + b)[i] == w[i - 2]
    ensures TsFollow(": " + w + b, 2 + |w|)
    ensures 2 + |w| == |": " + w + b| || !IsWordChar((": " + w + b)[2 + |w|])
  {
    var t := ": " + w + b;
    assert t[2 + |w|..] == b;
    if b != [] {
      assert t[2 + |w|] == b[0];
      FollowEndsRuns(b, 0);
    }
  }

  lemma AnnotationNotReact(w: string, b: string)
    requires w != [] && Word(w) && TsFollow(b, 0)
    ensures ReactAlternative(": " + w + b, 2) == None
  {
    var t := ": " + w + b;
    AnnotationWordFacts(w, b);
    ReactPrefixIsWordOrDot();
    if 8 <= |t| {
      if 7 < 2 + |w| {
        assert t[2..8][5] == t[7] == w[5];
      } else {
        var n := 2 + |w|;
        assert t[2..8][n - 2] == t[n];
        FollowEndsRuns(t, n);
      }
    }
  }

  lemma DottedMatched(w: string, b: string)
    requires w != [] && Word(w) && TsFollow(b, 0)
    ensures DottedAlternative(": " + w + b, 2) == Some(2 + |w|)
  {
    var t := ": " + w + b;
    assert t[2..] == w + b;
    if b != [] {
      FollowEndsRuns(b, 0);
    }
    WordOrDotRun(w, b);
    AnnotationWordFacts(w, b);
    if 2 + |w| < |t| {
      FollowEndsRuns(t, 2 + |w|);
    }
  }

  /** The alternative `HTML\w+Element` followed by the lookahead: the word run
      must end in `Element`, as only there can the lookahead hold. */
  function HtmlElementAlternative(t: string, a: nat): (r: Option<nat>)
    ensures r.Some? ==> a < r.value <= |t| && TsFollow(t, r.value)
  {
    var w := if a <= |t| then WordLen(t[a..]) else 0;
    if w >= 12 && OccursAt(t, "HTML", a) && OccursAt(t, "Element", a + w - 7) && TsFollow(t, a + w) then
      Some(a + w)
    else None
  }

  /** The last alternative `[\w.]+(<.*?>)?(\[\])?` followed by the lookahead. */
  function DottedAlternative(t: string, a: nat): (r: Option<nat>)
    ensures r.Some? ==> a < r.value <= |t| && TsFollow(t, r.value)
  {
    var e := if a <= |t| then a + WordOrDotLen(t[a..]) else a;
    if e == a then None
    else if e < |t| && t[e] == '<' then LazyCloseTs(t, e + 1, true)
    else if OccursAt(t, "[]", e) && TsFollow(t, e + 2) then Some(e + 2)
    else if TsFollow(t, e) then Some(e)
    else None
  }

  /** The alternative `React\.\w+(<.*?>)?` followed by the lookahead. */
  function ReactAlternative(t: string, a: nat): (r: Option<nat>)
    ensures r.Some? ==> a < r.value <= |t| && TsFollow(t, r.value)
  {
    if !OccursAt(t, "React.", a) then None
    else
      var w := WordLen(t[a + 6..]);
      var e := a + 6 + w;
      if w == 0 then None
      else if e < |t| && t[e] == '<' then LazyCloseTs(t, e + 1, false)
      else if TsFollow(t, e) then Some(e)
      else None
  }

  // ------------------------------------------------------------------
  // Annotations of strip_types.py
  // ------------------------------------------------------------------

  /** The lookahead `(?=[,;)\s]|$)`. */
  predicate StripFollow(t: string, k: nat)
  {
    k == |t| || (k < |t| && (t[k] in ",;)" || IsSpace(t[k])))
  }

  /** `(<.*?>)?` at `e`: up to the first reachable `>` when there is one, else nothing. */
  function OptionalGeneric(t: string, e: nat): (r: nat)
    requires e <= |t|
    ensures e <= r <= |t|
  {
    if e < |t| && t[e] == '<' then
      match FirstClose(t, e + 1)
      case Some(q) => q + 1
      case None => e
    else e
  }

  /** `:\s*React\.FC(<.*?>)?` */
  function ReactFc(t: string): (r: Option<nat>)
    ensures r.Some? ==> 9 <= r.value <= |t| && t[0] == ':'
  {
    if t == [] || t[0] != ':' then None
    else
      var a := 1 + WsLen(t[1..]);
      if OccursAt(t, "React.FC", a) then Some(OptionalGeneric(t, a + 8)) else None
  }

  /** `:\s*React\.\w+(<.*?>)?` */
  function ReactType(t: string): (r: Option<nat>)
    ensures r.Some? ==> 8 <= r.value <= |t| && t[0] == ':'
  {
    if t == [] || t[0] != ':' then None
    else
      var a := 1 + WsLen(t[1..]);
      if !OccursAt(t, "React.", a) then None
      else
        var w := WordLen(t[a + 6..]);
        if w == 0 then None else Some(OptionalGeneric(t, a + 6 + w))
  }

  const StripTypeNames: seq<string> :=
    ["string", "number", "boolean", "any", "void", "ChatMessage", "Mode", "AppMode", "GenerationPayload"]

  /** The first name, with an optional `[]`, that matches at `a` and is
      followed by the lookahead. */
  function NamedStrip(t: string, a: nat, names: seq<string>): (r: Option<nat>)
    ensures r.Some? ==> a < r.value <= |t| && StripFollow(t, r.value)
  {
    if names == [] then None
    else
      var e := a + |names[0]|;
      if |names[0]| > 0 && OccursAt(t, names[0], a) && OccursAt(t, "[]", e) && StripFollow(t, e + 2) then Some(e + 2)
      else if |names[0]| > 0 && OccursAt(t, names[0], a) && StripFollow(t, e) then Some(e)
      else NamedStrip(t, a, names[1..])
  }

  /** `:\s*(string|number|boolean|any|void|ChatMessage|Mode|AppMode|GenerationPayload)(\[\])?(?=[,;)\s]|$)` */
  function SimpleAnnotation(t: string): (r: Option<nat>)
    ensures r.Some? ==> 1 < r.value <= |t| && t[0] == ':'
    ensures r.Some? ==> r.value == |t| || t[r.value] in ",;)" || IsSpace(t[r.value])
  {
    if t == [] || t[0] != ':' then None
    else NamedStrip(t, 1 + WsLen(t[1..]), StripTypeNames)
  }
}
