/** Values and string operations shared by the whole model: an optional value,
    and the Python / JavaScript string primitives (`split`, `join`, `trim`,
    `replace`, lower-casing, number formatting) that the scripts, the web client
    and the server apply to text. */
module Common {

  datatype Option<T> = None | Some(value: T)

  /** The outcome of code that may throw: its value, or an exception. */
  datatype Result<T> = Ok(value: T) | Thrown

  // ------------------------------------------------------------------
  // Characters
  // ------------------------------------------------------------------

  /** The whitespace class `\s` of Python and JavaScript, restricted to
      space, tab, line feed, carriage return, vertical tab and form feed. */
  predicate IsSpace(c: char)
  {
    c == ' ' || c == '\t' || c == '\n' || c == '\r' || c == '\U{0B}' || c == '\U{0C}'
  }

  /** The word class `\w`, restricted to ASCII. */
  predicate IsWordChar(c: char)
  {
    ('a' <= c <= 'z') || ('A' <= c <= 'Z') || ('0' <= c <= '9') || c == '_'
  }

  predicate IsUpper(c: char) { 'A' <= c <= 'Z' }

  predicate IsLetter(c: char) { ('a' <= c <= 'z') || ('A' <= c <= 'Z') }

  predicate IsDigit(c: char) { '0' <= c <= '9' }

  /** `toLowerCase`, on ASCII letters. */
  function LowerChar(c: char): (r: char)
    ensures IsUpper(c) ==> IsLetter(r) && !IsUpper(r)
    ensures !IsUpper(c) ==> r == c
  {
    if IsUpper(c) then (c as int + 32) as char else c
  }

  function Lower(s: string): (r: string)
    ensures |r| == |s|
    ensures forall i :: 0 <= i < |s| ==> r[i] == LowerChar(s[i])
  {
    seq(|s|, i requires 0 <= i < |s| => LowerChar(s[i]))
  }

  // ------------------------------------------------------------------
  // Substrings
  // ------------------------------------------------------------------

  predicate StartsWith(s: string, p: string) { |p| <= |s| && s[..|p|] == p }

  predicate EndsWith(s: string, p: string) { |p| <= |s| && s[|s| - |p|..] == p }

  /** `p` occurs in `s` starting at index `i`. */
  predicate OccursAt(s: string, p: string, i: nat) { i + |p| <= |s| && s[i..i + |p|] == p }

  lemma AppendAssoc(a: string, b: string, c: string)
    ensures a + b + c == a + (b + c)
  {
  }

  /** JavaScript `s.includes(p)` and Python `p in s`. */
  predicate Contains(s: string, p: string) { exists i: nat | i <= |s| :: OccursAt(s, p, i) }

  function CountChar(s: string, c: char): (n: nat)
    ensures n <= |s|
  {
    if s == [] then 0 else (if s[0] == c then 1 else 0) + CountChar(s[1..], c)
  }

  /** Python `str.replace(p, r)` and JavaScript `replace` with a global literal
      pattern: every leftmost, non-overlapping occurrence of `p` is replaced. */
  function ReplaceAll(s: string, p: string, r: string): string
    requires |p| > 0
    decreases |s|
  {
    if |s| < |p| then s
    else if s[..|p|] == p then r + ReplaceAll(s[|p|..], p, r)
    else [s[0]] + ReplaceAll(s[1..], p, r)
  }

  /** Replacing a pattern that does not occur changes nothing. */
  lemma {:induction false} ReplaceAbsent(s: string, p: string, r: string)
    requires |p| > 0 && !Contains(s, p)
    ensures ReplaceAll(s, p, r) == s
    decreases |s|
  {
    if |s| >= |p| {
      assert !OccursAt(s, p, 0);
      assert s[..|p|] != p;
      forall i: nat | i + |p| <= |s| - 1
        ensures !OccursAt(s[1..], p, i)
      {
        assert s[1..][i..i + |p|] == s[i + 1..i + 1 + |p|];
        assert !OccursAt(s, p, i + 1);
      }
      ReplaceAbsent(s[1..], p, r);
    }
  }

  /** Every character of a pattern that occurs in a text occurs in the text. */
  lemma ContainsCharOf(s: string, p: string, c: char)
    ensures Contains(s, p) && c in p ==> c in s
  {
    if Contains(s, p) && c in p {
      var i: nat :| i <= |s| && OccursAt(s, p, i);
      var j :| 0 <= j < |p| && p[j] == c;
      assert s[i..i + |p|][j] == s[i + j];
    }
  }

  /** Replacing with a text free of `c` adds no `c`. */
  lemma {:induction false} ReplaceKeepsCharAbsent(s: string, p: string, r: string, c: char)
    requires |p| > 0
    ensures c !in s && c !in r ==> c !in ReplaceAll(s, p, r)
    decreases |s|
  {
    if |s| >= |p| && c !in s && c !in r {
      if s[..|p|] == p {
        ReplaceKeepsCharAbsent(s[|p|..], p, r, c);
      } else {
        ReplaceKeepsCharAbsent(s[1..], p, r, c);
      }
    }
  }

  /** Replacing in a text that is exactly the pattern gives the replacement. */
  lemma ReplaceWhole(p: string, r: string)
    requires |p| > 0
    ensures ReplaceAll(p, p, r) == r
  {
    assert p[..|p|] == p && p[|p|..] == [];
    assert r + [] == r;
  }

  /** A text that does not contain `p` has no suffix that contains it. */
  lemma AbsentFromSuffix(s: string, p: string, j: nat)
    requires j <= |s| && !Contains(s, p)
    ensures !Contains(s[j..], p)
  {
    forall i: nat | i <= |s[j..]| && OccursAt(s[j..], p, i)
      ensures false
    {
      assert s[j..][i..i + |p|] == s[j + i..j + i + |p|];
      assert OccursAt(s, p, j + i);
    }
  }

  /** A head `a` in which no occurrence of `p` can start passes through the
      replacement unchanged: `p` does not occur in `a`, and the last character
      of `a` is not in `p`, so no occurrence straddles its end. */
  lemma {:induction false} ReplaceKeepsHead(a: string, t: string, p: string, r: string)
    requires |p| > 0 && a != [] && a[|a| - 1] !in p && !Contains(a, p)
    ensures ReplaceAll(a + t, p, r) == a + ReplaceAll(t, p, r)
    decreases |a|
  {
    if |a + t| < |p| {
      assert |t| < |p|;
    } else {
      HeadCopied(a, t, p, r);
      if |a| > 1 {
        AbsentFromSuffix(a, p, 1);
        ReplaceKeepsHead(a[1..], t, p, r);
      }
      ConsTail(a, ReplaceAll(t, p, r));
    }
  }

  /** The first character of such a head is copied through. */
  lemma HeadCopied(a: string, t: string, p: string, r: string)
    requires |p| > 0 && a != [] && a[|a| - 1] !in p && !Contains(a, p) && |a + t| >= |p|
    ensures ReplaceAll(a + t, p, r) == [a[0]] + ReplaceAll(a[1..] + t, p, r)
  {
    NoMatchAtHead(a, t, p);
    ReplaceCopiesFirst(a + t, p, r);
    assert (a + t)[1..] == a[1..] + t;
  }

  /** A text is its first character followed by the rest. */
  lemma ConsTail(a: string, x: string)
    requires a != []
    ensures [a[0]] + (a[1..] + x) == a + x
    ensures |a| == 1 ==> a[1..] + x == x
  {
    assert a == [a[0]] + a[1..];
  }

  /** Where `p` does not start the text, its first character is copied. */
  lemma ReplaceCopiesFirst(s: string, p: string, r: string)
    requires 0 < |p| <= |s| && s[..|p|] != p
    ensures ReplaceAll(s, p, r) == [s[0]] + ReplaceAll(s[1..], p, r)
  {
  }

  /** A head `a` that holds no `p` and ends with a character outside `p`
      does not start with `p` once text is appended. */
  lemma NoMatchAtHead(a: string, t: string, p: string)
    requires |p| > 0 && a != [] && a[|a| - 1] !in p && !Contains(a, p)
    requires |a + t| >= |p|
    ensures (a + t)[..|p|] != p
  {
    var s := a + t;
    if |p| <= |a| {
      assert s[..|p|] == a[..|p|];
      assert !OccursAt(a, p, 0);
    } else {
      assert s[..|p|][|a| - 1] == a[|a| - 1];
    }
  }

  /** No occurrence of `q` can be formed across the edges of a replacement
      text `r`, nor inside it. */
  predicate SeamFree(q: string, r: string)
  {
    !Contains(r, q)
    && (forall k :: 0 < k < |q| ==> !EndsWith(r, q[..k]))
    && (forall k :: 0 < k < |q| ==> !StartsWith(r, q[k..]) && !StartsWith(q[k..], r))
  }

  /** Character tests that establish `SeamFree`: a character `c` of `q` is
      missing from `r`; the last character of `r` ends no proper prefix of `q`;
      a character `d` of the first two of `r` starts no proper suffix of `q`
      longer than one, and the first of `r` is not the last of `q`. */
  lemma SeamFreeByEnds(q: string, r: string, c: char, d: char)
    requires q != [] && |r| >= 2
    requires c in q && c !in r
    requires r[|r| - 1] !in q[..|q| - 1]
    requires d in r[..2] && d !in q[1..] && r[0] != q[|q| - 1]
    ensures SeamFree(q, r)
  {
    ContainsCharOf(r, q, c);
    forall k | 0 < k < |q|
      ensures !EndsWith(r, q[..k])
    {
      if k <= |r| {
        assert q[..k][k - 1] == q[..|q| - 1][k - 1];
        assert r[|r| - k..][k - 1] == r[|r| - 1];
      }
    }
    forall k | 0 < k < |q|
      ensures !StartsWith(r, q[k..]) && !StartsWith(q[k..], r)
    {
      assert d == r[0] || d == r[1];
      if |q| - k >= 2 {
        assert q[k..][0] == q[1..][k - 1] && q[k..][1] == q[1..][k];
      }
      if |q| - k > |r| {
      } else if |q| - k >= 2 {
        assert forall i :: 0 <= i < 2 ==> q[k..][i] == q[1..][k - 1 + i];
        assert forall i :: 0 <= i < 2 ==> r[..|q[k..]|][i] == r[..2][i];
      } else {
        assert q[k..][0] == q[|q| - 1];
      }
    }
  }

  /** When `r` cannot begin a proper suffix of `q`, a replaced text starts
      with a proper suffix of `q` only if the original text does. */
  lemma {:induction false} ReplacedStartsWith(t: string, p: string, r: string, q: string, k: nat)
    requires |p| > 0 && 0 < k <= |q| && SeamFree(q, r)
    ensures StartsWith(ReplaceAll(t, p, r), q[k..]) ==> StartsWith(t, q[k..])
    decreases |t|
  {
    var w := q[k..];
    if w != [] && |t| >= |p| {
      var o := ReplaceAll(t, p, r);
      if t[..|p|] == p {
        assert o == r + ReplaceAll(t[|p|..], p, r);
        if |w| <= |r| {
          assert o[..|w|] == r[..|w|];
        } else {
          var head, oh := w[..|r|], o[..|r|];
          assert oh == r;
          assert StartsWith(o, w) ==> head == oh;
        }
      } else {
        var o' := ReplaceAll(t[1..], p, r);
        assert o == [t[0]] + o';
        assert q[k + 1..] == w[1..];
        assert w == [w[0]] + w[1..];
        ReplacedStartsWith(t[1..], p, r, q, k + 1);
        if |w| <= |o| {
          assert o[..|w|] == [t[0]] + o'[..|w| - 1];
        }
        if |w| <= |t| {
          assert t[..|w|] == [t[0]] + t[1..][..|w| - 1];
        }
      }
    }
  }

  /** A replacement text that lets no `q` form, followed by a text without
      `q`, contains no `q`. */
  lemma NoneAcrossReplacement(r: string, o: string, q: string)
    requires q != [] && SeamFree(q, r) && !Contains(o, q)
    ensures !Contains(r + o, q)
  {
    var ro := r + o;
    forall i: nat | i <= |ro|
      ensures !OccursAt(ro, q, i)
    {
      if i + |q| <= |r| {
        assert ro[i..i + |q|] == r[i..i + |q|];
        assert !OccursAt(r, q, i);
      } else if i < |r| {
        var k := |r| - i;
        assert !EndsWith(r, q[..k]);
        if i + |q| <= |ro| {
          assert ro[i..i + |q|][..k] == ro[i..|r|];
          assert ro[i..|r|] == r[i..];
        }
      } else if i + |q| <= |ro| {
        assert ro[|r|..] == o;
        assert ro[i..i + |q|] == ro[|r|..][i - |r|..i - |r| + |q|];
        assert !OccursAt(o, q, i - |r|);
      }
    }
  }

  /** A character copied in front of a replaced tail forms no `q`, when the
      text did not start with the pattern and `q` is the pattern or absent. */
  lemma NoneAfterCopy(s: string, p: string, r: string, q: string)
    requires 0 < |p| <= |s| && s[..|p|] != p && q != [] && SeamFree(q, r)
    requires q == p || !Contains(s, q)
    requires !Contains(ReplaceAll(s[1..], p, r), q)
    ensures !Contains([s[0]] + ReplaceAll(s[1..], p, r), q)
  {
    var o' := ReplaceAll(s[1..], p, r);
    var o := [s[0]] + o';
    forall i: nat | i <= |o|
      ensures !OccursAt(o, q, i)
    {
      if i == 0 {
        NoneAtCopiedHead(s, p, r, q);
      } else if OccursAt(o, q, i) {
        OccurrenceAfterHead(s[0], o', q, i);
        assert false;
      }
    }
  }

  /** The copied first character starts no `q`: such a `q` would already
      have started the text. */
  lemma NoneAtCopiedHead(s: string, p: string, r: string, q: string)
    requires 0 < |p| <= |s| && s[..|p|] != p && q != [] && SeamFree(q, r)
    requires q == p || !Contains(s, q)
    ensures !OccursAt([s[0]] + ReplaceAll(s[1..], p, r), q, 0)
  {
    var o' := ReplaceAll(s[1..], p, r);
    if OccursAt([s[0]] + o', q, 0) {
      HeadOccurrence(s[0], o', q);
      ReplacedStartsWith(s[1..], p, r, q, 1);
      HeadJoined(s, q);
      assert false;
    }
  }

  /** A `q` at the start of a text with head `c` starts with `c`, and the
      rest of the text starts with the rest of `q`. */
  lemma HeadOccurrence(c: char, o: string, q: string)
    requires q != [] && OccursAt([c] + o, q, 0)
    ensures c == q[0] && StartsWith(o, q[1..])
  {
    assert ([c] + o)[..|q|][1..] == o[..|q| - 1];
  }

  /** A text whose head is the head of `q`, and whose rest starts with the
      rest of `q`, contains `q` at its start. */
  lemma HeadJoined(s: string, q: string)
    requires s != [] && q != [] && s[0] == q[0] && StartsWith(s[1..], q[1..])
    ensures OccursAt(s, q, 0) && Contains(s, q) && s[..|q|] == q
  {
    assert s[..|q|] == [s[0]] + s[1..][..|q| - 1];
    assert q == [q[0]] + q[1..];
    assert OccursAt(s, q, 0);
  }

  /** An occurrence after a one-character head is an occurrence in the rest. */
  lemma OccurrenceAfterHead(c: char, o: string, q: string, i: nat)
    requires 0 < i && OccursAt([c] + o, q, i)
    ensures OccursAt(o, q, i - 1)
  {
    assert ([c] + o)[i..i + |q|] == o[i - 1..i - 1 + |q|];
  }

  /** After `ReplaceAll(s, p, r)` the text contains no `q`, when `q` is the
      pattern itself or did not occur before, and `r` lets no new `q` form. */
  lemma {:induction false} NoneAfterReplace(s: string, p: string, r: string, q: string)
    requires |p| > 0 && q != [] && SeamFree(q, r)
    requires q == p || !Contains(s, q)
    ensures !Contains(ReplaceAll(s, p, r), q)
    decreases |s|
  {
    if |s| < |p| {
      assert ReplaceAll(s, p, r) == s;
    } else if s[..|p|] == p {
      if q != p { AbsentFromSuffix(s, q, |p|); }
      NoneAfterReplace(s[|p|..], p, r, q);
      NoneAcrossReplacement(r, ReplaceAll(s[|p|..], p, r), q);
    } else {
      if q != p { AbsentFromSuffix(s, q, 1); }
      NoneAfterReplace(s[1..], p, r, q);
      NoneAfterCopy(s, p, r, q);
    }
  }

  /** JavaScript `s.replace(p, r)` with a string pattern: only the first
      occurrence of `p` is replaced. */
  function ReplaceFirst(s: string, p: string, r: string): string
    decreases |s|
  {
    if |s| < |p| then s
    else if s[..|p|] == p then r + s[|p|..]
    else [s[0]] + ReplaceFirst(s[1..], p, r)
  }

  /** Removing a suffix pattern whose first character does not occur before it
      gives back the text in front of it. */
  lemma {:induction false} ReplaceFirstStripsSuffix(a: string, p: string)
    requires p != [] && p[0] !in a
    ensures ReplaceFirst(a + p, p, "") == a
    decreases |a|
  {
    var s := a + p;
    if a == [] {
      assert s == p && s[|p|..] == [];
    } else {
      assert s[..|p|] != p by { assert s[0] == a[0] != p[0]; }
      assert s[1..] == a[1..] + p;
      ReplaceFirstStripsSuffix(a[1..], p);
      assert [a[0]] + a[1..] == a;
    }
  }

  /** `parts` joined with `sep` between neighbours (JavaScript `join`). */
  function Join(parts: seq<string>, sep: string): string
  {
    if parts == [] then ""
    else if |parts| == 1 then parts[0]
    else parts[0] + sep + Join(parts[1..], sep)
  }

  /** A joined list starts with its first part and ends with its last. */
  lemma {:induction false} JoinEnds(parts: seq<string>, sep: string)
    requires parts != []
    ensures StartsWith(Join(parts, sep), parts[0]) && EndsWith(Join(parts, sep), parts[|parts| - 1])
    decreases |parts|
  {
    if |parts| > 1 {
      JoinEnds(parts[1..], sep);
      var j, t, l := Join(parts, sep), Join(parts[1..], sep), parts[|parts| - 1];
      assert j == parts[0] + sep + t;
      assert j[..|parts[0]|] == parts[0];
      assert parts[1..][|parts| - 2] == l;
      assert j[|j| - |l|..] == t[|t| - |l|..];
    }
  }

  /** Python `s.split(c)` and JavaScript `s.split(c)` for a one-character separator. */
  function Split(s: string, c: char): (parts: seq<string>)
    ensures |parts| >= 1
    decreases |s|
  {
    if s == [] then [""]
    else
      var rest := Split(s[1..], c);
      if s[0] == c then [""] + rest else [[s[0]] + rest[0]] + rest[1..]
  }

  /** Splitting then joining with the same separator gives the text back, and
      there is one piece more than there are separators. */
  lemma SplitJoin(s: string, c: char)
    ensures Join(Split(s, c), [c]) == s
    ensures |Split(s, c)| == CountChar(s, c) + 1
    ensures forall k :: 0 <= k < |Split(s, c)| ==> c !in Split(s, c)[k]
  {
    JoinSplit(s, c);
    SplitCount(s, c);
    SplitPiecesFree(s, c);
  }

  lemma {:induction false} JoinSplit(s: string, c: char)
    ensures Join(Split(s, c), [c]) == s
    decreases |s|
  {
    if s != [] {
      JoinSplit(s[1..], c);
      JoinSplitStep(s, c);
      assert s == [s[0]] + s[1..];
    }
  }

  /** Splitting one more character joins to one more character. */
  lemma JoinSplitStep(s: string, c: char)
    requires s != []
    ensures Join(Split(s, c), [c]) == [s[0]] + Join(Split(s[1..], c), [c])
  {
    var rest := Split(s[1..], c);
    if s[0] == c {
      assert Split(s, c) == [""] + rest;
      JoinEmptyFirst(rest, [c]);
    } else {
      assert Split(s, c) == [[s[0]] + rest[0]] + rest[1..];
      JoinExtendFirst([s[0]], rest, [c]);
    }
  }

  /** An empty first piece leaves just the separator in front. */
  lemma JoinEmptyFirst(rest: seq<string>, sep: string)
    requires rest != []
    ensures Join([""] + rest, sep) == sep + Join(rest, sep)
  {
    assert ([""] + rest)[1..] == rest;
  }

  lemma {:induction false} SplitCount(s: string, c: char)
    ensures |Split(s, c)| == CountChar(s, c) + 1
    decreases |s|
  {
    if s != [] {
      SplitCount(s[1..], c);
    }
  }

  lemma {:induction false} SplitPiecesFree(s: string, c: char)
    ensures forall k :: 0 <= k < |Split(s, c)| ==> c !in Split(s, c)[k]
    decreases |s|
  {
    if s != [] {
      SplitPiecesFree(s[1..], c);
      var rest := Split(s[1..], c);
      var parts := Split(s, c);
      forall k | 0 <= k < |parts| ensures c !in parts[k] {
        if s[0] == c {
          if k > 0 { assert parts[k] == rest[k - 1]; }
        } else if k > 0 {
          assert parts[k] == rest[k];
        } else {
          assert parts[0] == [s[0]] + rest[0];
        }
      }
    }
  }

  /** Extending the first piece extends the joined text by the same prefix. */
  lemma JoinExtendFirst(x: string, rest: seq<string>, sep: string)
    requires rest != []
    ensures Join([x + rest[0]] + rest[1..], sep) == x + Join(rest, sep)
  {
    if |rest| > 1 {
      var j := Join(rest[1..], sep);
      assert ([x + rest[0]] + rest[1..])[1..] == rest[1..];
      assert x + rest[0] + sep + j == x + (rest[0] + sep + j);
    }
  }

  /** A text free of the separator splits into itself. */
  lemma {:induction false} SplitWithoutSeparator(s: string, c: char)
    requires c !in s
    ensures Split(s, c) == [s]
    decreases |s|
  {
    if s != [] {
      SplitWithoutSeparator(s[1..], c);
      assert [s[0]] + s[1..] == s;
    }
  }

  /** Two separator-free pieces joined by the separator split back into
      those two pieces. */
  lemma SplitInTwo(a: string, t: string, c: char)
    requires c !in a && c !in t
    ensures c in a + [c] + t && Split(a + [c] + t, c) == [a, t]
  {
    SplitAfterHead(a, t, c);
    SplitWithoutSeparator(t, c);
    assert (a + [c] + t)[|a|] == c;
  }

  /** A separator-free head and the separator split off as the first piece. */
  lemma {:induction false} SplitAfterHead(a: string, t: string, c: char)
    requires c !in a
    ensures Split(a + [c] + t, c) == [a] + Split(t, c)
    decreases |a|
  {
    var s := a + [c] + t;
    if a == [] {
      assert s == [c] + t && s[1..] == t;
    } else {
      assert s[1..] == a[1..] + [c] + t;
      SplitAfterHead(a[1..], t, c);
      assert [a[0]] + a[1..] == a;
    }
  }

  // ------------------------------------------------------------------
  // Whitespace
  // ------------------------------------------------------------------

  predicate IsBlank(s: string) { forall i :: 0 <= i < |s| ==> IsSpace(s[i]) }

  function TrimStart(s: string): (r: string)
    ensures |r| <= |s| && r == s[|s| - |r|..]
    ensures s != [] && IsSpace(s[0]) ==> |r| < |s|
    ensures r == [] || !IsSpace(r[0])
    decreases |s|
  {
    if s != [] && IsSpace(s[0]) then TrimStart(s[1..]) else s
  }

  function TrimEnd(s: string): (r: string)
    ensures |r| <= |s| && r == s[..|r|]
    ensures r == [] || !IsSpace(r[|r| - 1])
    decreases |s|
  {
    if s != [] && IsSpace(s[|s| - 1]) then TrimEnd(s[..|s| - 1]) else s
  }

  /** JavaScript `trim()` and Python `strip()`. */
  function Trim(s: string): (r: string)
    ensures r == [] || (!IsSpace(r[0]) && !IsSpace(r[|r| - 1]))
  {
    TrimEnd(TrimStart(s))
  }

  /** A string trims to nothing exactly when every character is whitespace. */
  lemma {:induction false} TrimEmptyIffBlank(s: string)
    ensures Trim(s) == [] <==> IsBlank(s)
    decreases |s|
  {
    if s != [] && IsSpace(s[0]) {
      TrimEmptyIffBlank(s[1..]);
      assert IsBlank(s) <==> IsBlank(s[1..]) by {
        if IsBlank(s[1..]) {
          forall i | 0 <= i < |s| ensures IsSpace(s[i]) { if i > 0 { assert s[i] == s[1..][i - 1]; } }
        }
        if IsBlank(s) {
          forall i | 0 <= i < |s[1..]| ensures IsSpace(s[1..][i]) { assert s[1..][i] == s[i + 1]; }
        }
      }
    } else if s != [] {
      TrimEndKeeps(s);
    }
  }

  lemma {:induction false} TrimEndKeeps(s: string)
    requires s != [] && !IsSpace(s[0])
    ensures TrimEnd(s) != [] && TrimEnd(s)[0] == s[0]
    decreases |s|
  {
    if IsSpace(s[|s| - 1]) {
      TrimEndKeeps(s[..|s| - 1]);
    }
  }

  /** The pieces of JavaScript `s.split(/\s+/)`: a run of whitespace
      separates two pieces, and leading or trailing whitespace gives an empty
      first or last piece. */
  function WsSplit(s: string): (parts: seq<string>)
    ensures |parts| >= 1
    decreases |s|
  {
    if s == [] then [""]
    else if IsSpace(s[0]) then [""] + WsSplit(TrimStart(s))
    else
      var rest := WsSplit(s[1..]);
      [[s[0]] + rest[0]] + rest[1..]
  }

  /** Number of non-empty pieces of a sequence of strings. */
  function CountNonEmpty(parts: seq<string>): (n: nat)
    ensures n <= |parts|
  {
    if parts == [] then 0 else (if parts[0] != "" then 1 else 0) + CountNonEmpty(parts[1..])
  }

  /** The words of a text: its non-empty `split(/\s+/)` pieces. */
  function WordCount(s: string): nat
  {
    CountNonEmpty(WsSplit(s))
  }

  /** On a text with no leading or trailing whitespace every `split(/\s+/)`
      piece is a word, so `trim().split(/\s+/).length` counts the words, except
      that an empty text still gives one (empty) piece. */
  lemma {:induction false} TrimmedSplitCountsWords(s: string)
    ensures |WsSplit(Trim(s))| == if Trim(s) == [] then 1 else WordCount(Trim(s))
  {
    var t := Trim(s);
    if t != [] {
      NoEdgeSpaceAllPiecesNonEmpty(t);
      AllNonEmptyCount(WsSplit(t));
    }
  }

  lemma {:induction false} AllNonEmptyCount(parts: seq<string>)
    requires forall k :: 0 <= k < |parts| ==> parts[k] != ""
    ensures CountNonEmpty(parts) == |parts|
  {
    if parts != [] {
      AllNonEmptyCount(parts[1..]);
    }
  }

  lemma {:induction false} NoEdgeSpaceAllPiecesNonEmpty(s: string)
    requires s != [] && !IsSpace(s[0]) && !IsSpace(s[|s| - 1])
    ensures forall k :: 0 <= k < |WsSplit(s)| ==> WsSplit(s)[k] != ""
    decreases |s|
  {
    var parts := WsSplit(s);
    if |s| > 1 {
      var t := s[1..];
      var rest := WsSplit(t);
      assert parts == [[s[0]] + rest[0]] + rest[1..];
      if IsSpace(t[0]) {
        var u := TrimStart(t);
        assert rest == [""] + WsSplit(u);
        assert u != [] && u[|u| - 1] == s[|s| - 1] by {
          assert u == t[|t| - |u|..];
          if u == [] { assert !IsSpace(t[|t| - 1]); TrimStartStopsAt(t); }
        }
        NoEdgeSpaceAllPiecesNonEmpty(u);
        forall k | 0 <= k < |parts| ensures parts[k] != "" {
          if k > 0 { assert parts[k] == WsSplit(u)[k - 1]; }
        }
      } else {
        NoEdgeSpaceAllPiecesNonEmpty(t);
        forall k | 0 <= k < |parts| ensures parts[k] != "" {
          if k > 0 { assert parts[k] == rest[k]; }
        }
      }
    }
  }

  /** Trimming the start of a text whose last character is not whitespace
      leaves that character. */
  lemma {:induction false} TrimStartStopsAt(t: string)
    requires t != [] && !IsSpace(t[|t| - 1])
    ensures TrimStart(t) != []
    decreases |t|
  {
    if IsSpace(t[0]) {
      assert |t| > 1;
      TrimStartStopsAt(t[1..]);
    }
  }

  // ------------------------------------------------------------------
  // Numbers
  // ------------------------------------------------------------------

  /** `Math.ceil(a / b)` for natural numbers. */
  function CeilDiv(a: nat, b: nat): (r: nat)
    requires b > 0
    ensures r * b >= a && (r == 0 || (r - 1) * b < a)
  {
    (a + b - 1) / b
  }

  function DigitChar(d: nat): (c: char)
    requires d < 10
    ensures IsDigit(c)
  {
    "0123456789"[d]
  }

  /** The decimal rendering of a natural number, as template literals give it. */
  function NatToString(n: nat): (s: string)
    ensures |s| >= 1 && forall i :: 0 <= i < |s| ==> IsDigit(s[i])
    decreases n
  {
    if n < 10 then [DigitChar(n)] else NatToString(n / 10) + [DigitChar(n % 10)]
  }

  /** Different numbers render differently. */
  lemma {:induction false} NatToStringInjective(a: nat, b: nat)
    requires NatToString(a) == NatToString(b)
    ensures a == b
    decreases a
  {
    if a >= 10 && b >= 10 {
      var sa, sb := NatToString(a), NatToString(b);
      assert sa[|sa| - 1] == DigitChar(a % 10) && sb[|sb| - 1] == DigitChar(b % 10);
      assert NatToString(a / 10) == sa[..|sa| - 1] == sb[..|sb| - 1] == NatToString(b / 10);
      NatToStringInjective(a / 10, b / 10);
    }
  }

  /** The decimal rendering of an integer, with a leading `-` when negative. */
  function IntToString(i: int): (s: string)
    ensures |s| >= 1 && (s[0] == '-' <==> i < 0)
  {
    if i < 0 then "-" + NatToString(-i) else NatToString(i)
  }

  /** Sum of a sequence of natural numbers. */
  function SumNat(xs: seq<nat>): nat
  {
    if xs == [] then 0 else xs[0] + SumNat(xs[1..])
  }

  function Min(a: int, b: int): int { if a <= b then a else b }

  function Max(a: int, b: int): int { if a >= b then a else b }

  /** `list.filter(x => x !== i)` */
  function Without<T(==,!new)>(s: seq<T>, i: T): (r: seq<T>)
    ensures forall x :: x in r <==> x in s && x != i
    ensures |r| <= |s|
  {
    if s == [] then [] else (if s[0] == i then [] else [s[0]]) + Without(s[1..], i)
  }

  lemma {:induction false} WithoutAbsent<T(!new)>(s: seq<T>, i: T)
    requires i !in s
    ensures Without(s, i) == s
  {
    if s != [] {
      WithoutAbsent(s[1..], i);
    }
  }

  lemma {:induction false} WithoutAppend<T(!new)>(a: seq<T>, b: seq<T>, i: T)
    ensures Without(a + b, i) == Without(a, i) + Without(b, i)
  {
    if a != [] {
      assert (a + b)[0] == a[0] && (a + b)[1..] == a[1..] + b;
      WithoutAppend(a[1..], b, i);
    } else {
      assert a + b == b;
    }
  }

  /** `list.includes(i) ? list.filter(x => x !== i) : [...list, i]`: `i`
      changes membership, every other element keeps its membership. */
  function Toggle<T(==,!new)>(s: seq<T>, i: T): (r: seq<T>)
    ensures i in r <==> i !in s
    ensures forall x :: x != i ==> (x in r <==> x in s)
  {
    if i in s then Without(s, i) else s + [i]
  }

  /** Two toggles of the same element restore membership; when the
      element was absent, the list itself is restored. */
  lemma {:induction false} ToggleTwice<T(!new)>(s: seq<T>, i: T)
    ensures forall x :: x in Toggle(Toggle(s, i), i) <==> x in s
    ensures i !in s ==> Toggle(Toggle(s, i), i) == s
  {
    if i !in s {
      WithoutAppend(s, [i], i);
      WithoutAbsent(s, i);
    }
  }
}
