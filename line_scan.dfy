/** The line loop shared by the two type-stripping scripts: the text is split
    at newlines, a small state machine walks the lines, and every line it
    keeps is written out followed by a newline. The loop body is a parameter
    here; each script supplies its own. */
module LineScan {
  import opened Common

  /** The loop state: inside a skipped declaration or not, and the brace depth. */
  datatype Scan = Scan(skipping: bool, depth: int)

  /** One pass of a loop body: the next state, and the line it writes, if any. */
  type Step = (Scan, string) -> (Scan, Option<string>)

  /** The lines written when `step` runs over `lines` from state `st`. */
  function Kept(lines: seq<string>, st: Scan, step: Step): seq<string>
    decreases |lines|
  {
    if lines == [] then []
    else
      var next := step(st, lines[0]);
      (if next.1.Some? then [next.1.value] else []) + Kept(lines[1..], next.0, step)
  }

  /** The state in which the loop reaches line `k`. */
  function StateAt(lines: seq<string>, st: Scan, step: Step, k: nat): Scan
    requires k <= |lines|
    decreases k
  {
    if k == 0 then st else StateAt(lines[1..], step(st, lines[0]).0, step, k - 1)
  }

  /** The indices of the lines that are written. */
  function KeptAt(lines: seq<string>, st: Scan, step: Step): seq<nat>
    decreases |lines|
  {
    if lines == [] then []
    else
      var next := step(st, lines[0]);
      var rest := KeptAt(lines[1..], next.0, step);
      (if next.1.Some? then [0] else []) + Shifted(rest)
  }

  /** Every index one higher. */
  function Shifted(ks: seq<nat>): (r: seq<nat>)
    ensures |r| == |ks| && forall j :: 0 <= j < |ks| ==> r[j] == ks[j] + 1
  {
    seq(|ks|, j requires 0 <= j < |ks| => ks[j] + 1)
  }

  /** An index is among the shifted ones exactly when the one below it was
      among the originals; zero never is. */
  lemma ShiftedMember(ks: seq<nat>, k: nat)
    ensures k in Shifted(ks) <==> k > 0 && k - 1 in ks
  {
    var r := Shifted(ks);
    if k in r {
      var j :| 0 <= j < |r| && r[j] == k;
      assert ks[j] == k - 1;
    }
    if k > 0 && k - 1 in ks {
      var j :| 0 <= j < |ks| && ks[j] == k - 1;
      assert r[j] == k;
    }
  }

  /** The text written for the kept lines: each one followed by a newline. */
  function Render(ls: seq<string>): string
  {
    if ls == [] then "" else ls[0] + "\n" + Render(ls[1..])
  }

  /** Whether the step writes line `k`, in the state the loop reaches it in. */
  predicate WritesAt(lines: seq<string>, st: Scan, step: Step, k: nat)
    requires k < |lines|
  {
    step(StateAt(lines, st, step, k), lines[k]).1.Some?
  }

  /** Reaching line `k + 1` is reaching line `k` of the tail from the next state. */
  lemma StateAtTail(lines: seq<string>, st: Scan, step: Step, k: nat)
    requires k < |lines|
    ensures StateAt(lines, st, step, k + 1) == StateAt(lines[1..], step(st, lines[0]).0, step, k)
  {
  }

  /** A pass that writes nothing contributes nothing. */
  lemma KeptDropped(lines: seq<string>, st: Scan, step: Step)
    requires lines != [] && step(st, lines[0]).1 == None
    ensures Kept(lines, st, step) == Kept(lines[1..], step(st, lines[0]).0, step)
  {
  }

  /** A pass that writes a line puts it in front of the rest. */
  lemma KeptWritten(lines: seq<string>, st: Scan, step: Step)
    requires lines != [] && step(st, lines[0]).1.Some?
    ensures Kept(lines, st, step) == [step(st, lines[0]).1.value] + Kept(lines[1..], step(st, lines[0]).0, step)
  {
  }

  /** Each written line is what the step wrote for the line at the matching index. */
  lemma {:induction false} KeptValues(lines: seq<string>, st: Scan, step: Step)
    ensures |KeptAt(lines, st, step)| == |Kept(lines, st, step)|
    ensures forall j :: 0 <= j < |KeptAt(lines, st, step)| ==>
      KeptAt(lines, st, step)[j] < |lines| &&
      step(StateAt(lines, st, step, KeptAt(lines, st, step)[j]), lines[KeptAt(lines, st, step)[j]]).1
        == Some(Kept(lines, st, step)[j])
    decreases |lines|
  {
    if lines != [] {
      var next := step(st, lines[0]);
      var tail := lines[1..];
      KeptValues(tail, next.0, step);
      var rest := KeptAt(tail, next.0, step);
      var kr := Kept(tail, next.0, step);
      var ka := KeptAt(lines, st, step);
      var ks := Kept(lines, st, step);
      var h := if next.1.Some? then 1 else 0;
      forall j | 0 <= j < |ka|
        ensures ka[j] < |lines|
        ensures step(StateAt(lines, st, step, ka[j]), lines[ka[j]]).1 == Some(ks[j])
      {
        if j >= h {
          var k := rest[j - h];
          assert ka[j] == k + 1 && ks[j] == kr[j - h];
          StateAtTail(lines, st, step, k);
          assert lines[k + 1] == tail[k];
        }
      }
    }
  }

  /** The written lines come from strictly increasing indices: no line is
      written twice and the order of the input is kept. */
  lemma {:induction false} KeptIncreasing(lines: seq<string>, st: Scan, step: Step)
    ensures forall j1, j2 :: 0 <= j1 < j2 < |KeptAt(lines, st, step)| ==>
      KeptAt(lines, st, step)[j1] < KeptAt(lines, st, step)[j2]
    decreases |lines|
  {
    if lines != [] {
      var next := step(st, lines[0]);
      KeptIncreasing(lines[1..], next.0, step);
    }
  }

  /** A line is written exactly when the step writes something for it in the
      state the loop reaches it in. */
  lemma {:induction false} KeptExactly(lines: seq<string>, st: Scan, step: Step)
    ensures forall k :: 0 <= k < |lines| ==> (k in KeptAt(lines, st, step) <==> WritesAt(lines, st, step, k))
    decreases |lines|
  {
    if lines != [] {
      var next := step(st, lines[0]);
      KeptExactly(lines[1..], next.0, step);
      forall k | 0 <= k < |lines|
        ensures k in KeptAt(lines, st, step) <==> WritesAt(lines, st, step, k)
      {
        if k > 0 {
          KeptShifted(lines, st, step, k);
          WritesAtTail(lines, st, step, k);
        } else {
          KeptHead(lines, st, step);
        }
      }
    }
  }

  /** The first line is kept exactly when the first step writes it. */
  lemma KeptHead(lines: seq<string>, st: Scan, step: Step)
    requires lines != []
    ensures 0 in KeptAt(lines, st, step) <==> step(st, lines[0]).1.Some?
  {
    ShiftedMember(KeptAt(lines[1..], step(st, lines[0]).0, step), 0);
  }

  /** A later line is kept exactly when it is kept in the tail, one index lower. */
  lemma KeptShifted(lines: seq<string>, st: Scan, step: Step, k: nat)
    requires 0 < k < |lines|
    ensures k in KeptAt(lines, st, step) <==> k - 1 in KeptAt(lines[1..], step(st, lines[0]).0, step)
  {
    ShiftedMember(KeptAt(lines[1..], step(st, lines[0]).0, step), k);
  }

  /** A later line is written exactly when the tail writes it from the next state. */
  lemma WritesAtTail(lines: seq<string>, st: Scan, step: Step, k: nat)
    requires 0 < k < |lines|
    ensures WritesAt(lines, st, step, k) == WritesAt(lines[1..], step(st, lines[0]).0, step, k - 1)
  {
    StateAtTail(lines, st, step, k - 1);
    assert lines[k] == lines[1..][k - 1];
  }

  /** Rendering distributes over concatenation. */
  lemma {:induction false} RenderAppend(a: seq<string>, b: seq<string>)
    ensures Render(a + b) == Render(a) + Render(b)
    decreases |a|
  {
    if a != [] {
      assert (a + b)[0] == a[0];
      assert (a + b)[1..] == a[1..] + b;
      RenderAppend(a[1..], b);
      calc {
        Render(a + b);
        a[0] + "\n" + Render(a[1..] + b);
        a[0] + "\n" + (Render(a[1..]) + Render(b));
        (a[0] + "\n" + Render(a[1..])) + Render(b);
      }
    } else {
      assert a + b == b;
    }
  }

  /** Splitting a text at its first separator. */
  lemma {:induction false} SplitAtFirst(a: string, rest: string, c: char)
    requires c !in a
    ensures Split(a + [c] + rest, c) == [a] + Split(rest, c)
    decreases |a|
  {
    if a != [] {
      var s := a + [c] + rest;
      assert s[0] == a[0] && s[0] != c;
      assert s[1..] == a[1..] + [c] + rest;
      SplitAtFirst(a[1..], rest, c);
      var r := Split(s[1..], c);
      assert r == [a[1..]] + Split(rest, c);
      assert Split(s, c) == [[s[0]] + r[0]] + r[1..];
      assert [a[0]] + a[1..] == a;
    } else {
      assert ([c] + rest)[1..] == rest;
    }
  }

  /** Reading the written text back line by line gives every kept line, in
      order, and the empty piece after the final newline. */
  lemma {:induction false} RenderSplit(ls: seq<string>)
    requires forall k :: 0 <= k < |ls| ==> '\n' !in ls[k]
    ensures Split(Render(ls), '\n') == ls + [""]
    decreases |ls|
  {
    if ls != [] {
      RenderSplit(ls[1..]);
      SplitAtFirst(ls[0], Render(ls[1..]), '\n');
      assert Render(ls) == ls[0] + ['\n'] + Render(ls[1..]);
    }
  }
}
