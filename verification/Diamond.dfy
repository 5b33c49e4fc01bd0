/** Two operations written against the same text, arriving in either order. */
module Diamond {
  import opened Text
  import opened LineOps

  /** The second arrival is rebased over the first. */
  function InOrder(lines: seq<string>, first: Op, second: Op): seq<string>
  {
    ApplyLine(ApplyLine(lines, first), RebaseOp(second, [first]))
  }

  predicate Converges(lines: seq<string>, a: Op, b: Op)
  {
    InOrder(lines, a, b) == InOrder(lines, b, a)
  }

  /** An insertion or deletion as the protocol defines it: lines count from one,
      an insertion brings some text, a deletion counts forward. */
  predicate Wellformed(op: Op)
  {
    match op
    case Insert(line, text) => line >= 1 && text != ""
    case Delete(line, count) => line >= 1 && count >= 0
    case _ => false
  }

  /** How many of the lines inserted at `q` an insertion at `p <= q` may end up
      behind: all of them on a tie, and some of them when `p` is past the end. */
  function Jumped(p: int, q: int, n: nat, brought: nat): (k: nat)
    requires p <= q
    ensures k <= brought
  {
    if p == q then brought
    else if p <= n + 1 then 0
    else if p - 1 - n <= brought then p - 1 - n else brought
  }

  /** An insertion at `p <= q` against one at `q`. */
  predicate InsertsAgree(p: int, xs: seq<string>, q: int, ys: seq<string>, n: nat)
    requires p <= q
  {
    var front := ys[..Jumped(p, q, n, |ys|)];
    xs + front == front + xs
  }

  /** An insertion of `m` lines at `p` against a deletion of `k` lines at `q`: the
      insertion is not after the deletion's first line, or past all of its lines. */
  predicate InsertClearOfDelete(p: int, m: nat, q: int, k: int, n: nat)
  {
    k == 0 || p <= q || q - 1 + k <= Clamp(p - 1, n) || q - 1 - n >= m
  }

  /** When the two arrival orders agree on every text of `n` lines. */
  predicate Compatible(a: Op, b: Op, n: nat)
    requires Wellformed(a) && Wellformed(b)
  {
    match (a, b)
    case (Insert(p, _), Insert(q, _)) =>
      if p <= q then InsertsAgree(p, Added(a), q, Added(b), n)
      else InsertsAgree(q, Added(b), p, Added(a), n)
    case (Insert(p, _), Delete(q, k)) => InsertClearOfDelete(p, |Added(a)|, q, k, n)
    case (Delete(q, k), Insert(p, _)) => InsertClearOfDelete(p, |Added(b)|, q, k, n)
    case (Delete(_, _), Delete(_, _)) => true
  }

  lemma {:induction false} RebasedIs(op: Op, hop: Op)
    requires Wellformed(op) && Wellformed(hop)
    ensures RebaseOp(op, [hop]) == WithLine(op, Shift(op.line, hop))
  {
    RebaseOne(op, hop);
  }

  /** `lines` without the `k` lines from index `at` on. */
  function Cut(lines: seq<string>, at: nat, k: nat): seq<string>
  {
    if at >= |lines| then lines
    else if at + k >= |lines| then lines[..at]
    else lines[..at] + lines[at + k..]
  }

  /** `lines` with `added` in front of index `at`, or at the end. */
  function Put(lines: seq<string>, at: nat, added: seq<string>): seq<string>
  {
    var c := Clamp(at, |lines|);
    lines[..c] + added + lines[c..]
  }

  lemma {:induction false} ApplyIsPut(lines: seq<string>, op: Op)
    requires op.Insert? && op.line >= 1
    ensures ApplyLine(lines, op) == Put(lines, op.line - 1, Added(op))
  {
  }

  lemma {:induction false} ApplyIsCut(lines: seq<string>, op: Op)
    requires op.Delete? && op.line >= 1 && op.count >= 0
    ensures ApplyLine(lines, op) == Cut(lines, op.line - 1, op.count)
  {
    var at := op.line - 1;
    if at >= |lines| {
      assert Removed(op, |lines|) == 0;
    } else if at + op.count >= |lines| {
      assert Removed(op, |lines|) == |lines| - at;
    }
  }

  function CutLength(n: nat, at: nat, k: nat): nat
  {
    if at >= n then n else if at + k >= n then at else n - k
  }

  /** `Cut`, line by line. */
  lemma {:induction false} CutLines(lines: seq<string>, at: nat, k: nat)
    ensures |Cut(lines, at, k)| == CutLength(|lines|, at, k)
    ensures forall i {:trigger Cut(lines, at, k)[i]} :: 0 <= i < |Cut(lines, at, k)| ==>
              (if i < at || at >= |lines| then i else i + k) < |lines|
              && Cut(lines, at, k)[i] == lines[if i < at || at >= |lines| then i else i + k]
  {
  }

  /** `Put`, line by line. */
  lemma {:induction false} PutLines(lines: seq<string>, at: nat, added: seq<string>)
    ensures |Put(lines, at, added)| == |lines| + |added|
    ensures var c := Clamp(at, |lines|);
            forall i {:trigger Put(lines, at, added)[i]} :: 0 <= i < |lines| + |added| ==>
              Put(lines, at, added)[i] ==
              if i < c then lines[i] else if i < c + |added| then added[i - c] else lines[i - |added|]
  {
  }

  /** Which line of `lines` is line `i` of `Cut(lines, at, k)`. */
  function CutFrom(n: nat, at: nat, k: nat, i: nat): nat
  {
    if i < at || at >= n then i else i + k
  }

  lemma {:induction false} CutAt(lines: seq<string>, at: nat, k: nat, i: nat)
    requires i < CutLength(|lines|, at, k)
    ensures CutFrom(|lines|, at, k, i) < |lines|
    ensures |Cut(lines, at, k)| == CutLength(|lines|, at, k)
    ensures Cut(lines, at, k)[i] == lines[CutFrom(|lines|, at, k, i)]
  {
  }

  lemma {:induction false} CutLengthIs(lines: seq<string>, at: nat, k: nat)
    ensures |Cut(lines, at, k)| == CutLength(|lines|, at, k)
  {
  }

  lemma {:induction false} TwiceAt(lines: seq<string>, a: nat, j: nat, b: nat, k: nat, i: nat)
    requires i < CutLength(CutLength(|lines|, a, j), b, k)
    ensures |Cut(Cut(lines, a, j), b, k)| == CutLength(CutLength(|lines|, a, j), b, k)
    ensures CutFrom(|lines|, a, j, CutFrom(CutLength(|lines|, a, j), b, k, i)) < |lines|
    ensures Cut(Cut(lines, a, j), b, k)[i] == lines[CutFrom(|lines|, a, j, CutFrom(CutLength(|lines|, a, j), b, k, i))]
  {
    CutLengthIs(lines, a, j);
    CutAt(Cut(lines, a, j), b, k, i);
    CutAt(lines, a, j, CutFrom(CutLength(|lines|, a, j), b, k, i));
  }

  lemma {:induction false} LengthSame(n: nat, p: nat, j: nat, q: nat, k: nat, at: nat)
    requires p <= q && at == if q - j > p then q - j else p
    ensures CutLength(CutLength(n, p, j), at, k) == CutLength(CutLength(n, q, k), p, j)
  {
  }

  lemma {:induction false} IndexSame(n: nat, p: nat, j: nat, q: nat, k: nat, at: nat, i: nat)
    requires p <= q && at == if q - j > p then q - j else p
    requires i < CutLength(CutLength(n, p, j), at, k)
    ensures CutFrom(n, p, j, CutFrom(CutLength(n, p, j), at, k, i))
            == CutFrom(n, q, k, CutFrom(CutLength(n, q, k), p, j, i))
  {
  }

  lemma {:induction false} TwiceSame(lines: seq<string>, p: nat, j: nat, q: nat, k: nat, at: nat, i: nat,
                                     x: seq<string>, y: seq<string>)
    requires p <= q && at == (if q - j > p then q - j else p) && i < |x|
    requires x == Cut(Cut(lines, p, j), at, k) && y == Cut(Cut(lines, q, k), p, j)
    ensures i < |y| && x[i] == y[i]
  {
    CutLengthIs(lines, p, j);
    CutLengthIs(Cut(lines, p, j), at, k);
    LengthSame(|lines|, p, j, q, k, at);
    TwiceAt(lines, p, j, at, k, i);
    TwiceAt(lines, q, k, p, j, i);
    IndexSame(|lines|, p, j, q, k, at, i);
  }

  lemma {:induction false} CutsCommute(lines: seq<string>, p: nat, j: nat, q: nat, k: nat)
    requires p <= q
    ensures Cut(Cut(lines, p, j), if q - j > p then q - j else p, k) == Cut(Cut(lines, q, k), p, j)
  {
    var at := if q - j > p then q - j else p;
    var x, y := Cut(Cut(lines, p, j), at, k), Cut(Cut(lines, q, k), p, j);
    CutLengthIs(lines, p, j);
    CutLengthIs(lines, q, k);
    CutLengthIs(Cut(lines, p, j), at, k);
    CutLengthIs(Cut(lines, q, k), p, j);
    LengthSame(|lines|, p, j, q, k, at);
    forall i | 0 <= i < |x| ensures x[i] == y[i] {
      TwiceSame(lines, p, j, q, k, at, i, x, y);
    }
  }

  /** Where `second`, addressed to line `line`, acts after `first`, from zero. */
  function MovedTo(first: Op, line: int): int
  {
    Shift(line, first) - 1
  }

  lemma {:induction false} DeleteThenDelete(lines: seq<string>, a: Op, b: Op, first: seq<string>)
    requires Wellformed(a) && Wellformed(b) && a.Delete? && b.Delete?
    requires first == Cut(lines, a.line - 1, a.count)
    ensures MovedTo(a, b.line) >= 0
    ensures InOrder(lines, a, b) == Cut(first, MovedTo(a, b.line), b.count)
  {
    RebasedIs(b, a);
    ApplyIsCut(lines, a);
    ApplyIsCut(first, Delete(Shift(b.line, a), b.count));
  }

  lemma {:induction false} InsertThenInsert(lines: seq<string>, a: Op, b: Op, first: seq<string>, to: nat)
    requires Wellformed(a) && Wellformed(b) && a.Insert? && b.Insert?
    requires first == Put(lines, a.line - 1, Added(a)) && to == MovedTo(a, b.line)
    ensures InOrder(lines, a, b) == Put(first, to, Added(b))
  {
    RebasedIs(b, a);
    CountIsLength(a.text);
    ApplyIsPut(lines, a);
    ApplyIsPut(first, Insert(Shift(b.line, a), b.text));
  }

  lemma {:induction false} DeletesMove(a: Op, b: Op, p: nat, q: nat, to: nat)
    requires Wellformed(a) && Wellformed(b) && a.Delete? && b.Delete?
    requires p == a.line - 1 && q == b.line - 1 && p <= q
    requires to == if q - a.count > p then q - a.count else p
    ensures MovedTo(a, b.line) == to && MovedTo(b, a.line) == p
  {
  }

  lemma {:induction false} DeletesMeet(lines: seq<string>, a: Op, b: Op, p: nat, j: nat, q: nat, k: nat)
    requires Wellformed(a) && Wellformed(b) && a.Delete? && b.Delete?
    requires p == a.line - 1 && j == a.count && q == b.line - 1 && k == b.count && p <= q
    ensures InOrder(lines, a, b) == InOrder(lines, b, a)
    ensures InOrder(lines, b, a) == Cut(Cut(lines, q, k), p, j)
  {
    DeletesMove(a, b, p, q, if q - j > p then q - j else p);
    CutsCommute(lines, p, j, q, k);
    DeleteThenDelete(lines, a, b, Cut(lines, p, j));
    DeleteThenDelete(lines, b, a, Cut(lines, q, k));
  }

  /** Deletions commute whatever they overlap. */
  lemma {:induction false} DeletesConverge(lines: seq<string>, a: Op, b: Op)
    requires Wellformed(a) && Wellformed(b) && a.Delete? && b.Delete? && a.line <= b.line
    ensures Converges(lines, a, b)
  {
    DeletesMeet(lines, a, b, a.line - 1, a.count, b.line - 1, b.count);
  }

  lemma {:induction false} InsertMoves(a: Op, b: Op)
    requires Wellformed(a) && Wellformed(b) && a.Insert? && b.Insert? && a.line <= b.line
    ensures MovedTo(a, b.line) == b.line - 1 + |Added(a)|
    ensures MovedTo(b, a.line) == if a.line == b.line then a.line - 1 + |Added(b)| else a.line - 1
  {
    CountIsLength(a.text);
    CountIsLength(b.text);
  }

  lemma {:induction false} PutsMeet(lines: seq<string>, p: nat, xs: seq<string>, q: nat, ys: seq<string>, back: nat)
    requires p <= q && back == if p == q then p + |ys| else p
    ensures Put(Put(lines, p, xs), q + |xs|, ys) == Put(Put(lines, q, ys), back, xs)
            <==> InsertsAgree(p + 1, xs, q + 1, ys, |lines|)
  {
    if p == q {
      assert ys[..|ys|] == ys;
      PutsTie(lines, p, xs, ys);
    } else if p <= |lines| {
      PutsCommute(lines, p, xs, q, ys);
      assert ys[..0] == [] && xs + [] == xs && [] + xs == xs;
    } else {
      PutsBeyond(lines, p, xs, q, ys);
    }
  }

  lemma {:induction false} InsertsMeet(lines: seq<string>, a: Op, b: Op, p: nat, xs: seq<string>, q: nat,
                                       ys: seq<string>)
    requires Wellformed(a) && Wellformed(b) && a.Insert? && b.Insert?
    requires p == a.line - 1 && q == b.line - 1 && p <= q && xs == Added(a) && ys == Added(b)
    ensures InOrder(lines, a, b) == InOrder(lines, b, a) <==> InsertsAgree(p + 1, xs, q + 1, ys, |lines|)
  {
    var back := if p == q then p + |ys| else p;
    BothWays(lines, a, b, p, xs, q, ys, back);
    PutsMeet(lines, p, xs, q, ys, back);
  }

  lemma {:induction false} BothWays(lines: seq<string>, a: Op, b: Op, p: nat, xs: seq<string>, q: nat, ys: seq<string>,
                                    back: nat)
    requires Wellformed(a) && Wellformed(b) && a.Insert? && b.Insert?
    requires p == a.line - 1 && q == b.line - 1 && p <= q && xs == Added(a) && ys == Added(b)
    requires back == if p == q then p + |ys| else p
    ensures InOrder(lines, a, b) == Put(Put(lines, p, xs), q + |xs|, ys)
    ensures InOrder(lines, b, a) == Put(Put(lines, q, ys), back, xs)
  {
    InsertMoves(a, b);
    InsertThenInsert(lines, a, b, Put(lines, p, xs), q + |xs|);
    InsertThenInsert(lines, b, a, Put(lines, q, ys), back);
  }

  /** Insertions at different places agree; on a tie, or past the end of the text,
      they agree exactly when the texts commute. */
  lemma {:induction false} InsertsConverge(lines: seq<string>, a: Op, b: Op)
    requires Wellformed(a) && Wellformed(b) && a.Insert? && b.Insert? && a.line <= b.line
    ensures Converges(lines, a, b)
            <==> InsertsAgree(a.line, Added(a), b.line, Added(b), |lines|)
  {
    InsertsMeet(lines, a, b, a.line - 1, Added(a), b.line - 1, Added(b));
  }

  lemma {:induction false} PutsCommute(lines: seq<string>, p: nat, xs: seq<string>, q: nat, ys: seq<string>)
    requires p < q && p <= |lines|
    ensures Put(Put(lines, p, xs), q + |xs|, ys) == Put(Put(lines, q, ys), p, xs)
  {
    var c := Clamp(q, |lines|);
    var px := Put(lines, p, xs);
    assert px[..c + |xs|] == lines[..p] + xs + lines[p..c];
    assert px[c + |xs|..] == lines[c..];
    var qy := Put(lines, q, ys);
    assert qy[..p] == lines[..p];
    assert qy[p..] == lines[p..c] + ys + lines[c..];
  }

  lemma {:induction false} PutsBeyond(lines: seq<string>, p: nat, xs: seq<string>, q: nat, ys: seq<string>)
    requires |lines| < p < q
    ensures var front := ys[..Clamp(p - |lines|, |ys|)];
            Put(Put(lines, p, xs), q + |xs|, ys) == Put(Put(lines, q, ys), p, xs)
            <==> xs + front == front + xs
  {
    var j := Clamp(p - |lines|, |ys|);
    var front, back := ys[..j], ys[j..];
    assert ys == front + back;
    assert Put(lines, p, xs) == lines + xs;
    assert Put(Put(lines, p, xs), q + |xs|, ys) == lines + xs + ys;
    assert lines + xs + ys == lines + (xs + front) + back;
    assert Put(lines, q, ys) == lines + ys;
    assert (lines + ys)[..|lines| + j] == lines + front;
    assert (lines + ys)[|lines| + j..] == back;
    assert Put(Put(lines, q, ys), p, xs) == lines + (front + xs) + back;
    SameMiddle(lines, xs + front, front + xs, back);
  }

  lemma {:induction false} PutsTie(lines: seq<string>, p: nat, xs: seq<string>, ys: seq<string>)
    ensures Put(Put(lines, p, xs), p + |xs|, ys) == Put(Put(lines, p, ys), p + |ys|, xs)
            <==> xs + ys == ys + xs
  {
    PutAfter(lines, p, xs, ys);
    PutAfter(lines, p, ys, xs);
    var c := Clamp(p, |lines|);
    SameMiddle(lines[..c], xs + ys, ys + xs, lines[c..]);
  }

  lemma {:induction false} PutAfter(lines: seq<string>, p: nat, xs: seq<string>, ys: seq<string>)
    ensures var c := Clamp(p, |lines|);
            Put(Put(lines, p, xs), p + |xs|, ys) == lines[..c] + (xs + ys) + lines[c..]
  {
    var c := Clamp(p, |lines|);
    var px := Put(lines, p, xs);
    assert Clamp(p + |xs|, |px|) == c + |xs|;
    assert px[..c + |xs|] == lines[..c] + xs;
    assert px[c + |xs|..] == lines[c..];
  }

  lemma {:induction false} SameMiddle(a: seq<string>, x: seq<string>, y: seq<string>, b: seq<string>)
    requires |x| == |y|
    ensures a + x + b == a + y + b <==> x == y
  {
    assert (a + x + b)[|a|..|a| + |x|] == x;
    assert (a + y + b)[|a|..|a| + |x|] == y;
  }

  // ----------------------------------------------- an insertion and a deletion

  /** After the insertion, the deletion acts past the new lines or where it was. */
  function CutAfterPut(p: nat, m: nat, q: nat): nat
  {
    if q >= p then q + m else q
  }

  /** After the deletion, the insertion moves back, at most to the deletion. */
  function PutAfterCut(p: nat, q: nat, k: nat): nat
  {
    if p > q then if p - k > q then p - k else q else p
  }

  lemma {:induction false} PutCut(lines: seq<string>, p: nat, xs: seq<string>, q: nat, k: nat)
    requires InsertClearOfDelete(p + 1, |xs|, q + 1, k, |lines|)
    ensures Cut(Put(lines, p, xs), CutAfterPut(p, |xs|, q), k)
            == Put(Cut(lines, q, k), PutAfterCut(p, q, k), xs)
  {
    if k == 0 {
      CutNothing(lines, q);
      CutNothing(Put(lines, p, xs), CutAfterPut(p, |xs|, q));
    } else if p <= q {
      PutBeforeCut(lines, p, xs, q, k);
    } else if q - |lines| >= |xs| {
    } else {
      PutPastCut(lines, p, xs, q, k);
    }
  }

  lemma {:induction false} CutNothing(lines: seq<string>, at: nat)
    ensures Cut(lines, at, 0) == lines
  {
  }

  lemma {:induction false} CutClamped(lines: seq<string>, at: nat, k: nat)
    ensures Cut(lines, at, k) == lines[..Clamp(at, |lines|)] + lines[Clamp(at + k, |lines|)..]
  {
  }

  lemma {:induction false} SplitFront(front: seq<string>, back: seq<string>, at: nat)
    requires at <= |front|
    ensures (front + back)[..at] == front[..at] && (front + back)[at..] == front[at..] + back
  {
  }

  lemma {:induction false} SplitBack(front: seq<string>, back: seq<string>, at: nat)
    requires at <= |back|
    ensures (front + back)[..|front| + at] == front + back[..at] && (front + back)[|front| + at..] == back[at..]
  {
  }

  lemma {:induction false} InFourParts(lines: seq<string>, p: nat, q: nat, d: nat)
    requires p <= q <= d <= |lines|
    ensures lines == lines[..p] + (lines[p..q] + (lines[q..d] + lines[d..]))
  {
  }

  /** Cutting `c` out of a text with `xs` put in after `a`. */
  lemma {:induction false} CutPart(a: seq<string>, xs: seq<string>, b: seq<string>, c: seq<string>, d: seq<string>)
    ensures var put := a + xs + (b + (c + d));
            var at := |a| + |xs| + |b|;
            put[..at] == a + xs + b && put[at + |c|..] == d
  {
    SplitBack(a + xs, b + (c + d), |b|);
    SplitBack(a + xs, b + (c + d), |b| + |c|);
  }

  /** Putting `xs` in after `a` in a text that `c` was cut from. */
  lemma {:induction false} PutPart(a: seq<string>, xs: seq<string>, b: seq<string>, d: seq<string>)
    ensures Put((a + b) + d, |a|, xs) == (a + xs + b) + d
  {
    assert ((a + b) + d)[..|a|] == a && ((a + b) + d)[|a|..] == b + d;
  }

  lemma {:induction false} CutSide(lines: seq<string>, p: nat, xs: seq<string>, q: nat, k: nat, end: nat)
    requires p <= q < |lines| && end == Clamp(q + k, |lines|)
    ensures Cut(Put(lines, p, xs), q + |xs|, k) == (lines[..p] + xs + lines[p..q]) + lines[end..]
  {
    var a, b, c, d := lines[..p], lines[p..q], lines[q..end], lines[end..];
    InFourParts(lines, p, q, end);
    assert lines[p..] == b + (c + d);
    CutClamped(a + xs + (b + (c + d)), q + |xs|, k);
    CutPart(a, xs, b, c, d);
  }

  lemma {:induction false} PutSide(lines: seq<string>, p: nat, xs: seq<string>, q: nat, k: nat, end: nat)
    requires p <= q < |lines| && end == Clamp(q + k, |lines|)
    ensures Put(Cut(lines, q, k), p, xs) == (lines[..p] + xs + lines[p..q]) + lines[end..]
  {
    assert lines[..q] == lines[..p] + lines[p..q];
    CutClamped(lines, q, k);
    PutPart(lines[..p], xs, lines[p..q], lines[end..]);
  }

  lemma {:induction false} PutBeforeCut(lines: seq<string>, p: nat, xs: seq<string>, q: nat, k: nat)
    requires p <= q
    ensures Cut(Put(lines, p, xs), q + |xs|, k) == Put(Cut(lines, q, k), p, xs)
  {
    if q < |lines| {
      var end := Clamp(q + k, |lines|);
      CutSide(lines, p, xs, q, k, end);
      PutSide(lines, p, xs, q, k, end);
    }
  }

  lemma {:induction false} PutPastCut(lines: seq<string>, p: nat, xs: seq<string>, q: nat, k: nat)
    requires q + k <= Clamp(p, |lines|) && k > 0
    ensures Cut(Put(lines, p, xs), q, k) == Put(Cut(lines, q, k), p - k, xs)
  {
    var put, cut := Put(lines, p, xs), Cut(lines, q, k);
    PutLines(lines, p, xs);
    CutLines(lines, q, k);
    var x, y := Cut(put, q, k), Put(cut, p - k, xs);
    CutLines(put, q, k);
    PutLines(cut, p - k, xs);
    assert |x| == |y|;
    forall i | 0 <= i < |x| ensures x[i] == y[i] {
      if i < q {
        assert x[i] == put[i] == lines[i];
      } else {
        assert x[i] == put[i + k];
      }
    }
  }

  /** If the deletion reaches into the inserted lines, the two orders differ on a
      text that has none of these lines. */
  lemma {:induction false} PutCutDiffer(lines: seq<string>, p: nat, xs: seq<string>, q: nat, k: nat)
    requires !InsertClearOfDelete(p + 1, |xs|, q + 1, k, |lines|) && xs != []
    requires forall i :: 0 <= i < |lines| ==> lines[i] != xs[|xs| - 1]
    ensures Cut(Put(lines, p, xs), CutAfterPut(p, |xs|, q), k)
            != Put(Cut(lines, q, k), PutAfterCut(p, q, k), xs)
  {
    var n, m := |lines|, |xs|;
    var one := Cut(Put(lines, p, xs), q, k);
    if q >= n {
      assert |one| < n + m;
    } else {
      LastLineStays(lines, p, xs, q, k);
      if q + m - 1 < |one| {
        CutElement(Put(lines, p, xs), q, k, q + m - 1);
        PutElement(lines, p, xs, q + m - 1 + k);
      }
    }
  }

  lemma {:induction false} CutElement(lines: seq<string>, at: nat, k: nat, i: nat)
    requires at <= i < |Cut(lines, at, k)| && at < |lines|
    ensures i + k < |lines| && Cut(lines, at, k)[i] == lines[i + k]
  {
  }

  lemma {:induction false} PutElement(lines: seq<string>, p: nat, xs: seq<string>, i: nat)
    requires Clamp(p, |lines|) + |xs| <= i < |lines| + |xs|
    ensures Put(lines, p, xs)[i] == lines[i - |xs|]
  {
  }

  /** After the deletion, the insertion lands at the deletion's place. */
  lemma {:induction false} LastLineStays(lines: seq<string>, p: nat, xs: seq<string>, q: nat, k: nat)
    requires q < |lines| && k > 0 && p > q && q + k > Clamp(p, |lines|) && xs != []
    ensures var two := Put(Cut(lines, q, k), PutAfterCut(p, q, k), xs);
            q + |xs| <= |two| && two[q + |xs| - 1] == xs[|xs| - 1]
  {
    assert Clamp(PutAfterCut(p, q, k), |Cut(lines, q, k)|) == q;
  }

  lemma {:induction false} DeleteMoves(a: Op, b: Op)
    requires Wellformed(a) && Wellformed(b) && a.Insert? && b.Delete?
    ensures MovedTo(a, b.line) == CutAfterPut(a.line - 1, |Added(a)|, b.line - 1)
  {
    CountIsLength(a.text);
  }

  lemma {:induction false} InsertThenDelete(
      lines: seq<string>, a: Op, b: Op, p: nat, xs: seq<string>, q: nat, to: nat, first: seq<string>)
    requires Wellformed(a) && Wellformed(b) && a.Insert? && b.Delete?
    requires p == a.line - 1 && xs == Added(a) && q == b.line - 1
    requires to == MovedTo(a, b.line) && first == Put(lines, p, xs)
    ensures InOrder(lines, a, b) == Cut(first, to, b.count)
  {
    var moved := Delete(to + 1, b.count);
    DeleteRebased(a, b, moved);
    ApplyIsPut(lines, a);
    ApplyIsCut(first, moved);
  }

  lemma {:induction false} DeleteRebased(a: Op, b: Op, moved: Op)
    requires Wellformed(a) && Wellformed(b) && a.Insert? && b.Delete?
    requires moved == Delete(MovedTo(a, b.line) + 1, b.count)
    ensures RebaseOp(b, [a]) == moved && moved.line >= 1
  {
    RebasedIs(b, a);
    CountIsLength(a.text);
  }

  lemma {:induction false} DeleteThenInsert(lines: seq<string>, a: Op, b: Op, p: nat, xs: seq<string>, q: nat)
    requires Wellformed(a) && Wellformed(b) && a.Insert? && b.Delete?
    requires p == a.line - 1 && xs == Added(a) && q == b.line - 1
    ensures InOrder(lines, b, a) == Put(Cut(lines, q, b.count), PutAfterCut(p, q, b.count), xs)
  {
    RebasedIs(a, b);
    ApplyIsCut(lines, b);
    ApplyIsPut(Cut(lines, q, b.count), Insert(Shift(a.line, b), a.text));
  }

  lemma {:induction false} InsertDeleteMeet(lines: seq<string>, a: Op, b: Op, p: nat, xs: seq<string>, q: nat)
    requires Wellformed(a) && Wellformed(b) && a.Insert? && b.Delete?
    requires p == a.line - 1 && xs == Added(a) && q == b.line - 1 && xs != []
    ensures InsertClearOfDelete(p + 1, |xs|, q + 1, b.count, |lines|)
            ==> InOrder(lines, a, b) == InOrder(lines, b, a)
    ensures !InsertClearOfDelete(p + 1, |xs|, q + 1, b.count, |lines|)
            && (forall i :: 0 <= i < |lines| ==> lines[i] != xs[|xs| - 1])
            ==> InOrder(lines, a, b) != InOrder(lines, b, a)
  {
    DeleteMoves(a, b);
    InsertThenDelete(lines, a, b, p, xs, q, CutAfterPut(p, |xs|, q), Put(lines, p, xs));
    DeleteThenInsert(lines, a, b, p, xs, q);
    if InsertClearOfDelete(p + 1, |xs|, q + 1, b.count, |lines|) {
      PutCut(lines, p, xs, q, b.count);
    } else if forall i :: 0 <= i < |lines| ==> lines[i] != xs[|xs| - 1] {
      PutCutDiffer(lines, p, xs, q, b.count);
    }
  }

  // ------------------------------------------------------------- the diamond

  /** `n` copies of a line that is not `x`. */
  function Strangers(n: nat, x: string): (lines: seq<string>)
    ensures |lines| == n && AllLines(lines)
    ensures forall i :: 0 <= i < n ==> lines[i] != x
  {
    var z := seq(|x|, _ => 'z') + "\n";
    seq(n, _ => z)
  }

  lemma {:induction false} OneWay(lines: seq<string>, a: Op, b: Op)
    requires Wellformed(a) && Wellformed(b) && Compatible(a, b, |lines|)
    ensures Converges(lines, a, b)
  {
    match (a, b)
    case (Insert(p, _), Insert(q, _)) =>
      if p <= q { InsertsConverge(lines, a, b); } else { InsertsConverge(lines, b, a); }
    case (Insert(p, text), Delete(q, _)) =>
      CountIsLength(text);
      InsertDeleteMeet(lines, a, b, p - 1, Added(a), q - 1);
    case (Delete(q, _), Insert(p, text)) =>
      CountIsLength(text);
      InsertDeleteMeet(lines, b, a, p - 1, Added(b), q - 1);
    case (Delete(p, _), Delete(q, _)) =>
      if p <= q { DeletesConverge(lines, a, b); } else { DeletesConverge(lines, b, a); }
  }

  /** A text of `n` lines on which two incompatible operations disagree. */
  lemma {:induction false} Apart(n: nat, a: Op, b: Op) returns (lines: seq<string>)
    requires Wellformed(a) && Wellformed(b) && !Compatible(a, b, n)
    ensures |lines| == n && AllLines(lines) && !Converges(lines, a, b)
  {
    match (a, b)
    case (Insert(p, _), Insert(q, _)) =>
      lines := Strangers(n, "");
      if p <= q { InsertsConverge(lines, a, b); } else { InsertsConverge(lines, b, a); }
    case (Insert(p, text), Delete(q, _)) =>
      CountIsLength(text);
      var xs := Added(a);
      lines := Strangers(n, xs[|xs| - 1]);
      InsertDeleteMeet(lines, a, b, p - 1, xs, q - 1);
    case (Delete(q, _), Insert(p, text)) =>
      CountIsLength(text);
      var xs := Added(b);
      lines := Strangers(n, xs[|xs| - 1]);
      InsertDeleteMeet(lines, b, a, p - 1, xs, q - 1);
    case _ =>
      assert false;
  }

  ghost predicate ConvergesAlways(a: Op, b: Op, n: nat)
  {
    forall lines :: |lines| == n && AllLines(lines) ==> Converges(lines, a, b)
  }

  /** The rebase diamond: two operations written against the same text of `n` lines
      give the same text in both arrival orders, whatever its lines are, exactly when
      they are compatible. */
  lemma {:induction false} RebaseDiamond(a: Op, b: Op, n: nat)
    requires Wellformed(a) && Wellformed(b)
    ensures ConvergesAlways(a, b, n) <==> Compatible(a, b, n)
  {
    if Compatible(a, b, n) {
      forall lines | |lines| == n && AllLines(lines) ensures Converges(lines, a, b) {
        OneWay(lines, a, b);
      }
    } else {
      var lines := Apart(n, a, b);
    }
  }

  // ------------------------------------------------- what two deletions delete

  /** Line index `i` is one the author of the deletion of `k` lines at `q` chose. */
  predicate Chosen(q: nat, k: nat, i: nat)
  {
    q <= i < q + k
  }

  /** The lines from index `i` on that neither deletion chose. */
  function Spared(lines: seq<string>, i: nat, p: nat, j: nat, q: nat, k: nat): seq<string>
    decreases |lines| - i
  {
    if i >= |lines| then []
    else (if Chosen(p, j, i) || Chosen(q, k, i) then [] else [lines[i]]) + Spared(lines, i + 1, p, j, q, k)
  }

  lemma {:induction false} FirstOfRun(lines: seq<string>, i: nat, e: nat, rest: seq<string>)
    requires i < e <= |lines|
    ensures [lines[i]] + (lines[i + 1..e] + rest) == lines[i..e] + rest
  {
    assert lines[i..e] == [lines[i]] + lines[i + 1..e];
  }

  lemma {:induction false} SparedRun(lines: seq<string>, i: nat, e: nat, p: nat, j: nat, q: nat, k: nat)
    requires i <= e <= |lines|
    requires forall x: nat :: i <= x < e ==> !Chosen(p, j, x) && !Chosen(q, k, x)
    ensures Spared(lines, i, p, j, q, k) == lines[i..e] + Spared(lines, e, p, j, q, k)
    decreases e - i
  {
    if i < e {
      SparedRun(lines, i + 1, e, p, j, q, k);
      assert !Chosen(p, j, i) && !Chosen(q, k, i);
      FirstOfRun(lines, i, e, Spared(lines, e, p, j, q, k));
    }
  }

  lemma {:induction false} ChosenRun(lines: seq<string>, i: nat, e: nat, p: nat, j: nat, q: nat, k: nat)
    requires i <= e <= |lines|
    requires forall x: nat :: i <= x < e ==> Chosen(p, j, x) || Chosen(q, k, x)
    ensures Spared(lines, i, p, j, q, k) == Spared(lines, e, p, j, q, k)
    decreases e - i
  {
    if i < e {
      ChosenRun(lines, i + 1, e, p, j, q, k);
    }
  }

  /** The deletions share no line, or leave nothing after themselves to lose. */
  predicate NothingExtra(p: nat, j: nat, q: nat, k: nat, n: nat)
    requires p <= q
  {
    j == 0 || k == 0 || p + j <= q || p + j >= n || q + k >= n
  }

  lemma {:induction false} SparedApart(lines: seq<string>, p: nat, j: nat, q: nat, k: nat)
    requires p + j <= q
    ensures var n := |lines|;
            Spared(lines, 0, p, j, q, k)
            == lines[..Clamp(p, n)] + lines[Clamp(p + j, n)..Clamp(q, n)] + lines[Clamp(q + k, n)..]
  {
    var n := |lines|;
    var a, b, c, d := Clamp(p, n), Clamp(p + j, n), Clamp(q, n), Clamp(q + k, n);
    SparedGap(lines, c, d, n, p, j, q, k);
    assert lines[d..n] + [] == lines[d..];
    SparedGap(lines, a, b, c, p, j, q, k);
    SparedRun(lines, 0, a, p, j, q, k);
    assert lines[..a] + (lines[b..c] + lines[d..]) == lines[..a] + lines[b..c] + lines[d..];
  }

  /** A chosen run, and a run that is not. */
  lemma {:induction false} SparedGap(lines: seq<string>, a: nat, b: nat, c: nat, p: nat, j: nat, q: nat, k: nat)
    requires a <= b <= c <= |lines|
    requires forall x: nat :: a <= x < b ==> Chosen(p, j, x) || Chosen(q, k, x)
    requires forall x: nat :: b <= x < c ==> !Chosen(p, j, x) && !Chosen(q, k, x)
    ensures Spared(lines, a, p, j, q, k) == lines[b..c] + Spared(lines, c, p, j, q, k)
  {
    ChosenRun(lines, a, b, p, j, q, k);
    SparedRun(lines, b, c, p, j, q, k);
  }

  lemma {:induction false} SparedOverlap(lines: seq<string>, p: nat, j: nat, q: nat, k: nat)
    requires p <= q < p + j
    ensures var n := |lines|;
            Spared(lines, 0, p, j, q, k)
            == lines[..Clamp(p, n)] + lines[Clamp(if p + j >= q + k then p + j else q + k, n)..]
  {
    var n := |lines|;
    var a, e := Clamp(p, n), Clamp(if p + j >= q + k then p + j else q + k, n);
    SparedRun(lines, 0, a, p, j, q, k);
    ChosenRun(lines, a, e, p, j, q, k);
    SparedRun(lines, e, n, p, j, q, k);
  }

  lemma {:induction false} TwoCuts(lines: seq<string>, p: nat, j: nat, q: nat, k: nat)
    requires p <= q
    ensures Cut(Cut(lines, q, k), p, j) == Spared(lines, 0, p, j, q, k)
            <==> NothingExtra(p, j, q, k, |lines|)
  {
    if p + j <= q {
      SparedApart(lines, p, j, q, k);
      SeparateCuts(lines, p, j, q, k);
    } else {
      SparedOverlap(lines, p, j, q, k);
      OverlappingCuts(lines, p, j, q, k);
    }
  }

  lemma {:induction false} SeparateCuts(lines: seq<string>, p: nat, j: nat, q: nat, k: nat)
    requires p + j <= q
    ensures var n := |lines|;
            Cut(Cut(lines, q, k), p, j)
            == lines[..Clamp(p, n)] + lines[Clamp(p + j, n)..Clamp(q, n)] + lines[Clamp(q + k, n)..]
  {
    var n := |lines|;
    var cut := Cut(lines, q, k);
    CutClamped(lines, q, k);
    CutClamped(cut, p, j);
    if q < n {
      var front, back := lines[..q], lines[Clamp(q + k, n)..];
      SplitFront(front, back, p);
      SplitFront(front, back, p + j);
      assert front[..p] == lines[..p] && front[p + j..] == lines[p + j..q];
    } else {
      assert lines[Clamp(p + j, n)..n] + [] == lines[Clamp(p + j, n)..];
    }
  }

  lemma {:induction false} OverlappingCuts(lines: seq<string>, p: nat, j: nat, q: nat, k: nat)
    requires p <= q < p + j
    ensures Cut(Cut(lines, q, k), p, j)
            == lines[..Clamp(p, |lines|)] + lines[Clamp(p + j + k, |lines|)..]
  {
    var n := |lines|;
    if q < n && q + k < n {
      var cut := lines[..q] + lines[q + k..];
      assert Cut(lines, q, k) == cut;
      if p + j < |cut| {
        assert cut[p + j..] == lines[p + j + k..];
      }
    }
  }

  /** Concurrent deletions of `j` lines at index `p` and `k` lines at `q` remove
      exactly the lines that at least one author chose if and only if they share no
      line or nothing follows them. Otherwise both orders still agree, but on a text
      that also lost lines nobody chose. */
  lemma {:induction false} DeletesTakeUnion(lines: seq<string>, p: nat, j: nat, q: nat, k: nat, result: seq<string>)
    requires p <= q
    requires result == InOrder(lines, Delete(q + 1, k), Delete(p + 1, j))
    ensures result == InOrder(lines, Delete(p + 1, j), Delete(q + 1, k))
    ensures result == Spared(lines, 0, p, j, q, k) <==> NothingExtra(p, j, q, k, |lines|)
  {
    DeletesMeet(lines, Delete(p + 1, j), Delete(q + 1, k), p, j, q, k);
    TwoCuts(lines, p, j, q, k);
  }
}
