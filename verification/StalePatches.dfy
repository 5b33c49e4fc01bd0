/** Stale patches that reach beyond one line: two operations, and deletions of several
    lines. */
module StalePatches {
  import opened Text
  import opened LineOps
  import opened LineTracking
  import opened Diamond

  // ------------------------------------------------------------------ two operations

  /** Labelled lines after other people's operations. */
  function TagOps(tl: seq<Tagged>, hops: seq<Op>): seq<Tagged>
    decreases hops
  {
    if hops == [] then tl else TagOps(TagLine(tl, hops[0]), hops[1..])
  }

  /** The text after other people's operations, and then the stale patch's first one. */
  function AfterFirst(lines: seq<string>, a: Op, hops: seq<Op>): seq<Tagged>
  {
    TagLine(TagOps(Label(lines), hops), RebaseOp(a, hops))
  }

  /** The second operation, written at line `q` for the old line `i`, finds that line
      when `hops` have come in between. */
  predicate Finds(lines: seq<string>, a: Op, q: int, i: nat, hops: seq<Op>)
  {
    Tracks(AfterFirst(lines, a, hops), i, ShiftAll(q, hops))
  }

  predicate AllWellformed(hops: seq<Op>)
  {
    forall k :: 0 <= k < |hops| ==> Wellformed(hops[k])
  }

  /** When it was written, the second operation stood at line `i` of the text. */
  predicate Addresses(lines: seq<string>, a: Op, q: int, i: nat)
  {
    var own := TagLine(Label(lines), a);
    1 <= q <= |own| && own[q - 1].id == Some(i)
  }

  lemma {:induction false} OpsTrack(tl: seq<Tagged>, hops: seq<Op>, i: nat, line: int)
    requires AllWellformed(hops) && Tracks(tl, i, line) && Separates(tl, i, line)
    ensures Tracks(TagOps(tl, hops), i, ShiftAll(line, hops)) && Separates(TagOps(tl, hops), i, ShiftAll(line, hops))
    decreases hops
  {
    if hops != [] {
      assert Wellformed(hops[0]);
      StepTracks(tl, hops[0], i, line);
      StepSeparates(tl, hops[0], i, line);
      OpsTrack(TagLine(tl, hops[0]), hops[1..], i, Shift(line, hops[0]));
    }
  }

  lemma {:induction false} FindsAbove(lines: seq<string>, a: Op, q: int, i: nat, hops: seq<Op>)
    requires Wellformed(a) && AllWellformed(hops) && Addresses(lines, a, q, i) && q < a.line
    ensures Finds(lines, a, q, i, hops)
  {
    var tl, b := TagOps(Label(lines), hops), RebaseOp(a, hops);
    assert i == q - 1 by { TagLineAt(Label(lines), a, q - 1); }
    LabelTracks(lines, i);
    OpsTrack(Label(lines), hops, i, q);
    LabelTracks(lines, a.line - 1);
    OpsTrack(Label(lines), hops, a.line - 1, a.line);
    ShiftAllMonotone(q, a.line, hops);
    StepBelow(tl, b, i, ShiftAll(q, hops));
  }

  lemma {:induction false} FindsUnmoved(lines: seq<string>, a: Op, q: int, i: nat, hops: seq<Op>)
    requires Wellformed(a) && AllWellformed(hops) && Addresses(lines, a, q, i) && a.Delete? && a.count == 0
    ensures Finds(lines, a, q, i, hops)
  {
    assert i == q - 1 by { TagLineAt(Label(lines), a, q - 1); }
    LabelTracks(lines, i);
    OpsTrack(Label(lines), hops, i, q);
    var tl := TagOps(Label(lines), hops);
    assert TagLine(tl, RebaseOp(a, hops)) == tl;
  }

  lemma {:induction false} OneHop(lines: seq<string>, a: Op, q: int, h: Op)
    requires Wellformed(a) && Wellformed(h)
    ensures TagOps(Label(lines), [h]) == TagLine(Label(lines), h)
    ensures ShiftAll(q, [h]) == Shift(q, h)
    ensures RebaseOp(a, [h]) == WithLine(a, Shift(a.line, h))
  {
    RebasedIs(a, h);
    assert [h][1..] == [];
    assert TagOps(TagLine(Label(lines), h), []) == TagLine(Label(lines), h);
    assert ShiftAll(Shift(q, h), []) == Shift(q, h);
  }

  /** A line inserted right where the second operation stands moves it, but not the
      line above that it meant. */
  lemma {:induction false} InsertLoses(lines: seq<string>, a: Op, q: int, i: nat, h: Op)
    requires Wellformed(a) && a.Insert? && Addresses(lines, a, q, i) && a.line <= q
    requires h.Insert? && h.line == q && InsertedLines(h.text) == [h.text] && h.text != ""
    ensures !Finds(lines, a, q, i, [h])
  {
    OneHop(lines, a, q, h);
    CountIsLength(h.text);
    CountIsLength(a.text);
    TagLineAt(Label(lines), a, q - 1);
    var tl := TagLine(Label(lines), h);
    assert tl[i] == Label(lines)[i];
    PutAbove(tl, a, i);
    assert AfterFirst(lines, a, [h])[q - 1] == tl[i];
  }

  lemma {:induction false} PutAbove(tl: seq<Tagged>, a: Op, j: nat)
    requires a.Insert? && 1 <= a.line <= j + 1 && j < |tl|
    ensures j + |Added(a)| < |TagLine(tl, a)| && TagLine(tl, a)[j + |Added(a)|] == tl[j]
  {
  }

  /** A line inserted right behind the second operation does not move it, but moves
      the line that it meant. */
  lemma {:induction false} DeleteLoses(lines: seq<string>, a: Op, q: int, i: nat, h: Op)
    requires Wellformed(a) && a.Delete? && a.count > 0 && Addresses(lines, a, q, i) && a.line <= q
    requires h.Insert? && h.line == q + 1 && InsertedLines(h.text) == [h.text] && h.text != ""
    ensures !Finds(lines, a, q, i, [h])
  {
    OneHop(lines, a, q, h);
    CountIsLength(h.text);
    TagLineAt(Label(lines), a, q - 1);
    var tl := TagLine(Label(lines), h);
    assert i == q - 1 + a.count;
    OneLower(lines, h, q, i);
    CutAbove(tl, a, i + 1);
    assert AfterFirst(lines, a, [h])[q] == tl[i + 1];
  }

  lemma {:induction false} OneLower(lines: seq<string>, h: Op, q: int, i: nat)
    requires h.Insert? && h.line == q + 1 && InsertedLines(h.text) == [h.text] && 1 <= q <= i < |lines|
    ensures i + 1 < |TagLine(Label(lines), h)| && TagLine(Label(lines), h)[i + 1] == Label(lines)[i]
  {
  }

  lemma {:induction false} CutAbove(tl: seq<Tagged>, a: Op, j: nat)
    requires a.Delete? && a.line >= 1 && a.count >= 0 && a.line - 1 + a.count <= j < |tl|
    ensures j - a.count < |TagLine(tl, a)| && TagLine(tl, a)[j - a.count] == tl[j]
  {
  }

  lemma {:induction false} Breaks(q: int, h: Op)
    requires q >= 1 && h == Insert(q, "\n")
    ensures Wellformed(h) && InsertedLines(h.text) == [h.text]
  {
    assert SplitLines("\n"[1..]) == [];
  }

  /** A patch of two operations survives whatever comes in between exactly when its
      second operation stands above its first, or the first does nothing: the server
      shifts both as if they were addressed to the same text. */
  lemma {:induction false} SecondFindsIff(lines: seq<string>, a: Op, q: int, i: nat)
    requires Wellformed(a) && Addresses(lines, a, q, i)
    ensures (forall hops :: AllWellformed(hops) ==> Finds(lines, a, q, i, hops))
            <==> q < a.line || (a.Delete? && a.count == 0)
  {
    if q < a.line {
      forall hops | AllWellformed(hops) ensures Finds(lines, a, q, i, hops) {
        FindsAbove(lines, a, q, i, hops);
      }
    } else if a.Delete? && a.count == 0 {
      forall hops | AllWellformed(hops) ensures Finds(lines, a, q, i, hops) {
        FindsUnmoved(lines, a, q, i, hops);
      }
    } else if a.Insert? {
      Breaks(q, Insert(q, "\n"));
      InsertLoses(lines, a, q, i, Insert(q, "\n"));
      assert AllWellformed([Insert(q, "\n")]);
    } else {
      Breaks(q + 1, Insert(q + 1, "\n"));
      DeleteLoses(lines, a, q, i, Insert(q + 1, "\n"));
      assert AllWellformed([Insert(q + 1, "\n")]);
    }
  }

  // ------------------------------------------------ lines that are not old ones

  /** The second operation, written at line `q` for the line number `d` that the first
      inserted, finds that line when `hops` have come in between. */
  predicate FindsOwn(lines: seq<string>, a: Op, q: int, d: nat, hops: seq<Op>)
  {
    ShiftAll(q, hops) - 1 == At(RebaseOp(a, hops), |TagOps(Label(lines), hops)|) + d
  }

  /** A line number within the text, or right behind it, stays there. */
  lemma {:induction false} StaysInside(tl: seq<Tagged>, hops: seq<Op>, line: int)
    requires AllWellformed(hops) && 1 <= line <= |tl| + 1
    ensures 1 <= ShiftAll(line, hops) <= |TagOps(tl, hops)| + 1
    decreases hops
  {
    if hops != [] {
      assert Wellformed(hops[0]);
      StepInside(tl, hops[0], line);
      StaysInside(TagLine(tl, hops[0]), hops[1..], Shift(line, hops[0]));
    }
  }

  lemma {:induction false} StepInside(tl: seq<Tagged>, h: Op, line: int)
    requires Wellformed(h) && 1 <= line <= |tl| + 1
    ensures 1 <= Shift(line, h) <= |TagLine(tl, h)| + 1
  {
    if h.Insert? { CountIsLength(h.text); }
  }

  /** A line break that comes in at line `r`. */
  lemma {:induction false} OneBreak(lines: seq<string>, a: Op, q: int, r: int, h: Op)
    requires Wellformed(a) && a.Insert? && r >= 1 && h == Insert(r, "\n")
    ensures AllWellformed([h]) && |TagOps(Label(lines), [h])| == |lines| + 1
    ensures ShiftAll(q, [h]) == if q >= r then q + 1 else q
    ensures RebaseOp(a, [h]) == Insert(if a.line >= r then a.line + 1 else a.line, a.text)
  {
    Breaks(r, h);
    OneHop(lines, a, q, h);
    CountIsLength(h.text);
  }

  /** An operation that was addressed to a line which the same patch inserted finds that
      line, whatever comes in between, exactly when it is the first of them, and the
      insertion was not past the end of the text. */
  lemma {:induction false} OwnLineIff(lines: seq<string>, a: Op, q: int, d: nat)
    requires Wellformed(a) && a.Insert? && d < |Added(a)| && q == At(a, |lines|) + d + 1
    ensures (forall hops :: AllWellformed(hops) ==> FindsOwn(lines, a, q, d, hops))
            <==> d == 0 && a.line <= |lines| + 1
  {
    if d == 0 && a.line <= |lines| + 1 {
      forall hops | AllWellformed(hops) ensures FindsOwn(lines, a, q, d, hops) {
        StaysInside(Label(lines), hops, a.line);
      }
    } else if a.line <= |lines| + 1 {
      OneBreak(lines, a, q, q, Insert(q, "\n"));
      assert !FindsOwn(lines, a, q, d, [Insert(q, "\n")]);
    } else {
      OneBreak(lines, a, q, q + 1, Insert(q + 1, "\n"));
      assert !FindsOwn(lines, a, q, d, [Insert(q + 1, "\n")]);
    }
  }

  /** The second operation, written behind the end of the text, is still there. */
  predicate StaysBehind(lines: seq<string>, a: Op, q: int, hops: seq<Op>)
  {
    ShiftAll(q, hops) > |AfterFirst(lines, a, hops)|
  }

  /** Line breaks that come in at line `r`, one by one. */
  function Pile(r: int, k: nat): (hops: seq<Op>)
    ensures |hops| == k && forall j :: 0 <= j < k ==> hops[j] == Insert(r, "\n")
  {
    seq(k, j => Insert(r, "\n"))
  }

  lemma {:induction false} Piled(tl: seq<Tagged>, q: int, r: int, k: nat)
    requires 1 <= q < r
    ensures AllWellformed(Pile(r, k)) && ShiftAll(q, Pile(r, k)) == q && |TagOps(tl, Pile(r, k))| == |tl| + k
    decreases k
  {
    if k > 0 {
      Breaks(r, Insert(r, "\n"));
      assert Pile(r, k)[1..] == Pile(r, k - 1);
      assert |TagLine(tl, Insert(r, "\n"))| == |tl| + 1;
      Piled(TagLine(tl, Insert(r, "\n")), q, r, k - 1);
    }
  }

  lemma {:induction false} Shortened(tl: seq<Tagged>, op: Op, most: nat)
    requires op.Insert? || (op.Delete? && 0 <= op.count <= most)
    ensures |TagLine(tl, op)| >= |tl| - most
  {
  }

  lemma {:induction false} PiledAbove(lines: seq<string>, a: Op, q: int, most: nat, hops: seq<Op>, b: Op,
                                      tl: seq<Tagged>)
    requires tl == TagOps(Label(lines), hops) && b == RebaseOp(a, hops) && ShiftAll(q, hops) == q
    requires b.Insert? || (b.Delete? && 0 <= b.count <= most)
    requires |tl| >= q + most
    ensures !StaysBehind(lines, a, q, hops)
  {
    Shortened(tl, b, most);
  }

  /** An operation that was addressed behind the end of the text never stays there for
      sure: the rebase does not know how long the text has become. */
  lemma {:induction false} NeverBehind(lines: seq<string>, a: Op, q: int)
    requires Wellformed(a) && q > |TagLine(Label(lines), a)|
    ensures !(forall hops :: AllWellformed(hops) ==> StaysBehind(lines, a, q, hops))
  {
    var most: nat := if a.Delete? then a.count else 0;
    var hops := Pile(q + 1, q + most);
    Piled(Label(lines), q, q + 1, q + most);
    var b := RebaseOp(a, hops);
    assert b == WithLine(a, b.line);
    PiledAbove(lines, a, q, most, hops, b, TagOps(Label(lines), hops));
  }

  // --------------------------------------------------- deletions of several lines

  predicate InRange(t: Tagged, i: nat, k: nat)
  {
    t.id.Some? && i <= t.id.value < i + k
  }

  /** The lines that are not among the `k` lines from the author's line `i` on. */
  function Outside(tl: seq<Tagged>, i: nat, k: nat): seq<Tagged>
  {
    if tl == [] then []
    else (if InRange(tl[0], i, k) then [] else [tl[0]]) + Outside(tl[1..], i, k)
  }

  lemma {:induction false} OutsideAppend(a: seq<Tagged>, b: seq<Tagged>, i: nat, k: nat)
    ensures Outside(a + b, i, k) == Outside(a, i, k) + Outside(b, i, k)
  {
    if a == [] {
      assert a + b == b;
    } else {
      assert (a + b)[1..] == a[1..] + b;
      OutsideAppend(a[1..], b, i, k);
    }
  }

  lemma {:induction false} OutsideNone(tl: seq<Tagged>, i: nat, k: nat)
    ensures (forall j :: 0 <= j < |tl| ==> !InRange(tl[j], i, k)) ==> Outside(tl, i, k) == tl
    ensures (forall j :: 0 <= j < |tl| ==> InRange(tl[j], i, k)) ==> Outside(tl, i, k) == []
    ensures forall t :: t in Outside(tl, i, k) <==> t in tl && !InRange(t, i, k)
  {
    if tl != [] {
      OutsideNone(tl[1..], i, k);
    }
  }

  /** Labels increase along the text. */
  ghost predicate Increasing(tl: seq<Tagged>)
  {
    forall j, l :: 0 <= j < l < |tl| && tl[j].id.Some? && tl[l].id.Some? ==> tl[j].id.value < tl[l].id.value
  }

  /** `k` lines with increasing labels out of `k` are all of them. */
  lemma {:induction false} FillRange(mid: seq<Tagged>, i: nat, k: nat, j: nat)
    requires Increasing(mid) && |mid| == k && j < k
    requires forall l :: 0 <= l < k ==> InRange(mid[l], i, k)
    ensures mid[j].id.Some? && mid[j].id.value >= i + j
  {
    assert InRange(mid[j], i, k);
    if j > 0 {
      FillRange(mid, i, k, j - 1);
    }
  }

  predicate AllIn(tl: seq<Tagged>, i: nat, k: nat)
  {
    forall j :: 0 <= j < |tl| ==> InRange(tl[j], i, k)
  }

  predicate NoneIn(tl: seq<Tagged>, i: nat, k: nat)
  {
    forall j :: 0 <= j < |tl| ==> !InRange(tl[j], i, k)
  }

  lemma {:induction false} OutsideParts(front: seq<Tagged>, mid: seq<Tagged>, tail: seq<Tagged>, i: nat, k: nat)
    requires NoneIn(front, i, k)
    ensures Outside(front + mid + tail, i, k) == front + (Outside(mid, i, k) + Outside(tail, i, k))
  {
    OutsideAppend(front + mid, tail, i, k);
    OutsideAppend(front, mid, i, k);
    OutsideNone(front, i, k);
  }

  lemma {:induction false} SameTail(front: seq<Tagged>, tail: seq<Tagged>, rest: seq<Tagged>)
    ensures front + tail == front + rest <==> tail == rest
  {
    if front + tail == front + rest {
      assert tail == (front + tail)[|front|..];
      assert rest == (front + rest)[|front|..];
    }
  }

  /** What is cut must be in the range, if nothing else is to be missing. */
  lemma {:induction false} NoForeign(mid: seq<Tagged>, tail: seq<Tagged>, i: nat, k: nat, kept: seq<Tagged>)
    requires kept == Outside(mid, i, k) && tail == kept + Outside(tail, i, k)
    ensures AllIn(mid, i, k)
  {
    OutsideNone(mid, i, k);
    NothingInRange(tail, kept, i, k);
    assert |kept| == 0;
    forall j | 0 <= j < |mid| ensures InRange(mid[j], i, k) {
      assert mid[j] in mid;
      assert mid[j] !in kept;
    }
  }

  /** A cut from the first possible place of the range on: it takes just the lines of
      the range exactly when it takes nothing else. */
  lemma {:induction false} CutIff(front: seq<Tagged>, mid: seq<Tagged>, tail: seq<Tagged>, i: nat, k: nat)
    requires Increasing(front + mid + tail) && |mid| <= k && (|mid| < k ==> tail == [])
    requires NoneIn(front, i, k)
    ensures front + tail == Outside(front + mid + tail, i, k) <==> AllIn(mid, i, k)
  {
    var om, ot := Outside(mid, i, k), Outside(tail, i, k);
    OutsideParts(front, mid, tail, i, k);
    SameTail(front, tail, om + ot);
    if AllIn(mid, i, k) {
      TailOutside(front, mid, tail, i, k);
      OutsideNone(mid, i, k);
      OutsideNone(tail, i, k);
    }
    if tail == om + ot {
      NoForeign(mid, tail, i, k, om);
    }
  }

  lemma {:induction false} NothingInRange(tail: seq<Tagged>, other: seq<Tagged>, i: nat, k: nat)
    requires tail == other + Outside(tail, i, k) && forall t :: t in other ==> !InRange(t, i, k)
    ensures Outside(tail, i, k) == tail
  {
    OutsideNone(tail, i, k);
    forall j | 0 <= j < |tail| ensures !InRange(tail[j], i, k) {
      if j < |other| {
        assert tail[j] == other[j];
      } else {
        assert tail[j] == Outside(tail, i, k)[j - |other|];
      }
    }
  }

  lemma {:induction false} TailOutside(front: seq<Tagged>, mid: seq<Tagged>, tail: seq<Tagged>, i: nat, k: nat)
    requires Increasing(front + mid + tail) && |mid| <= k && (|mid| < k ==> tail == [])
    requires AllIn(mid, i, k)
    ensures NoneIn(tail, i, k)
  {
    var all := front + mid + tail;
    assert Increasing(mid) by {
      assert forall j :: 0 <= j < |mid| ==> mid[j] == all[|front| + j];
    }
    if k > 0 && |mid| == k {
      FillRange(mid, i, k, k - 1);
      forall j | 0 <= j < |tail| ensures !InRange(tail[j], i, k) {
        assert tail[j] == all[|front| + |mid| + j] && mid[k - 1] == all[|front| + k - 1];
      }
    }
  }

  lemma {:induction false} LabelsIncrease(text: string, patches: seq<seq<Op>>, head: string, tl: seq<Tagged>)
    requires Meets(text, patches, head) && tl == TagHistory(Label(SplitLines(text)), patches)
    ensures Increasing(tl)
  {
    forall j, l | 0 <= j < l < |tl| && tl[j].id.Some? && tl[l].id.Some? ensures tl[j].id.value < tl[l].id.value {
      HeadLines(text, patches, head, tl[l].id.value);
    }
  }

  /** All lines from `at` on, up to `k`, are in the range. */
  predicate Meeting(tl: seq<Tagged>, at: nat, i: nat, k: nat)
  {
    forall j :: at <= j < at + k && j < |tl| ==> InRange(tl[j], i, k)
  }

  function CutEnd(tl: seq<Tagged>, at: nat, k: nat): (e: nat)
    requires at <= |tl|
    ensures at <= e <= |tl|
  {
    if at + k <= |tl| then at + k else |tl|
  }

  lemma {:induction false} CutAs(tl: seq<Tagged>, line: int, k: nat, at: nat)
    requires at == Clamp(line - 1, |tl|)
    ensures TagLine(tl, Delete(line, k)) == tl[..at] + tl[CutEnd(tl, at, k)..]
  {
  }

  lemma {:induction false} MeetingMid(tl: seq<Tagged>, at: nat, i: nat, k: nat, mid: seq<Tagged>)
    requires at <= |tl| && mid == tl[at..CutEnd(tl, at, k)]
    ensures Meeting(tl, at, i, k) <==> AllIn(mid, i, k)
  {
    assert forall j :: at <= j < CutEnd(tl, at, k) ==> tl[j] == mid[j - at];
  }

  lemma {:induction false} FrontOut(tl: seq<Tagged>, i: nat, k: nat, line: int, at: nat)
    requires Separates(tl, i, line) && at == Clamp(line - 1, |tl|)
    ensures NoneIn(tl[..at], i, k)
  {
  }

  lemma {:induction false} RangeCut(tl: seq<Tagged>, i: nat, k: nat, line: int, at: nat)
    requires Increasing(tl) && Separates(tl, i, line) && at == Clamp(line - 1, |tl|)
    ensures TagLine(tl, Delete(line, k)) == Outside(tl, i, k) <==> Meeting(tl, at, i, k)
  {
    var e := CutEnd(tl, at, k);
    var front, mid, tail := tl[..at], tl[at..e], tl[e..];
    assert tl == front + mid + tail;
    CutAs(tl, line, k, at);
    FrontOut(tl, i, k, line, at);
    MeetingMid(tl, at, i, k, mid);
    CutIff(front, mid, tail, i, k);
  }

  /** A stale deletion of `k` lines removes just those of them that are still there
      exactly when each of the lines it meets is one of them: nothing was put between
      them, and none was deleted before them unless the text ends. */
  lemma {:induction false} StaleRangeExact(text: string, patches: seq<seq<Op>>, head: string, i: nat, k: nat,
                                           tl: seq<Tagged>, line: int)
    requires Meets(text, patches, head) && tl == TagHistory(Label(SplitLines(text)), patches)
    requires line == ShiftAll(i + 1, Flatten(patches))
    ensures ApplyOps(head, RebaseOps([Delete(i + 1, k)], Flatten(patches)))
            == Some(Join(Texts(TagLine(tl, Delete(line, k)))))
    ensures TagLine(tl, Delete(line, k)) == Outside(tl, i, k)
            <==> Meeting(tl, Clamp(line - 1, |tl|), i, k)
  {
    HeadLines(text, patches, head, i);
    LabelsIncrease(text, patches, head, tl);
    RangeCut(tl, i, k, line, Clamp(line - 1, |tl|));
    HeadTerminated(text, patches, head);
    RangeServed(head, tl, i, k, Flatten(patches), line);
  }

  lemma {:induction false} RangeServed(head: string, tl: seq<Tagged>, i: nat, k: nat, hops: seq<Op>, line: int)
    requires SplitLines(head) == Texts(tl) && Terminated(head) && line == ShiftAll(i + 1, hops)
    ensures ApplyOps(head, RebaseOps([Delete(i + 1, k)], hops)) == Some(Join(Texts(TagLine(tl, Delete(line, k)))))
  {
    var ops := RebaseOps([Delete(i + 1, k)], hops);
    assert ops == [Delete(line, k)];
    ApplySingle(head, ops[0]);
    SplitTerminated(head);
    TagLineText(tl, ops[0]);
  }
}
