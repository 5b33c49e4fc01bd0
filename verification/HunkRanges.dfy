/** The ranges that bare hunks are given, against what the hunks do to the file. */
module HunkRanges {
  import opened Text
  import opened Hunks

  /** A hunk in its place: the lines it stands for and the lines it puts there. */
  datatype Placed = Placed(at: nat, was: seq<string>, news: seq<string>)

  /** In order, without overlap, and each where its old side is. */
  predicate InPlace(file: seq<string>, hs: seq<Placed>, from: nat)
  {
    hs == [] || (from <= hs[0].at && MatchesAt(file, hs[0].was, hs[0].at)
                 && InPlace(file, hs[1..], hs[0].at + |hs[0].was|))
  }

  /** The file from `from` on, with every hunk applied. */
  function Applied(file: seq<string>, hs: seq<Placed>, from: nat): seq<string>
    requires from <= |file| && InPlace(file, hs, from)
  {
    if hs == [] then file[from..]
    else file[from..hs[0].at] + hs[0].news + Applied(file, hs[1..], hs[0].at + |hs[0].was|)
  }

  /** By how much hunks lengthen a file. */
  function Growth(hs: seq<Placed>): int
  {
    if hs == [] then 0 else |hs[0].news| - |hs[0].was| + Growth(hs[1..])
  }

  /** The header of a hunk after the file has grown by `delta`. */
  function RangesOf(h: Placed, delta: int): Out
  {
    Header(h.at + 1, |h.was|, h.at + 1 + delta, |h.news|)
  }

  // -------------------------------------------------------------- new side in place

  /** The first hunk's share of the result. */
  lemma {:induction false} Peel(file: seq<string>, hs: seq<Placed>, from: nat)
      returns (gap: seq<string>, rest: seq<string>, after: nat)
    requires from <= |file| && InPlace(file, hs, from) && hs != []
    ensures from <= hs[0].at && MatchesAt(file, hs[0].was, hs[0].at) && after == hs[0].at + |hs[0].was| <= |file|
    ensures InPlace(file, hs[1..], after) && rest == Applied(file, hs[1..], after)
    ensures gap == file[from..hs[0].at] && |gap| == hs[0].at - from
    ensures Applied(file, hs, from) == gap + hs[0].news + rest
  {
    after := hs[0].at + |hs[0].was|;
    gap, rest := file[from..hs[0].at], Applied(file, hs[1..], after);
  }

  lemma {:induction false} NewSideAt(file: seq<string>, hs: seq<Placed>, from: nat, k: nat)
    requires from <= |file| && InPlace(file, hs, from) && k < |hs|
    ensures SitsAt(Applied(file, hs, from), hs[k].at - from + Growth(hs[..k]), hs[k].news)
  {
    var gap, rest, after := Peel(file, hs, from);
    if k == 0 {
      assert hs[..0] == [];
      SitsFirst(gap, hs[0].news, rest);
    } else {
      NewSideAt(file, hs[1..], after, k - 1);
      GrowthNext(hs, k);
      SitsNext(gap, hs[0].news, rest, hs[k].at - after + Growth(hs[1..][..k - 1]), hs[k].news);
    }
  }

  lemma {:induction false} SitsNext(gap: seq<string>, news: seq<string>, rest: seq<string>, start: int,
                                    part: seq<string>)
    requires SitsAt(rest, start, part)
    ensures SitsAt(gap + news + rest, |gap| + |news| + start, part)
  {
    Further(gap + news, rest, start, |part|);
  }

  predicate SitsAt(lines: seq<string>, start: int, part: seq<string>)
  {
    0 <= start && start + |part| <= |lines| && lines[start..start + |part|] == part
  }

  lemma {:induction false} SitsFirst(gap: seq<string>, part: seq<string>, rest: seq<string>)
    ensures SitsAt(gap + part + rest, |gap|, part)
  {
  }

  lemma {:induction false} Further(head: seq<string>, rest: seq<string>, start: nat, n: nat)
    requires start + n <= |rest|
    ensures (head + rest)[|head| + start..|head| + start + n] == rest[start..start + n]
  {
  }

  /** Exact ranges: in the file, the old range holds the hunk's old side; in the file
      with all hunks applied, the new range holds its new side. */
  lemma {:induction false} RangesExact(file: seq<string>, hs: seq<Placed>, k: nat)
    requires InPlace(file, hs, 0) && k < |hs|
    ensures var r := RangesOf(hs[k], Growth(hs[..k]));
            var result := Applied(file, hs, 0);
            && 1 <= r.oldStart && r.oldStart - 1 + r.oldLen <= |file|
            && file[r.oldStart - 1..r.oldStart - 1 + r.oldLen] == hs[k].was
            && 1 <= r.newStart && r.newStart - 1 + r.newLen <= |result|
            && result[r.newStart - 1..r.newStart - 1 + r.newLen] == hs[k].news
  {
    NewSideAt(file, hs, 0, k);
    InPlaceAt(file, hs, 0, k);
  }

  lemma {:induction false} InPlaceAt(file: seq<string>, hs: seq<Placed>, from: nat, k: nat)
    requires InPlace(file, hs, from) && k < |hs|
    ensures MatchesAt(file, hs[k].was, hs[k].at)
    ensures forall j :: k < j < |hs| ==> hs[k].at + |hs[k].was| <= hs[j].at
  {
    if k > 0 {
      InPlaceAt(file, hs[1..], hs[0].at + |hs[0].was|, k - 1);
    } else {
      LaterBeyond(file, hs[1..], hs[0].at + |hs[0].was|);
    }
  }

  lemma {:induction false} LaterBeyond(file: seq<string>, hs: seq<Placed>, from: nat)
    requires InPlace(file, hs, from)
    ensures forall j :: 0 <= j < |hs| ==> from <= hs[j].at
  {
    if hs != [] {
      LaterBeyond(file, hs[1..], hs[0].at + |hs[0].was|);
    }
  }

  // ------------------------------------------------------------------- and back again

  /** No hunk starts before the file does. */
  predicate Reversible(hs: seq<Placed>, delta: int)
  {
    hs == [] || (hs[0].at + delta >= 0 && Reversible(hs[1..], delta + |hs[0].news| - |hs[0].was|))
  }

  /** The hunks turned round: old side for new, at the new ranges. */
  function Reversed(hs: seq<Placed>, delta: int): (rs: seq<Placed>)
    requires Reversible(hs, delta)
    ensures |rs| == |hs|
  {
    if hs == [] then []
    else [Placed(hs[0].at + delta, hs[0].news, hs[0].was)] + Reversed(hs[1..], delta + |hs[0].news| - |hs[0].was|)
  }

  /** Applied to the result, the reversed hunks restore the file. */
  lemma {:induction false} Restores(file: seq<string>, hs: seq<Placed>, from: nat, delta: int, result: seq<string>,
                                    start: nat)
    requires from <= |file| && InPlace(file, hs, from) && start == from + delta && start <= |result|
    requires result[start..] == Applied(file, hs, from)
    ensures Reversible(hs, delta)
    ensures InPlace(result, Reversed(hs, delta), start)
    ensures Applied(result, Reversed(hs, delta), start) == file[from..]
  {
    if hs != [] {
      var gap, rest, after := Peel(file, hs, from);
      var h, next := hs[0], delta + |hs[0].news| - |hs[0].was|;
      var r := Placed(h.at + delta, h.news, h.was);
      TailAfter(result, start, gap, h.news, rest);
      Restores(file, hs[1..], after, next, result, after + next);
      RestoresOne(result, file, from, h, gap, r, Reversed(hs[1..], next), start);
      ReversedIs(hs, delta, r, next);
    }
  }

  lemma {:induction false} RestoresOne(result: seq<string>, file: seq<string>, from: nat, h: Placed, gap: seq<string>,
                                       r: Placed, rs: seq<Placed>, start: nat)
    requires from <= h.at && MatchesAt(file, h.was, h.at) && gap == file[from..h.at]
    requires r.was == h.news && r.news == h.was && r.at == start + |gap| && r.at + |r.was| <= |result|
    requires result[start..r.at] == gap && result[r.at..r.at + |r.was|] == r.was
    requires InPlace(result, rs, r.at + |r.was|) && Applied(result, rs, r.at + |r.was|) == file[h.at + |h.was|..]
    ensures InPlace(result, [r] + rs, start) && Applied(result, [r] + rs, start) == file[from..]
  {
    PutBack(result, r, rs, start, gap, file[h.at + |h.was|..]);
    Rejoin(file, from, h.at, h.at + |h.was|, h.was);
  }

  lemma {:induction false} ReversedIs(hs: seq<Placed>, delta: int, r: Placed, next: int)
    requires hs != [] && hs[0].at + delta >= 0 && next == delta + |hs[0].news| - |hs[0].was|
    requires Reversible(hs[1..], next) && r == Placed(hs[0].at + delta, hs[0].news, hs[0].was)
    ensures Reversible(hs, delta) && Reversed(hs, delta) == [r] + Reversed(hs[1..], next)
  {
  }

  lemma {:induction false} Rejoin(file: seq<string>, from: nat, at: nat, after: nat, was: seq<string>)
    requires from <= at <= after <= |file| && file[at..after] == was
    ensures file[from..at] + was + file[after..] == file[from..]
  {
    assert file[from..] == file[from..at] + file[at..after] + file[after..];
  }

  lemma {:induction false} PutBack(result: seq<string>, r: Placed, rs: seq<Placed>, start: nat, gap: seq<string>,
                                   tail: seq<string>)
    requires start <= r.at && r.at + |r.was| <= |result|
    requires result[start..r.at] == gap && result[r.at..r.at + |r.was|] == r.was
    requires InPlace(result, rs, r.at + |r.was|) && Applied(result, rs, r.at + |r.was|) == tail
    ensures InPlace(result, [r] + rs, start) && Applied(result, [r] + rs, start) == gap + r.news + tail
  {
    assert ([r] + rs)[1..] == rs;
  }

  /** A hunk's reversal sits at the new range that its header gives. */
  lemma {:induction false} ReversedAt(hs: seq<Placed>, delta: int, k: nat)
    requires Reversible(hs, delta) && k < |hs|
    ensures Reversed(hs, delta)[k].at == hs[k].at + delta + Growth(hs[..k])
    ensures Reversed(hs, delta)[k].was == hs[k].news && Reversed(hs, delta)[k].news == hs[k].was
  {
    if k == 0 {
      assert hs[..0] == [];
    } else {
      ReversedAt(hs[1..], delta + |hs[0].news| - |hs[0].was|, k - 1);
      GrowthNext(hs, k);
    }
  }

  lemma {:induction false} GrowthNext(hs: seq<Placed>, k: nat)
    requires 0 < k <= |hs|
    ensures Growth(hs[..k]) == |hs[0].news| - |hs[0].was| + Growth(hs[1..][..k - 1])
  {
    assert hs[..k][1..] == hs[1..][..k - 1] && hs[..k][0] == hs[0];
  }

  /** The ranges are exact both ways: the old ones say where to apply the hunks to the
      file, the new ones where to take them back. */
  lemma {:induction false} RoundTrip(file: seq<string>, hs: seq<Placed>)
    requires InPlace(file, hs, 0)
    ensures Reversible(hs, 0) && InPlace(Applied(file, hs, 0), Reversed(hs, 0), 0)
    ensures Applied(Applied(file, hs, 0), Reversed(hs, 0), 0) == file
  {
    Restores(file, hs, 0, 0, Applied(file, hs, 0), 0);
  }

  lemma {:induction false} TailAfter(result: seq<string>, start: nat, gap: seq<string>, news: seq<string>,
                                     rest: seq<string>)
    requires start <= |result| && result[start..] == gap + news + rest
    ensures start + |gap| + |news| <= |result|
    ensures result[start..start + |gap|] == gap
    ensures result[start + |gap|..start + |gap| + |news|] == news
    ensures result[start + |gap| + |news|..] == rest
  {
    var tail := result[start..];
    assert tail[..|gap|] == gap && tail[|gap|..|gap| + |news|] == news && tail[|gap| + |news|..] == rest;
  }
}
