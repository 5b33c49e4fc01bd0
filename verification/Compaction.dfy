/** Rolling compaction: what does not fit is summarised, and no turn is lost. */
module Compaction {
  import opened Text
  import opened Contexts

  /** A summarisation job: the versions it covers, its user message, and the turns it
      folds in. */
  datatype Plan = Plan(lo: int, hi: int, prompt: string, overflow: seq<Item>)

  function Transcript(items: seq<Item>): string
  {
    if items == [] then ""
    else if |items| == 1 then items[0].turn.role + ": " + items[0].turn.content
    else items[0].turn.role + ": " + items[0].turn.content + "\n" + Transcript(items[1..])
  }

  function JobPrompt(c: Option<Item>, overflow: seq<Item>): string
  {
    var previous := if c.Some? then RStrip(LStrip(c.value.turn.content)) else "";
    (if previous == "" then "" else "Previous summary:\n" + previous + "\n\n")
    + "Conversation to fold in:\n" + Transcript(overflow)
  }

  function FirstCovered(c: Option<Item>): int
  {
    if c.Some? && c.value.turn.kind.Compaction? && c.value.turn.kind.covers != []
    then c.value.turn.kind.covers[0] else 1
  }

  /** `compaction_plan`. */
  function PlanFor(items: seq<Item>, window: int, maxOutput: int): (plan: Option<Plan>)
    ensures plan.Some? ==> plan.value.overflow != []
  {
    var overflow := Compile(items, window, maxOutput).overflow;
    if overflow == [] then None
    else
      var c := LatestCompaction(items);
      Some(Plan(FirstCovered(c), overflow[|overflow| - 1].version, JobPrompt(c, overflow), overflow))
  }

  /** `append_compaction`: the summary is one more entry of the log. */
  function Committed(items: seq<Item>, plan: Plan, summary: string): seq<Item>
  {
    items + [Item(LastVersion(items) + 1, Turn("system", summary, Compaction([plan.lo, plan.hi])))]
  }

  // ------------------------------------------------------------- partitioning

  function Newest(plan: Plan): Item
    requires plan.overflow != []
  {
    plan.overflow[|plan.overflow| - 1]
  }

  /** The newest live turns are the floor. */
  predicate FloorNewest(live: seq<Item>)
  {
    |Floor(live)| <= |live| && live[|live| - |Floor(live)|..] == Floor(live)
  }

  lemma {:induction false} LastOfIn(live: seq<Item>, role: string)
    ensures LastOf(live, role).Some? ==> LastOf(live, role).value in live && LastOf(live, role).value.turn.role == role
    ensures LastOf(live, role).None? <==> forall x :: x in live ==> x.turn.role != role
  {
    if live != [] {
      LastOfIn(live[..|live| - 1], role);
      assert live == live[..|live| - 1] + [live[|live| - 1]];
    }
  }

  lemma {:induction false} FloorIn(live: seq<Item>)
    requires Sorted(live)
    ensures forall f :: f in Floor(live) ==> f in live
    ensures |Floor(live)| == 2 ==> Floor(live)[0].version < Floor(live)[1].version
  {
    LastOfIn(live, "user");
    LastOfIn(live, "assistant");
  }

  lemma {:induction false} FloorHas(floor: seq<Item>)
    ensures forall x :: x in floor ==> HasVersion(floor, x.version)
  {
    forall x | x in floor ensures HasVersion(floor, x.version) {
      var k :| 0 <= k < |floor| && floor[k] == x;
    }
  }

  lemma {:induction false} FloorByVersion(live: seq<Item>, floor: seq<Item>)
    requires Sorted(live) && forall f :: f in floor ==> f in live
    ensures forall x :: x in live ==> (HasVersion(floor, x.version) <==> x in floor)
  {
    FloorHas(floor);
    forall x | x in live && HasVersion(floor, x.version) ensures x in floor {
      var k :| 0 <= k < |floor| && floor[k].version == x.version;
      SameVersion(live, x, floor[k]);
    }
  }

  lemma {:induction false} SelectParts(prefix: seq<Message>, live: seq<Item>, verbatim: nat)
    requires verbatim >= 1
    ensures Select(prefix, live, verbatim).floor == Floor(live)
    ensures Without(live, Floor(live)) == Select(prefix, live, verbatim).overflow + Select(prefix, live, verbatim).kept
  {
    var older := Without(live, Floor(live));
    KeptSuffix(older, Max(0, verbatim - Total(FitFloor(Floor(live), verbatim))));
  }

  lemma {:induction false} CompileParts(items: seq<Item>, window: int, maxOutput: int)
    ensures Compile(items, window, maxOutput).floor == Floor(Live(items))
    ensures Without(Live(items), Floor(Live(items)))
            == Compile(items, window, maxOutput).overflow + Compile(items, window, maxOutput).kept
  {
    if items != [] {
      var budget := Budget(window, maxOutput);
      var prefix := Prefix(LatestCompaction(items), SummaryBudget(budget));
      SelectParts(prefix, Live(items), VerbatimBudget(budget, prefix));
    }
  }

  lemma {:induction false} LiveIsSorted(items: seq<Item>)
    requires Sorted(items)
    ensures Sorted(Live(items))
    ensures forall x :: x in Live(items) ==> x in items && x.version > CoveredThrough(LatestCompaction(items))
  {
    LiveSorted(items, CoveredThrough(LatestCompaction(items)));
  }

  lemma {:induction false} PartsMembers(live: seq<Item>, overflow: seq<Item>, kept: seq<Item>)
    requires Sorted(live) && Without(live, Floor(live)) == overflow + kept
    ensures forall x :: x in live <==> x in overflow || x in kept || x in Floor(live)
    ensures forall x :: x in Floor(live) ==> x !in overflow && x !in kept
    ensures forall x, y :: x in overflow && y in kept ==> x.version < y.version
    ensures Sorted(overflow)
  {
    FloorIn(live);
    WithoutSorted(live, Floor(live));
    FloorByVersion(live, Floor(live));
    var older := overflow + kept;
    forall x ensures x in older <==> x in overflow || x in kept {
    }
    forall x, y | x in overflow && y in kept ensures x.version < y.version {
      var i :| 0 <= i < |overflow| && overflow[i] == x;
      var j :| 0 <= j < |kept| && kept[j] == y;
      assert older[i] == x && older[|overflow| + j] == y;
    }
    forall i | 0 <= i < |overflow| ensures overflow[i] == older[i] {
    }
  }

  /** Every live turn is in exactly one of the three parts. */
  lemma {:induction false} CompiledPartition(items: seq<Item>, window: int, maxOutput: int)
    requires Sorted(items)
    ensures var c := Compile(items, window, maxOutput);
            && (forall x :: x in Live(items) <==> x in c.overflow || x in c.kept || x in c.floor)
            && (forall x :: x in c.floor ==> x !in c.overflow && x !in c.kept)
            && (forall x, y :: x in c.overflow && y in c.kept ==> x.version < y.version)
  {
    var c := Compile(items, window, maxOutput);
    LiveIsSorted(items);
    CompileParts(items, window, maxOutput);
    PartsMembers(Live(items), c.overflow, c.kept);
  }

  lemma {:induction false} SameVersion(live: seq<Item>, x: Item, y: Item)
    requires Sorted(live) && x in live && y in live && x.version == y.version
    ensures x == y
  {
    var i :| 0 <= i < |live| && live[i] == x;
    var j :| 0 <= j < |live| && live[j] == y;
    assert i == j;
  }

  lemma {:induction false} WithoutEnd(live: seq<Item>, floor: seq<Item>, n: nat)
    requires Sorted(live) && n <= |live| && floor == live[n..]
    ensures Without(live, floor) == live[..n]
  {
    WithoutUpTo(live, floor, n, |live|);
    assert live[..|live|] == live;
  }

  lemma {:induction false} WithoutUpTo(live: seq<Item>, floor: seq<Item>, n: nat, k: nat)
    requires Sorted(live) && n <= |live| && floor == live[n..] && k <= |live|
    ensures Without(live[..k], floor) == live[..if k <= n then k else n]
    decreases k
  {
    if k > 0 {
      WithoutUpTo(live, floor, n, k - 1);
      assert live[..k][..k - 1] == live[..k - 1] && live[..k][k - 1] == live[k - 1];
      if k > n {
        assert floor[k - 1 - n].version == live[k - 1].version;
      } else {
        assert live[..k] == live[..k - 1] + [live[k - 1]];
      }
    }
  }

  lemma {:induction false} InOrderParts(live: seq<Item>, older: seq<Item>, floor: seq<Item>)
    requires Sorted(live) && older == Without(live, floor) && floor == Floor(live)
    ensures live == older + floor <==> FloorNewest(live)
  {
    if FloorNewest(live) {
      WithoutEnd(live, floor, |live| - |floor|);
    }
    if live == older + floor {
      assert live[|live| - |floor|..] == floor;
    }
  }

  /** The overflow, the kept turns and the floor are the live log in order, cut in
      three, exactly when the floor turns are the newest live turns. */
  lemma {:induction false} InLogOrderIff(items: seq<Item>, window: int, maxOutput: int)
    requires Sorted(items)
    ensures var c := Compile(items, window, maxOutput);
            Live(items) == c.overflow + c.kept + c.floor <==> FloorNewest(Live(items))
  {
    var c := Compile(items, window, maxOutput);
    LiveIsSorted(items);
    CompileParts(items, window, maxOutput);
    InOrderParts(Live(items), c.overflow + c.kept, c.floor);
  }

  // -------------------------------------------------------------- one commit

  /** Nothing in the floor is as old as the overflow. */
  predicate Safe(c: Compiled)
  {
    c.overflow != [] && (c.floor == [] || c.floor[0].version > c.overflow[|c.overflow| - 1].version)
  }

  /** The turns of `live` beyond version `v`. */
  function Above(live: seq<Item>, v: int): seq<Item>
  {
    if live == [] then []
    else Above(live[..|live| - 1], v) + if live[|live| - 1].version > v then [live[|live| - 1]] else []
  }

  lemma {:induction false} LiveAbove(items: seq<Item>, covered: int, v: int)
    requires covered <= v
    ensures LiveTurns(items, v) == Above(LiveTurns(items, covered), v)
  {
    if items != [] {
      var init, last := items[..|items| - 1], items[|items| - 1];
      LiveAbove(init, covered, v);
      if IsLive(last, covered) {
        assert (LiveTurns(init, covered) + [last])[..|LiveTurns(init, covered)|] == LiveTurns(init, covered);
      } else {
        assert LiveTurns(init, covered) + [] == LiveTurns(init, covered);
      }
    }
  }

  ghost predicate AllUpTo(items: seq<Item>, v: int)
  {
    forall k :: 0 <= k < |items| ==> items[k].version <= v
  }

  ghost predicate AllBeyond(items: seq<Item>, v: int)
  {
    forall k :: 0 <= k < |items| ==> items[k].version > v
  }

  lemma {:induction false} AboveNone(live: seq<Item>, v: int)
    requires AllUpTo(live, v)
    ensures Above(live, v) == []
  {
    if live != [] {
      AboveNone(live[..|live| - 1], v);
    }
  }

  lemma {:induction false} AboveNext(live: seq<Item>, x: Item, v: int)
    ensures Above(live + [x], v) == Above(live, v) + if x.version > v then [x] else []
  {
    assert (live + [x])[..|live|] == live;
  }

  /** Cut between the versions up to `v` and those beyond. */
  lemma {:induction false} AboveSplit(low: seq<Item>, high: seq<Item>, v: int)
    requires AllUpTo(low, v) && AllBeyond(high, v)
    ensures Above(low + high, v) == high
  {
    if high == [] {
      assert low + high == low;
      AboveNone(low, v);
    } else {
      var init, last := high[..|high| - 1], high[|high| - 1];
      AboveSplit(low, init, v);
      AboveNext(low + init, last, v);
      assert high == init + [last];
      assert low + high == low + init + [last];
    }
  }

  lemma {:induction false} AboveMembers(live: seq<Item>, v: int)
    ensures forall x :: x in Above(live, v) <==> x in live && x.version > v
  {
    if live != [] {
      AboveMembers(live[..|live| - 1], v);
      assert live == live[..|live| - 1] + [live[|live| - 1]];
    }
  }

  lemma {:induction false} LatestAfter(items: seq<Item>, x: Item)
    ensures LatestCompaction(items + [x]) == if x.turn.kind.Compaction? then Some(x) else LatestCompaction(items)
    ensures forall v :: LiveTurns(items + [x], v) == LiveTurns(items, v) + if IsLive(x, v) then [x] else []
  {
    assert (items + [x])[..|items|] == items;
  }

  /** After a commit, the live turns are those beyond the covered versions. */
  lemma {:induction false} LiveAfterCommit(items: seq<Item>, plan: Plan, summary: string)
    requires plan.hi >= CoveredThrough(LatestCompaction(items))
    ensures Live(Committed(items, plan, summary)) == Above(Live(items), plan.hi)
    ensures CoveredThrough(LatestCompaction(Committed(items, plan, summary))) == plan.hi
  {
    var x := Item(LastVersion(items) + 1, Turn("system", summary, Compaction([plan.lo, plan.hi])));
    LatestAfter(items, x);
    LiveAbove(items, CoveredThrough(LatestCompaction(items)), plan.hi);
  }

  lemma {:induction false} PlanIs(items: seq<Item>, window: int, maxOutput: int, plan: Plan)
    requires PlanFor(items, window, maxOutput) == Some(plan)
    ensures plan.overflow != [] && plan.hi == Newest(plan).version
    ensures plan.overflow == Compile(items, window, maxOutput).overflow
  {
  }

  lemma {:induction false} OverflowLive(items: seq<Item>, window: int, maxOutput: int, overflow: seq<Item>)
    requires Sorted(items) && overflow == Compile(items, window, maxOutput).overflow && overflow != []
    ensures overflow[|overflow| - 1] in Live(items)
  {
    CompiledPartition(items, window, maxOutput);
    assert overflow[|overflow| - 1] in overflow;
  }

  lemma {:induction false} LiveBounds(items: seq<Item>, x: Item)
    requires Sorted(items) && x in Live(items)
    ensures CoveredThrough(LatestCompaction(items)) < x.version <= LastVersion(items)
  {
    LiveIsSorted(items);
    NoneBeyond(items, x);
  }

  /** What a plan covers lies beyond what is covered already. */
  lemma {:induction false} PlanAdvances(items: seq<Item>, window: int, maxOutput: int, plan: Plan)
    requires Sorted(items) && PlanFor(items, window, maxOutput) == Some(plan)
    ensures plan.overflow != [] && plan.hi == Newest(plan).version
    ensures plan.overflow == Compile(items, window, maxOutput).overflow
    ensures Newest(plan) in Live(items)
    ensures CoveredThrough(LatestCompaction(items)) < plan.hi <= LastVersion(items)
  {
    PlanIs(items, window, maxOutput, plan);
    OverflowLive(items, window, maxOutput, plan.overflow);
    LiveBounds(items, Newest(plan));
  }

  /** Plain turns, with versions beyond everything in `items`. */
  ghost predicate Later(items: seq<Item>, later: seq<Item>)
  {
    && Sorted(items + later)
    && forall k :: 0 <= k < |later| ==> later[k].turn.kind.Plain?
  }

  lemma {:induction false} LiveLater(items: seq<Item>, later: seq<Item>)
    requires Later(items, later)
    ensures LatestCompaction(items + later) == LatestCompaction(items)
    ensures CoveredThrough(LatestCompaction(items)) <= LastVersion(items) ==> Live(items + later) == Live(items) + later
  {
    if later == [] {
      assert items + later == items;
    } else {
      var init, last := later[..|later| - 1], later[|later| - 1];
      assert items + later == (items + init) + [last];
      assert Sorted(items + init) by {
        assert forall k :: 0 <= k < |items + init| ==> (items + init)[k] == (items + later)[k];
      }
      LiveLater(items, init);
      LatestAfter(items + init, last);
      assert later == init + [last];
      if CoveredThrough(LatestCompaction(items)) <= LastVersion(items) {
        CoveredBefore(items, later);
      }
    }
  }

  lemma {:induction false} CoveredBefore(items: seq<Item>, later: seq<Item>)
    requires Sorted(items + later) && later != []
    ensures later[|later| - 1].version > LastVersion(items)
  {
    var all := items + later;
    assert all[|all| - 1] == later[|later| - 1];
    if items != [] {
      assert all[|items| - 1] == items[|items| - 1];
    }
  }

  /** The live turns after a late commit. */
  lemma {:induction false} CommitLive(items: seq<Item>, later: seq<Item>, plan: Plan, summary: string)
    requires Later(items, later) && CoveredThrough(LatestCompaction(items)) <= LastVersion(items)
    requires plan.hi >= CoveredThrough(LatestCompaction(items))
    ensures Live(items + later) == Live(items) + later
    ensures Live(Committed(items + later, plan, summary)) == Above(Live(items) + later, plan.hi)
  {
    LiveLater(items, later);
    LiveAfterCommit(items + later, plan, summary);
  }

  /** The turns a commit drops are exactly the ones it folded in, if and only if
      the floor is newer than what is folded in; turns appended in the meantime
      change nothing. */
  lemma {:induction false} CommitDropsIff(items: seq<Item>, later: seq<Item>, window: int, maxOutput: int,
                                          plan: Plan, summary: string)
    requires Later(items, later) && CoveredThrough(LatestCompaction(items)) <= LastVersion(items)
    requires PlanFor(items, window, maxOutput) == Some(plan)
    ensures DropsJust(Live(items + later), Live(Committed(items + later, plan, summary)), plan.overflow)
            <==> Safe(Compile(items, window, maxOutput))
  {
    var c := Compile(items, window, maxOutput);
    SortedHead(items, later);
    PlanAdvances(items, window, maxOutput, plan);
    CommitLive(items, later, plan, summary);
    CompileParts(items, window, maxOutput);
    DropsAfter(items, later, c.overflow, c.kept, plan.hi);
  }

  lemma {:induction false} DropsAfter(items: seq<Item>, later: seq<Item>, overflow: seq<Item>, kept: seq<Item>, hi: int)
    requires Sorted(items + later) && hi <= LastVersion(items)
    requires Without(Live(items), Floor(Live(items))) == overflow + kept
    requires overflow != [] && overflow[|overflow| - 1].version == hi
    ensures DropsJust(Live(items) + later, Above(Live(items) + later, hi), overflow)
            <==> (Floor(Live(items)) == [] || Floor(Live(items))[0].version > hi)
  {
    var live := Live(items);
    SortedHead(items, later);
    LiveIsSorted(items);
    AboveMembers(live + later, hi);
    LaterBeyond(items, later);
    DropsIff(live, later, overflow, kept, hi, Above(live + later, hi));
  }

  /** From `before` to `after`, what goes is exactly `gone`. */
  ghost predicate DropsJust(before: seq<Item>, after: seq<Item>, gone: seq<Item>)
  {
    forall x :: x in before ==> (x in after <==> x !in gone)
  }

  lemma {:induction false} DropsIff(live: seq<Item>, later: seq<Item>, overflow: seq<Item>, kept: seq<Item>,
                                    hi: int, above: seq<Item>)
    requires Sorted(live) && Without(live, Floor(live)) == overflow + kept
    requires overflow != [] && overflow[|overflow| - 1].version == hi
    requires forall x :: x in later ==> x.version > hi
    requires forall x :: x in above <==> (x in live || x in later) && x.version > hi
    ensures DropsJust(live + later, above, overflow)
            <==> (Floor(live) == [] || Floor(live)[0].version > hi)
  {
    PartsMembers(live, overflow, kept);
    var floor, last := Floor(live), overflow[|overflow| - 1];
    FloorIn(live);
    assert last in overflow;
    UpToLast(overflow, hi);
    if DropsJust(live + later, above, overflow) && floor != [] {
      assert floor[0] in floor;
      assert floor[0] in live + later && floor[0] !in overflow;
    }
    if floor == [] || floor[0].version > hi {
      FloorBeyond(floor, hi);
      forall x | x in live + later ensures x in above <==> x !in overflow {
        if x in kept {
          assert last.version < x.version;
        }
      }
    }
  }

  lemma {:induction false} UpToLast(overflow: seq<Item>, hi: int)
    requires Sorted(overflow) && overflow != [] && overflow[|overflow| - 1].version == hi
    ensures forall x :: x in overflow ==> x.version <= hi
  {
  }

  lemma {:induction false} FloorBeyond(floor: seq<Item>, hi: int)
    requires |floor| <= 2 && (|floor| == 2 ==> floor[0].version < floor[1].version)
    requires floor == [] || floor[0].version > hi
    ensures forall x :: x in floor ==> x.version > hi
  {
  }

  lemma {:induction false} SortedHead(items: seq<Item>, later: seq<Item>)
    requires Sorted(items + later)
    ensures Sorted(items)
  {
    assert forall k :: 0 <= k < |items| ==> (items + later)[k] == items[k];
  }

  lemma {:induction false} LaterBeyond(items: seq<Item>, later: seq<Item>)
    requires Sorted(items + later)
    ensures forall x :: x in later ==> x.version > LastVersion(items)
  {
    forall x | x in later ensures x.version > LastVersion(items) {
      var k :| 0 <= k < |later| && later[k] == x;
      assert (items + later)[|items| + k] == x;
      if items != [] {
        assert (items + later)[|items| - 1] == items[|items| - 1];
      }
    }
  }

  lemma {:induction false} NoneBeyond(items: seq<Item>, x: Item)
    requires Sorted(items) && x in items
    ensures x.version <= LastVersion(items)
  {
    var k :| 0 <= k < |items| && items[k] == x;
  }

  // ------------------------------------------------------ when every plan is safe

  /** Every plan for these turns, whatever the model's window, is safe. */
  ghost predicate AlwaysSafe(items: seq<Item>)
  {
    forall window, maxOutput :: PlanFor(items, window, maxOutput).Some? ==> Safe(Compile(items, window, maxOutput))
  }

  /** The last two live turns are a user turn and an assistant turn, in either order,
      or one side has not spoken yet and the other spoke last, or neither has. */
  predicate TurnsAlternate(live: seq<Item>)
  {
    var user, assistant := LastOf(live, "user").Some?, LastOf(live, "assistant").Some?;
    && (user || assistant ==> live[|live| - 1].turn.role == "user" || live[|live| - 1].turn.role == "assistant")
    && (user && assistant ==> |live| >= 2 && live[|live| - 1].turn.role != live[|live| - 2].turn.role
                              && (live[|live| - 2].turn.role == "user" || live[|live| - 2].turn.role == "assistant"))
  }

  ghost predicate SameMembers(a: seq<Item>, b: seq<Item>)
  {
    forall x :: x in a <==> x in b
  }

  lemma {:induction false} SameLast(a: seq<Item>, b: seq<Item>)
    requires Sorted(a) && Sorted(b) && SameMembers(a, b) && a != [] && b != []
    ensures a[|a| - 1] == b[|b| - 1]
    ensures SameMembers(a[..|a| - 1], b[..|b| - 1])
  {
    var x, y := a[|a| - 1], b[|b| - 1];
    NoneBeyond(a, y);
    NoneBeyond(b, x);
    assert x.version == y.version;
    SameVersion(a, x, y);
    InitMembers(a);
    InitMembers(b);
    var c, d := a[..|a| - 1], b[..|b| - 1];
    forall z ensures z in c <==> z in d {
      assert z in c <==> z in a && z != x;
      assert z in d <==> z in b && z != x;
    }
  }

  lemma {:induction false} SortedSame(a: seq<Item>, b: seq<Item>)
    requires Sorted(a) && Sorted(b) && SameMembers(a, b)
    ensures a == b
  {
    assert (a != [] ==> a[0] in a) && (b != [] ==> b[0] in b);
    if a != [] && b != [] {
      SameLast(a, b);
      SortedSame(a[..|a| - 1], b[..|b| - 1]);
      assert a == a[..|a| - 1] + [a[|a| - 1]] && b == b[..|b| - 1] + [b[|b| - 1]];
    }
  }

  lemma {:induction false} InitMembers(a: seq<Item>)
    requires Sorted(a) && a != []
    ensures forall x :: x in a[..|a| - 1] <==> x in a && x != a[|a| - 1]
  {
    var init, last := a[..|a| - 1], a[|a| - 1];
    assert a == init + [last];
    assert forall k :: 0 <= k < |init| ==> init[k] == a[k] && init[k].version < last.version;
  }

  lemma {:induction false} ShortSorted(floor: seq<Item>)
    requires |floor| <= 2 && forall f :: f in floor ==> f.version >= 1
    requires |floor| == 2 ==> floor[0].version < floor[1].version
    ensures Sorted(floor)
  {
  }

  lemma {:induction false} PositiveVersion(live: seq<Item>, x: Item)
    requires Sorted(live) && x in live
    ensures x.version >= 1
  {
  }

  lemma {:induction false} FloorSorted(live: seq<Item>)
    requires Sorted(live)
    ensures Sorted(Floor(live))
  {
    var floor := Floor(live);
    FloorIn(live);
    forall f | f in floor ensures f.version >= 1 {
      PositiveVersion(live, f);
    }
    ShortSorted(floor);
  }

  /** Where the floor is not the newest, an older turn of it hides behind a turn
      that is not in it. */
  lemma {:induction false} FloorHides(live: seq<Item>, older: seq<Item>)
    requires Sorted(live) && older == Without(live, Floor(live))
    ensures FloorNewest(live)
            <==> older == [] || Floor(live) == [] || older[|older| - 1].version < Floor(live)[0].version
  {
    var floor := Floor(live);
    FloorSorted(live);
    WithoutSorted(live, floor);
    InOrderParts(live, older, floor);
    if older == [] || floor == [] || older[|older| - 1].version < floor[0].version {
      Together(older, floor);
      FloorIn(live);
      FloorByVersion(live, floor);
      SortedSame(live, older + floor);
    } else {
      var all := older + floor;
      assert all[|older| - 1] == older[|older| - 1] && all[|older|] == floor[0];
    }
  }

  lemma {:induction false} Together(a: seq<Item>, b: seq<Item>)
    requires Sorted(a) && Sorted(b)
    requires a == [] || b == [] || a[|a| - 1].version < b[0].version
    ensures Sorted(a + b)
  {
    forall j, k | 0 <= j < k < |a + b| ensures (a + b)[j].version < (a + b)[k].version {
      if j < |a| && k >= |a| {
        assert a[j].version <= a[|a| - 1].version && b[0].version <= b[k - |a|].version;
      }
    }
  }

  /** With the smallest budget, the floor takes it all. */
  lemma {:induction false} NothingKept(prefix: seq<Message>, live: seq<Item>)
    requires Floor(live) != []
    ensures Select(prefix, live, 1).overflow == Without(live, Floor(live))
  {
    var ms := FitFloor(Floor(live), 1);
    assert Total(ms) == Total(ms[..|ms| - 1]) + EstTokens(ms[|ms| - 1].content);
    var older := Without(live, Floor(live));
    assert Select(prefix, live, 1).kept == KeepNewest(older, 0);
    assert KeepNewest(older, 0) == [];
    assert older[..|older|] == older;
  }

  lemma {:induction false} SmallestWindow(items: seq<Item>)
    requires items != [] && Floor(Live(items)) != []
    ensures Compile(items, 0, 0).overflow == Without(Live(items), Floor(Live(items)))
  {
    var prefix := Prefix(LatestCompaction(items), SummaryBudget(Budget(0, 0)));
    assert prefix != [] ==> Total(prefix) >= 1;
    assert VerbatimBudget(Budget(0, 0), prefix) == 1;
    NothingKept(prefix, Live(items));
  }

  /** Whatever the model's window, a plan is safe: exactly when the floor turns are
      the newest live turns. */
  lemma {:induction false} AlwaysSafeIff(items: seq<Item>)
    requires Sorted(items)
    ensures AlwaysSafe(items) <==> FloorNewest(Live(items))
  {
    var live := Live(items);
    var older := Without(live, Floor(live));
    LiveIsSorted(items);
    FloorHides(live, older);
    if FloorNewest(live) {
      forall window, maxOutput | PlanFor(items, window, maxOutput).Some?
        ensures Safe(Compile(items, window, maxOutput))
      {
        var c := Compile(items, window, maxOutput);
        CompileParts(items, window, maxOutput);
        SafeWhenNewest(live, older, c);
      }
    } else if items != [] {
      SmallestWindow(items);
      CompileParts(items, 0, 0);
      assert Compile(items, 0, 0).overflow == older;
      assert PlanFor(items, 0, 0).Some?;
    }
  }

  lemma {:induction false} SafeWhenNewest(live: seq<Item>, older: seq<Item>, c: Compiled)
    requires Floor(live) == [] || older == [] || older[|older| - 1].version < Floor(live)[0].version
    requires Sorted(live) && older == Without(live, Floor(live))
    requires c.floor == Floor(live) && older == c.overflow + c.kept && c.overflow != []
    ensures Safe(c)
  {
    WithoutSorted(live, Floor(live));
    assert older[|c.overflow| - 1] == c.overflow[|c.overflow| - 1];
    assert older[|c.overflow| - 1].version <= older[|older| - 1].version;
  }

  /** The floor turns are the newest ones exactly when the speakers alternate at the
      end of the log. */
  lemma {:induction false} FloorNewestIff(live: seq<Item>)
    requires Sorted(live)
    ensures FloorNewest(live) <==> TurnsAlternate(live)
  {
    LastOfIn(live, "user");
    LastOfIn(live, "assistant");
    if LastOf(live, "user").Some? && LastOf(live, "assistant").Some? {
      var u, a := LastOf(live, "user").value, LastOf(live, "assistant").value;
      FloorIn(live);
      BothSpoke(live, u, a);
    } else if LastOf(live, "user").Some? {
      OneSpoke(live, "user");
    } else if LastOf(live, "assistant").Some? {
      OneSpoke(live, "assistant");
    } else {
      assert live[|live|..] == [];
    }
  }

  lemma {:induction false} OneSpoke(live: seq<Item>, role: string)
    requires LastOf(live, role).Some?
    ensures live != [] && (live[|live| - 1..] == [LastOf(live, role).value] <==> live[|live| - 1].turn.role == role)
  {
    LastOfIn(live, role);
    assert live[|live| - 1..] == [live[|live| - 1]];
  }

  lemma {:induction false} LastTwo(live: seq<Item>, first: string, second: string)
    requires Sorted(live) && LastOf(live, first).Some? && LastOf(live, second).Some? && first != second
    requires live != [] && live[|live| - 1].turn.role == second
    ensures LastOf(live, second).value == live[|live| - 1]
    ensures LastOf(live, first).value.version < LastOf(live, second).value.version
    ensures |live| >= 2 && (LastOf(live, first).value == live[|live| - 2] <==> live[|live| - 2].turn.role == first)
  {
    var init := live[..|live| - 1];
    assert LastOf(live, first) == LastOf(init, first);
    LastOfIn(init, first);
    var x := LastOf(init, first).value;
    var k :| 0 <= k < |init| && init[k] == x;
    assert live[k] == x;
  }

  lemma {:induction false} BothSpoke(live: seq<Item>, u: Item, a: Item)
    requires Sorted(live) && LastOf(live, "user") == Some(u) && LastOf(live, "assistant") == Some(a)
    ensures FloorNewest(live) <==> TurnsAlternate(live)
  {
    LastOfIn(live, "user");
    LastOfIn(live, "assistant");
    var n := |live|;
    assert n >= 1;
    if live[n - 1].turn.role == "user" {
      LastTwo(live, "assistant", "user");
      assert Floor(live) == [a, u];
      assert live[n - 2..] == [live[n - 2], live[n - 1]];
    } else if live[n - 1].turn.role == "assistant" {
      LastTwo(live, "user", "assistant");
      assert Floor(live) == [u, a];
      assert live[n - 2..] == [live[n - 2], live[n - 1]];
    } else {
      assert |Floor(live)| == 2;
      assert Floor(live)[1].turn.role != live[n - 1].turn.role;
      if n >= 2 {
        assert live[n - 2..][1] == live[n - 1];
      }
    }
  }

  /** Compaction loses nothing, whatever the window, exactly when the speakers
      alternate at the end of the live log. */
  lemma {:induction false} SafeIffAlternating(items: seq<Item>)
    requires Sorted(items)
    ensures AlwaysSafe(items) <==> TurnsAlternate(Live(items))
  {
    LiveIsSorted(items);
    AlwaysSafeIff(items);
    FloorNewestIff(Live(items));
  }

  /** `text` contains `part`. */
  ghost predicate Contains(text: string, part: string)
  {
    exists before: string, after: string :: text == before + part + after
  }

  function Line(item: Item): string
  {
    item.turn.role + ": " + item.turn.content
  }

  lemma {:induction false} Embed(before: string, text: string, after: string, part: string)
    requires Contains(text, part)
    ensures Contains(before + text + after, part)
  {
    var b: string, a: string :| text == b + part + a;
    assert before + text + after == (before + b) + part + (a + after);
  }

  lemma {:induction false} TranscriptHas(items: seq<Item>, k: nat)
    requires k < |items|
    ensures Contains(Transcript(items), Line(items[k]))
  {
    var line := Line(items[0]);
    if k == 0 {
      var rest := if |items| == 1 then "" else "\n" + Transcript(items[1..]);
      assert Transcript(items) == "" + line + rest;
    } else {
      TranscriptHas(items[1..], k - 1);
      Embed(line + "\n", Transcript(items[1..]), "", Line(items[k]));
      assert Transcript(items) == line + "\n" + Transcript(items[1..]) + "";
    }
  }

  /** The summariser is shown every turn that its summary will stand for. */
  lemma {:induction false} SummariserSees(items: seq<Item>, window: int, maxOutput: int, plan: Plan, k: nat)
    requires PlanFor(items, window, maxOutput) == Some(plan) && k < |plan.overflow|
    ensures Contains(plan.prompt, Line(plan.overflow[k]))
  {
    var c := LatestCompaction(items);
    var t := Transcript(plan.overflow);
    TranscriptHas(plan.overflow, k);
    var previous := if c.Some? then RStrip(LStrip(c.value.turn.content)) else "";
    var head := (if previous == "" then "" else "Previous summary:\n" + previous + "\n\n")
                + "Conversation to fold in:\n";
    Embed(head, t, "", Line(plan.overflow[k]));
    assert plan.prompt == JobPrompt(c, plan.overflow);
    assert JobPrompt(c, plan.overflow) == head + t + "";
  }
}
