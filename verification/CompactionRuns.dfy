/** A session over time: turns arrive, summarisation jobs come and go. */
module CompactionRuns {
  import opened Text
  import opened Contexts
  import opened Compaction
  import opened CompactionJobs

  /** A session: its log, whether it is marked as being compacted, and the
      summarisation job in the queue, if any. */
  datatype Session = Session(items: seq<Item>, compacting: bool, job: Option<Job>)

  datatype Event =
    | Say(role: string, content: string)
    | Start(window: int, maxOutput: int)
    | Summarised(summary: string, window: int)
    | Failed(window: int)
    | Dropped
    | Cleared

  /** One event. `Start` is `_maybe_compact`; `Summarised` and `Failed` are the job's
      committed result, from a node with this window, which the router must have found
      to be large enough; `Dropped` is a job that was cancelled or deleted, or that failed
      with the node it ran on; `Cleared` is the failure of another task of the session
      that records no turns. */
  function Next(s: Session, e: Event): Session
  {
    match e
    case Say(role, content) =>
      s.(items := s.items + [Item(LastVersion(s.items) + 1, Turn(role, content, Plain))])
    case Start(window, maxOutput) =>
      var plan := PlanFor(s.items, window, maxOutput);
      if s.compacting || plan.None? then s
      else s.(compacting := true, job := Some(JobFor(plan.value, window)))
    case Summarised(summary, window) =>
      if !RunsOn(s, window) then s
      else if summary == "" then s.(job := None)
      else Session(Committed(s.items, s.job.value.plan, summary), false, None)
    case Failed(window) =>
      if !RunsOn(s, window) then s else s.(compacting := false, job := None)
    case Dropped => s.(job := None)
    case Cleared => s.(compacting := false)
  }

  /** Is there a job, and does it run on a node with this window? */
  predicate RunsOn(s: Session, window: int)
  {
    s.job.Some? && Runs(s.job.value, window)
  }

  function Run(s: Session, es: seq<Event>): Session
  {
    if es == [] then s else Next(Run(s, es[..|es| - 1]), es[|es| - 1])
  }

  /** No other task's failure clears the mark while a job is queued, so that there is
      never a second job beside it. */
  predicate Calm(s: Session, es: seq<Event>)
  {
    es == [] || (Calm(s, es[..|es| - 1]) && (es[|es| - 1].Cleared? ==> Run(s, es[..|es| - 1]).job.None?))
  }

  const FRESH: Session := Session([], false, None)

  /** The turns of a log that are not summaries. */
  function Said(items: seq<Item>): seq<Item>
  {
    if items == [] then []
    else Said(items[..|items| - 1]) + if items[|items| - 1].turn.kind.Plain? then [items[|items| - 1]] else []
  }

  /** The turns that the committed summaries of a run were written from, in order. */
  function Folded(s: Session, es: seq<Event>): seq<Item>
  {
    if es == [] then []
    else Folded(s, es[..|es| - 1]) + FoldedBy(Run(s, es[..|es| - 1]), es[|es| - 1])
  }

  function FoldedBy(s: Session, e: Event): seq<Item>
  {
    if Commits(s, e) then s.job.value.plan.overflow else []
  }

  predicate Commits(s: Session, e: Event)
  {
    e.Summarised? && e.summary != "" && RunsOn(s, e.window)
  }

  /** Summaries committed in a run. */
  function Commitments(s: Session, es: seq<Event>): nat
  {
    if es == [] then 0
    else Commitments(s, es[..|es| - 1]) + if Commits(Run(s, es[..|es| - 1]), es[|es| - 1]) then 1 else 0
  }

  /** Turns said in a run. */
  function Sayings(es: seq<Event>): nat
  {
    if es == [] then 0 else Sayings(es[..|es| - 1]) + if es[|es| - 1].Say? then 1 else 0
  }

  // ------------------------------------------------------------------ invariant

  /** What a job folds in are live turns, in log order. */
  ghost predicate Folds(plan: Plan, live: seq<Item>)
  {
    && plan.overflow != [] && plan.hi == Newest(plan).version
    && Sorted(plan.overflow) && forall x :: x in plan.overflow ==> x in live
  }

  ghost predicate JobFits(s: Session)
  {
    s.job.Some? ==> s.compacting && Folds(s.job.value.plan, Live(s.items))
  }

  ghost predicate Inv(s: Session)
  {
    && Sorted(s.items)
    && CoveredThrough(LatestCompaction(s.items)) <= LastVersion(s.items)
    && JobFits(s)
  }

  lemma {:induction false} SayKeeps(s: Session, role: string, content: string)
    requires Inv(s)
    ensures Inv(Next(s, Say(role, content)))
    ensures Live(Next(s, Say(role, content)).items)
            == Live(s.items) + [Item(LastVersion(s.items) + 1, Turn(role, content, Plain))]
    ensures LatestCompaction(Next(s, Say(role, content)).items) == LatestCompaction(s.items)
  {
    var x := Item(LastVersion(s.items) + 1, Turn(role, content, Plain));
    NextSorted(s.items, x.turn);
    OneMoreLive(s.items, x);
  }

  lemma {:induction false} OneMoreLive(items: seq<Item>, x: Item)
    requires Sorted(items + [x]) && x.turn.kind.Plain? && x.version == LastVersion(items) + 1
    requires CoveredThrough(LatestCompaction(items)) <= LastVersion(items)
    ensures Live(items + [x]) == Live(items) + [x] && LatestCompaction(items + [x]) == LatestCompaction(items)
    ensures LastVersion(items + [x]) == x.version
  {
    LiveLater(items, [x]);
  }

  lemma {:induction false} PlanFolds(items: seq<Item>, window: int, maxOutput: int, plan: Plan)
    requires Sorted(items) && PlanFor(items, window, maxOutput) == Some(plan)
    ensures Folds(plan, Live(items))
  {
    PlanIs(items, window, maxOutput, plan);
    CompileParts(items, window, maxOutput);
    LiveIsSorted(items);
    PartsMembers(Live(items), plan.overflow, Compile(items, window, maxOutput).kept);
  }

  lemma {:induction false} StartKeeps(s: Session, window: int, maxOutput: int)
    requires Inv(s)
    ensures Inv(Next(s, Start(window, maxOutput)))
  {
    var plan := PlanFor(s.items, window, maxOutput);
    if !s.compacting && plan.Some? {
      PlanFolds(s.items, window, maxOutput, plan.value);
    }
  }

  lemma {:induction false} CommittedSorted(items: seq<Item>, plan: Plan, summary: string)
    requires Sorted(items)
    ensures Sorted(Committed(items, plan, summary))
    ensures LastVersion(Committed(items, plan, summary)) == LastVersion(items) + 1
    ensures Said(Committed(items, plan, summary)) == Said(items)
  {
    NextSorted(items, Turn("system", summary, Compaction([plan.lo, plan.hi])));
    SaidNext(items, Item(LastVersion(items) + 1, Turn("system", summary, Compaction([plan.lo, plan.hi]))));
  }

  lemma {:induction false} CommitKeeps(s: Session, e: Event, plan: Plan)
    requires Inv(s) && Commits(s, e) && plan == s.job.value.plan
    ensures Inv(Next(s, e))
    ensures Next(s, e) == Session(Committed(s.items, plan, e.summary), false, None)
    ensures Live(Next(s, e).items) == Above(Live(s.items), plan.hi)
    ensures CoveredThrough(LatestCompaction(Next(s, e).items)) == plan.hi > CoveredThrough(LatestCompaction(s.items))
    ensures Said(Next(s, e).items) == Said(s.items)
  {
    assert Newest(plan) in plan.overflow;
    LiveBounds(s.items, Newest(plan));
    CommittedSorted(s.items, plan, e.summary);
    LiveAfterCommit(s.items, plan, e.summary);
  }

  lemma {:induction false} NextKeeps(s: Session, e: Event)
    requires Inv(s) && (e.Cleared? ==> s.job.None?)
    ensures Inv(Next(s, e))
  {
    match e
    case Say(role, content) => SayKeeps(s, role, content);
    case Start(window, maxOutput) => StartKeeps(s, window, maxOutput);
    case Summarised(summary, window) => if Commits(s, e) { CommitKeeps(s, e, s.job.value.plan); }
    case Failed(window) =>
    case Dropped =>
    case Cleared =>
  }

  lemma {:induction false} RunKeeps(s: Session, es: seq<Event>)
    requires Inv(s) && Calm(s, es)
    ensures Inv(Run(s, es))
  {
    if es != [] {
      RunKeeps(s, es[..|es| - 1]);
      NextKeeps(Run(s, es[..|es| - 1]), es[|es| - 1]);
    }
  }

  // ---------------------------------------------------------------- no turn lost

  /** The queued job folds in the oldest live turns. */
  ghost predicate JobLeads(s: Session)
  {
    s.job.Some? && s.job.value.plan.overflow <= Live(s.items)
  }

  predicate Starts(s: Session, e: Event)
  {
    e.Start? && !s.compacting && PlanFor(s.items, e.window, e.maxOutput).Some?
  }

  /** The last plan of the run was made while everything in the floor was newer than
      what it folds in. */
  predicate PlannedSafely(s: Session, es: seq<Event>)
  {
    if es == [] then false
    else
      var t, e := Run(s, es[..|es| - 1]), es[|es| - 1];
      if Starts(t, e) then Safe(Compile(t.items, e.window, e.maxOutput)) else PlannedSafely(s, es[..|es| - 1])
  }

  /** Whatever the run commits was planned safely. */
  predicate SafeCommits(s: Session, es: seq<Event>)
  {
    es == []
    || (SafeCommits(s, es[..|es| - 1])
        && (Commits(Run(s, es[..|es| - 1]), es[|es| - 1]) ==> PlannedSafely(s, es[..|es| - 1])))
  }

  lemma {:induction false} SaidNext(items: seq<Item>, x: Item)
    ensures Said(items + [x]) == Said(items) + if x.turn.kind.Plain? then [x] else []
  {
    assert (items + [x])[..|items|] == items;
  }

  lemma {:induction false} SortedSubset(a: seq<Item>, b: seq<Item>)
    requires Sorted(a) && Sorted(b) && forall x :: x in a ==> x in b
    ensures |a| <= |b| && (|a| == |b| ==> a == b)
    decreases b
  {
    assert a != [] ==> a[0] in a;
    if a != [] && b != [] {
      var c, d := a[..|a| - 1], b[..|b| - 1];
      SubsetInit(a, b, c, d);
      if a[|a| - 1] == b[|b| - 1] {
        SortedSubset(c, d);
      } else {
        SortedSubset(a, d);
      }
    }
  }

  lemma {:induction false} SubsetInit(a: seq<Item>, b: seq<Item>, c: seq<Item>, d: seq<Item>)
    requires Sorted(a) && Sorted(b) && a != [] && b != [] && forall x :: x in a ==> x in b
    requires c == a[..|a| - 1] && d == b[..|b| - 1]
    ensures a == c + [a[|a| - 1]] && b == d + [b[|b| - 1]] && Sorted(c) && Sorted(d)
    ensures a[|a| - 1] == b[|b| - 1] ==> forall x :: x in c ==> x in d
    ensures a[|a| - 1] != b[|b| - 1] ==> forall x :: x in a ==> x in d
  {
    InitMembers(a);
    InitMembers(b);
    if a[|a| - 1] != b[|b| - 1] {
      NotLast(a, b);
      forall x | x in a ensures x in d {
        assert x in b && x != b[|b| - 1];
      }
    } else {
      forall x | x in c ensures x in d {
        assert x in a && x in b && x != b[|b| - 1];
      }
    }
  }

  lemma {:induction false} NotLast(a: seq<Item>, b: seq<Item>)
    requires Sorted(a) && Sorted(b) && a != [] && b != [] && forall x :: x in a ==> x in b
    requires a[|a| - 1] != b[|b| - 1]
    ensures forall x :: x in a ==> x != b[|b| - 1]
  {
    var x, y := a[|a| - 1], b[|b| - 1];
    assert x in a;
    NoneBeyond(b, x);
    if y in a {
      NoneBeyond(a, y);
      SameVersion(b, x, y);
    }
  }

  /** Live turns are those up to a version, and those beyond. */
  lemma {:induction false} CutAt(live: seq<Item>, hi: int) returns (low: seq<Item>)
    requires Sorted(live)
    ensures live == low + Above(live, hi) && Sorted(low)
    ensures forall x :: x in low <==> x in live && x.version <= hi
  {
    AboveMembers(live, hi);
    if live == [] || live[|live| - 1].version <= hi {
      AllLow(live, hi);
      AboveNone(live, hi);
      low := live;
    } else {
      var init, last := live[..|live| - 1], live[|live| - 1];
      low := CutAt(init, hi);
      var above := Above(init, hi) + [last];
      assert above == Above(live, hi);
      assert live == init + [last];
      assert low + Above(init, hi) + [last] == low + above;
      CutMembers(live, low, above, hi);
    }
  }

  lemma {:induction false} CutMembers(live: seq<Item>, low: seq<Item>, above: seq<Item>, hi: int)
    requires live == low + above && (forall x :: x in above ==> x.version > hi)
    requires forall x :: x in low ==> x.version <= hi
    ensures forall x :: x in low <==> x in live && x.version <= hi
  {
  }

  lemma {:induction false} AllLow(live: seq<Item>, hi: int)
    requires Sorted(live) && (live == [] || live[|live| - 1].version <= hi)
    ensures AllUpTo(live, hi)
  {
  }

  /** Dropping what is covered takes as many turns as were folded in, or more; no more
      exactly when they were the oldest. */
  lemma {:induction false} CutCounts(live: seq<Item>, plan: Plan)
    requires Sorted(live) && Folds(plan, live)
    ensures |plan.overflow| + |Above(live, plan.hi)| <= |live|
    ensures plan.overflow <= live <==> |plan.overflow| + |Above(live, plan.hi)| == |live|
    ensures plan.overflow <= live <==> live == plan.overflow + Above(live, plan.hi)
  {
    var low := CutAt(live, plan.hi);
    UpToLast(plan.overflow, plan.hi);
    SortedSubset(plan.overflow, low);
    if plan.overflow <= live {
      CutAfter(live, plan.overflow);
    }
  }

  lemma {:induction false} CutAfter(live: seq<Item>, head: seq<Item>)
    requires Sorted(live) && head <= live && head != []
    ensures live == head + Above(live, head[|head| - 1].version)
  {
    var rest := live[|head|..];
    assert live == head + rest;
    assert forall k :: 0 <= k < |head| ==> head[k] == live[k];
    assert forall k :: 0 <= k < |rest| ==> rest[k] == live[|head| + k];
    AboveSplit(head, rest, head[|head| - 1].version);
  }

  /** The oldest live turns are what is dropped, and nothing else is. */
  lemma {:induction false} LeadsIffDrops(live: seq<Item>, head: seq<Item>, hi: int)
    requires Sorted(live) && Sorted(head) && head != [] && head[|head| - 1].version == hi
    requires forall x :: x in head ==> x in live
    ensures head <= live <==> DropsJust(live, Above(live, hi), head)
  {
    AboveMembers(live, hi);
    UpToLast(head, hi);
    if head <= live {
      CutAfter(live, head);
      PrefixDrops(live, head, Above(live, hi), hi);
    } else if DropsJust(live, Above(live, hi), head) {
      var low := CutAt(live, hi);
      SortedSame(head, low);
    }
  }

  /** A plan leads the live log exactly when it is safe. */
  lemma {:induction false} LeadsIffSafe(live: seq<Item>, c: Compiled)
    requires Sorted(live) && c.floor == Floor(live) && Without(live, Floor(live)) == c.overflow + c.kept
    requires c.overflow != []
    ensures c.overflow <= live <==> Safe(c)
  {
    var hi := c.overflow[|c.overflow| - 1].version;
    PartsMembers(live, c.overflow, c.kept);
    AboveMembers(live, hi);
    assert live + [] == live;
    DropsIff(live, [], c.overflow, c.kept, hi, Above(live, hi));
    LeadsIffDrops(live, c.overflow, hi);
  }

  lemma {:induction false} PrefixDrops(live: seq<Item>, head: seq<Item>, rest: seq<Item>, hi: int)
    requires live == head + rest && (forall x :: x in rest <==> x in live && x.version > hi)
    requires forall x :: x in head ==> x.version <= hi
    ensures DropsJust(live, rest, head)
  {
  }

  lemma {:induction false} PlanLeadsIff(items: seq<Item>, window: int, maxOutput: int, plan: Plan)
    requires Sorted(items) && PlanFor(items, window, maxOutput) == Some(plan)
    ensures plan.overflow <= Live(items) <==> Safe(Compile(items, window, maxOutput))
  {
    PlanIs(items, window, maxOutput, plan);
    CompileParts(items, window, maxOutput);
    LiveIsSorted(items);
    LeadsIffSafe(Live(items), Compile(items, window, maxOutput));
  }

  lemma {:induction false} StillLeads(live: seq<Item>, x: Item, plan: Plan)
    requires Sorted(live) && Folds(plan, live)
    ensures plan.overflow <= live + [x] <==> plan.overflow <= live
  {
    SortedSubset(plan.overflow, live);
    if plan.overflow <= live + [x] {
      assert forall k :: 0 <= k < |plan.overflow| ==> plan.overflow[k] == (live + [x])[k];
    }
  }

  /** Once planned, a job leads or does not, whatever is said meanwhile. */
  lemma {:induction false} LeadStays(s: Session, e: Event)
    requires Inv(s) && !Starts(s, e) && (e.Cleared? ==> s.job.None?) && Next(s, e).job.Some?
    ensures JobLeads(Next(s, e)) <==> JobLeads(s)
    ensures s.job.Some?
  {
    if e.Say? {
      SayKeeps(s, e.role, e.content);
      LiveIsSorted(s.items);
      StillLeads(Live(s.items), Item(LastVersion(s.items) + 1, Turn(e.role, e.content, Plain)), s.job.value.plan);
    }
  }

  lemma {:induction false} LeadsIffPlannedSafely(s: Session, es: seq<Event>)
    requires Inv(s) && s.job.None? && Calm(s, es) && Run(s, es).job.Some?
    ensures JobLeads(Run(s, es)) <==> PlannedSafely(s, es)
  {
    var init, e := es[..|es| - 1], es[|es| - 1];
    var t := Run(s, init);
    RunKeeps(s, init);
    if Starts(t, e) {
      PlanLeadsIff(t.items, e.window, e.maxOutput, PlanFor(t.items, e.window, e.maxOutput).value);
    } else {
      LeadStays(t, e);
      LeadsIffPlannedSafely(s, init);
    }
  }

  /** All that was said is in hand: folded in, once and in order, or live. */
  ghost predicate AllThere(items: seq<Item>, folded: seq<Item>)
  {
    Said(items) == folded + Live(items)
  }

  ghost predicate SomeGone(items: seq<Item>, folded: seq<Item>)
  {
    |folded| + |Live(items)| < |Said(items)|
  }

  lemma {:induction false} SayAccounts(s: Session, e: Event, folded: seq<Item>)
    requires Inv(s) && e.Say?
    ensures AllThere(s.items, folded) ==> AllThere(Next(s, e).items, folded)
    ensures SomeGone(s.items, folded) ==> SomeGone(Next(s, e).items, folded)
  {
    SayKeeps(s, e.role, e.content);
    SaidNext(s.items, Item(LastVersion(s.items) + 1, Turn(e.role, e.content, Plain)));
  }

  lemma {:induction false} CommitAccounts(s: Session, e: Event, folded: seq<Item>)
    requires Inv(s) && Commits(s, e) && (AllThere(s.items, folded) || SomeGone(s.items, folded))
    ensures AllThere(s.items, folded) && JobLeads(s) ==> AllThere(Next(s, e).items, folded + FoldedBy(s, e))
    ensures SomeGone(s.items, folded) || !JobLeads(s) ==> SomeGone(Next(s, e).items, folded + FoldedBy(s, e))
  {
    var plan := s.job.value.plan;
    CommitKeeps(s, e, plan);
    LiveIsSorted(s.items);
    CutCounts(Live(s.items), plan);
    if JobLeads(s) {
      Regroup(folded, Live(s.items), plan.overflow, Above(Live(s.items), plan.hi));
    }
  }

  lemma {:induction false} Regroup(folded: seq<Item>, live: seq<Item>, head: seq<Item>, rest: seq<Item>)
    requires live == head + rest
    ensures folded + live == folded + head + rest
  {
  }

  lemma {:induction false} NextAccounts(s: Session, e: Event, folded: seq<Item>)
    requires Inv(s) && (AllThere(s.items, folded) || SomeGone(s.items, folded))
    ensures AllThere(s.items, folded) && (Commits(s, e) ==> JobLeads(s)) ==>
              AllThere(Next(s, e).items, folded + FoldedBy(s, e))
    ensures SomeGone(s.items, folded) || (Commits(s, e) && !JobLeads(s)) ==>
              SomeGone(Next(s, e).items, folded + FoldedBy(s, e))
  {
    if Commits(s, e) {
      CommitAccounts(s, e, folded);
    } else {
      assert folded + FoldedBy(s, e) == folded;
      if e.Say? {
        SayAccounts(s, e, folded);
      } else {
        assert Next(s, e).items == s.items;
      }
    }
  }

  lemma {:induction false} Accounts(es: seq<Event>)
    requires Calm(FRESH, es)
    ensures SafeCommits(FRESH, es) ==> AllThere(Run(FRESH, es).items, Folded(FRESH, es))
    ensures !SafeCommits(FRESH, es) ==> SomeGone(Run(FRESH, es).items, Folded(FRESH, es))
  {
    if es != [] {
      var init, e := es[..|es| - 1], es[|es| - 1];
      var t := Run(FRESH, init);
      Accounts(init);
      RunKeeps(FRESH, init);
      if Commits(t, e) {
        LeadsIffPlannedSafely(FRESH, init);
      }
      NextAccounts(t, e, Folded(FRESH, init));
    }
  }

  /** At the end of a run, everything said is either still live or was given to a
      summariser, once and in order, exactly when each summary that was committed had
      been planned while the floor was newer than what it folded in. */
  lemma {:induction false} NothingLostIff(es: seq<Event>)
    requires Calm(FRESH, es)
    ensures Said(Run(FRESH, es).items) == Folded(FRESH, es) + Live(Run(FRESH, es).items) <==> SafeCommits(FRESH, es)
  {
    Accounts(es);
  }

  /** Every plan of the run was made while the speakers alternated. */
  ghost predicate WellTimed(s: Session, es: seq<Event>)
  {
    es == [] || (WellTimed(s, es[..|es| - 1])
                 && (es[|es| - 1].Start? ==> TurnsAlternate(Live(Run(s, es[..|es| - 1]).items))))
  }

  lemma {:induction false} WellTimedSafe(s: Session, es: seq<Event>)
    requires Inv(s) && s.job.None? && Calm(s, es) && WellTimed(s, es)
    ensures SafeCommits(s, es) && (Run(s, es).job.Some? ==> PlannedSafely(s, es))
  {
    if es != [] {
      var init, e := es[..|es| - 1], es[|es| - 1];
      WellTimedSafe(s, init);
      RunKeeps(s, init);
      if Starts(Run(s, init), e) {
        SafeIffAlternating(Run(s, init).items);
      }
    }
  }

  /** So nothing is lost as long as jobs are planned while the speakers alternate. */
  lemma {:induction false} NothingLost(es: seq<Event>)
    requires Calm(FRESH, es) && WellTimed(FRESH, es)
    ensures Said(Run(FRESH, es).items) == Folded(FRESH, es) + Live(Run(FRESH, es).items)
  {
    WellTimedSafe(FRESH, es);
    NothingLostIff(es);
  }

  /** Whatever the window, compacting now would drop just what it folds in. */
  ghost predicate CompactsCleanly(s: Session, summary: string)
  {
    forall window, maxOutput :: PlanFor(s.items, window, maxOutput).Some? ==>
      DropsJust(Live(s.items), Live(Committed(s.items, PlanFor(s.items, window, maxOutput).value, summary)),
                PlanFor(s.items, window, maxOutput).value.overflow)
  }

  lemma {:induction false} DropsNow(s: Session, window: int, maxOutput: int, plan: Plan, summary: string)
    requires Inv(s) && PlanFor(s.items, window, maxOutput) == Some(plan)
    ensures DropsJust(Live(s.items), Live(Committed(s.items, plan, summary)), plan.overflow)
            <==> Safe(Compile(s.items, window, maxOutput))
  {
    assert s.items + [] == s.items;
    CommitDropsIff(s.items, [], window, maxOutput, plan, summary);
  }

  /** A session can be compacted without losing a turn exactly when its speakers
      alternate: two user turns in a row put an older turn in the floor, and covering
      the overflow then covers that turn with it. */
  lemma {:induction false} CleanIffAlternating(s: Session, summary: string)
    requires Inv(s)
    ensures CompactsCleanly(s, summary) <==> TurnsAlternate(Live(s.items))
  {
    SafeIffAlternating(s.items);
    forall window, maxOutput | PlanFor(s.items, window, maxOutput).Some?
      ensures DropsJust(Live(s.items), Live(Committed(s.items, PlanFor(s.items, window, maxOutput).value, summary)),
                        PlanFor(s.items, window, maxOutput).value.overflow)
              <==> Safe(Compile(s.items, window, maxOutput))
    {
      DropsNow(s, window, maxOutput, PlanFor(s.items, window, maxOutput).value, summary);
    }
  }

  // ------------------------------------------------------------------- progress

  lemma {:induction false} NextProgress(s: Session, e: Event)
    requires Inv(s)
    ensures |Live(Next(s, e).items)| + (if Commits(s, e) then 1 else 0) <= |Live(s.items)| + (if e.Say? then 1 else 0)
    ensures Commits(s, e) ==>
              CoveredThrough(LatestCompaction(Next(s, e).items)) > CoveredThrough(LatestCompaction(s.items))
    ensures !Commits(s, e) ==> LatestCompaction(Next(s, e).items) == LatestCompaction(s.items)
  {
    if e.Say? {
      SayKeeps(s, e.role, e.content);
    } else if Commits(s, e) {
      var plan := s.job.value.plan;
      CommitKeeps(s, e, plan);
      LiveIsSorted(s.items);
      CutCounts(Live(s.items), plan);
    } else {
      assert Next(s, e).items == s.items;
    }
  }

  /** There are never more commits than turns to fold in, whenever the jobs were
      planned: with nothing new said, a run has at most as many as live turns. */
  lemma {:induction false} CommitsBounded(s: Session, es: seq<Event>)
    requires Inv(s) && Calm(s, es)
    ensures Commitments(s, es) + |Live(Run(s, es).items)| <= |Live(s.items)| + Sayings(es)
    ensures CoveredThrough(LatestCompaction(Run(s, es).items))
            >= CoveredThrough(LatestCompaction(s.items)) + Commitments(s, es)
  {
    if es != [] {
      var before := es[..|es| - 1];
      CommitsBounded(s, before);
      RunKeeps(s, before);
      NextProgress(Run(s, before), es[|es| - 1]);
    }
  }

  lemma {:induction false} NothingToPlan(items: seq<Item>, window: int, maxOutput: int)
    requires Live(items) == []
    ensures PlanFor(items, window, maxOutput).None?
  {
    CompileParts(items, window, maxOutput);
    assert Without(Live(items), Floor(Live(items))) == [];
  }

  lemma {:induction false} RunMore(s: Session, es: seq<Event>, e: Event)
    ensures Run(s, es + [e]) == Next(Run(s, es), e)
    ensures Commitments(s, es + [e]) == Commitments(s, es) + if Commits(Run(s, es), e) then 1 else 0
  {
    assert (es + [e])[..|es|] == es;
  }

  /** One compaction after the other: a plan for this window, and its summary from a
      node with that window. */
  function Rounds(window: int, maxOutput: int, node: int, summaries: seq<string>): seq<Event>
  {
    if summaries == [] then []
    else Rounds(window, maxOutput, node, summaries[..|summaries| - 1])
         + [Start(window, maxOutput)] + [Summarised(summaries[|summaries| - 1], node)]
  }

  predicate Idle(s: Session)
  {
    !s.compacting && s.job.None?
  }

  /** The job does not run on a node with this window. */
  predicate TooBig(s: Session, window: int)
  {
    s.compacting && s.job.Some? && !Runs(s.job.value, window)
  }

  lemma {:induction false} OneRound(s: Session, window: int, maxOutput: int, node: int, summary: string, t: Session)
    requires Inv(s) && Idle(s) && summary != ""
    requires t == Next(Next(s, Start(window, maxOutput)), Summarised(summary, node))
    ensures Inv(t) && (Idle(t) || TooBig(t, node))
    ensures PlanFor(s.items, window, maxOutput).None? ==> t == s
    ensures PlanFor(s.items, window, maxOutput).Some? && Idle(t) ==> |Live(t.items)| < |Live(s.items)|
  {
    var started := Next(s, Start(window, maxOutput));
    StartKeeps(s, window, maxOutput);
    NextKeeps(started, Summarised(summary, node));
    if PlanFor(s.items, window, maxOutput).Some? {
      NextProgress(started, Summarised(summary, node));
    }
  }

  /** Nothing is left to plan, or each round so far has used up a turn, or a job has
      come up that the node cannot run. */
  ghost predicate Dwindles(s: Session, window: int, maxOutput: int, node: int, bound: int)
  {
    Inv(s) && (TooBig(s, node)
               || (Idle(s) && (PlanFor(s.items, window, maxOutput).None? || |Live(s.items)| <= bound)))
  }

  lemma {:induction false} RoundsDwindle(s: Session, window: int, maxOutput: int, node: int, summaries: seq<string>)
    requires Inv(s) && Idle(s) && forall x :: x in summaries ==> x != ""
    ensures Dwindles(Run(s, Rounds(window, maxOutput, node, summaries)), window, maxOutput, node,
                     |Live(s.items)| - |summaries|)
  {
    if summaries != [] {
      var init, last := summaries[..|summaries| - 1], summaries[|summaries| - 1];
      assert last in summaries && forall x :: x in init ==> x in summaries;
      RoundsDwindle(s, window, maxOutput, node, init);
      var es := Rounds(window, maxOutput, node, init);
      RunMore(s, es, Start(window, maxOutput));
      RunMore(s, es + [Start(window, maxOutput)], Summarised(last, node));
      var t := Run(s, es);
      if Idle(t) {
        OneRound(t, window, maxOutput, node, last, Run(s, Rounds(window, maxOutput, node, summaries)));
      }
    }
  }

  /** An idle session that is compacted once for each of its live turns, whatever the
      summaries say, has nothing left that does not fit; unless a job came up on the way
      that is too big for the node, and is still waiting for a larger one. */
  lemma {:induction false} RunsDry(s: Session, window: int, maxOutput: int, node: int, summaries: seq<string>)
    requires Inv(s) && Idle(s) && forall x :: x in summaries ==> x != ""
    requires |summaries| >= |Live(s.items)|
    ensures var t := Run(s, Rounds(window, maxOutput, node, summaries));
            (Idle(t) && PlanFor(t.items, window, maxOutput).None?) || TooBig(t, node)
  {
    RoundsDwindle(s, window, maxOutput, node, summaries);
    var t := Run(s, Rounds(window, maxOutput, node, summaries));
    if |Live(t.items)| == 0 {
      NothingToPlan(t.items, window, maxOutput);
    }
  }
}
