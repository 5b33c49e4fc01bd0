/** When a session is never compacted again: its mark has lost its job, or the job is
    too big for every node. */
module CompactionStuck {
  import opened Text
  import opened Contexts
  import opened ContextFit
  import opened Compaction
  import opened CompactionJobs
  import opened CompactionRuns

  // ------------------------------------------------------------------ a lost job

  /** The mark is set, and no job stands behind it. */
  predicate Stranded(s: Session)
  {
    s.compacting && s.job.None?
  }

  /** The session loses its job, and keeps the mark: the summary is empty, or the job is
      gone without a result. */
  predicate Orphans(s: Session, e: Event)
  {
    s.job.Some? && (e.Dropped? || (e.Summarised? && e.summary == "" && RunsOn(s, e.window)))
  }

  lemma {:induction false} StrandedNext(s: Session, e: Event)
    requires Inv(s)
    ensures Stranded(Next(s, e)) <==> Orphans(s, e) || (Stranded(s) && !e.Cleared?)
  {
  }

  predicate NoneCleared(es: seq<Event>)
  {
    forall k :: 0 <= k < |es| ==> !es[k].Cleared?
  }

  /** Event number `k` orphaned the session, and no failure of another task came after. */
  predicate OrphanedAt(s: Session, es: seq<Event>, k: nat)
  {
    k < |es| && Orphans(Run(s, es[..k]), es[k]) && NoneCleared(es[k + 1..])
  }

  lemma {:induction false} OrphanedLater(s: Session, es: seq<Event>, k: nat)
    requires es != [] && k < |es| - 1
    ensures OrphanedAt(s, es, k) <==> OrphanedAt(s, es[..|es| - 1], k) && !es[|es| - 1].Cleared?
  {
    var init := es[..|es| - 1];
    assert init[..k] == es[..k];
    assert es[k + 1..] == init[k + 1..] + [es[|es| - 1]];
  }

  lemma {:induction false} OrphanedNow(s: Session, es: seq<Event>)
    requires es != []
    ensures OrphanedAt(s, es, |es| - 1) <==> Orphans(Run(s, es[..|es| - 1]), es[|es| - 1])
  {
    assert es[|es|..] == [];
  }

  /** A run leaves a session stranded exactly when some event orphaned it, and no failure
      of another task of the session cleared the mark since: no answer, no failure of the
      job itself, and nothing that is said or planned can free it. */
  lemma {:induction false} StrandedIff(s: Session, es: seq<Event>)
    requires Inv(s) && !Stranded(s) && Calm(s, es)
    ensures Stranded(Run(s, es)) <==> exists k :: OrphanedAt(s, es, k)
  {
    if es != [] {
      var init, e := es[..|es| - 1], es[|es| - 1];
      StrandedIff(s, init);
      RunKeeps(s, init);
      StrandedNext(Run(s, init), e);
      OrphanedNow(s, es);
      if Stranded(Run(s, init)) && !e.Cleared? {
        var k: nat :| OrphanedAt(s, init, k);
        OrphanedLater(s, es, k);
      }
      forall k: nat | OrphanedAt(s, es, k) ensures Stranded(Run(s, es)) {
        if k < |es| - 1 {
          OrphanedLater(s, es, k);
          assert OrphanedAt(s, init, k);
        }
      }
    }
  }

  // ------------------------------------------------------------------ no more commits

  /** What happens to the session itself, on nodes with windows of up to `most` tokens:
      no other task of it fails. */
  predicate ServedBy(es: seq<Event>, most: int)
  {
    forall k :: 0 <= k < |es| ==>
      && !es[k].Cleared?
      && (es[k].Summarised? || es[k].Failed? ==> es[k].window <= most)
  }

  /** No run on such nodes ever commits a summary. */
  ghost predicate NeverCommits(s: Session, most: int)
  {
    forall es :: ServedBy(es, most) ==> Commitments(s, es) == 0
  }

  /** The mark is set, and no node with a window of up to `most` can run the job. */
  predicate Stuck(s: Session, most: int)
  {
    s.compacting && !RunsOn(s, most)
  }

  lemma {:induction false} StuckNext(s: Session, e: Event, most: int)
    requires Stuck(s, most) && !e.Cleared? && (e.Summarised? || e.Failed? ==> e.window <= most)
    ensures Stuck(Next(s, e), most) && !Commits(s, e)
  {
  }

  lemma {:induction false} StaysStuck(s: Session, es: seq<Event>, most: int)
    requires Stuck(s, most) && ServedBy(es, most)
    ensures Stuck(Run(s, es), most) && Commitments(s, es) == 0
  {
    if es != [] {
      StaysStuck(s, es[..|es| - 1], most);
      StuckNext(Run(s, es[..|es| - 1]), es[|es| - 1], most);
    }
  }

  lemma {:induction false} OneStep(s: Session, e: Event)
    ensures Run(s, [e]) == Next(s, e)
    ensures Commitments(s, [e]) == if Commits(s, e) then 1 else 0
  {
    RunMore(s, [], e);
    assert [] + [e] == [e];
  }

  /** A marked session is never compacted again, on nodes with windows of up to `most`,
      exactly when its job is gone or does not run on the largest of them. */
  lemma {:induction false} StuckIff(s: Session, most: int)
    requires s.compacting
    ensures NeverCommits(s, most) <==> s.job.None? || !Runs(s.job.value, most)
  {
    if Stuck(s, most) {
      forall es | ServedBy(es, most) ensures Commitments(s, es) == 0 {
        StaysStuck(s, es, most);
      }
    } else {
      var e := Summarised("x", most);
      OneStep(s, e);
      assert ServedBy([e], most) && Commitments(s, [e]) != 0;
    }
  }

  /** For a job that was planned for one of those nodes, that is: when its prompt,
      instructions included, is estimated at the largest window or more. */
  lemma {:induction false} StuckIffOversized(s: Session, most: int, plan: Plan, window: int)
    requires s.compacting && s.job == Some(JobFor(plan, window)) && window <= most
    ensures NeverCommits(s, most) <==> s.job.value.tokens >= most
  {
    StuckIff(s, most);
    RunsIff(plan, window, most);
  }

  // ------------------------------------------------------------- and how it happens

  /** Two questions and their answers. */
  function Talk(q: string, a: string, r: string, b: string): seq<Event>
  {
    [Say("user", q)] + [Say("assistant", a)] + [Say("user", r)] + [Say("assistant", b)]
  }

  /** The log grew by these turns, all of them live. */
  ghost predicate Spoken(s: Session, t: Session, turns: seq<Item>)
  {
    && Inv(t) && t.compacting == s.compacting && t.job == s.job
    && Live(t.items) == Live(s.items) + turns
    && LatestCompaction(t.items) == LatestCompaction(s.items) && t.items != []
  }

  function Spoke(s: Session, k: nat, role: string, content: string): Item
  {
    Item(LastVersion(s.items) + k, Turn(role, content, Plain))
  }

  lemma {:induction false} SayMore(s: Session, t: Session, turns: seq<Item>, role: string, content: string)
    requires Spoken(s, t, turns) && LastVersion(t.items) == LastVersion(s.items) + |turns|
    ensures Spoken(s, Next(t, Say(role, content)), turns + [Spoke(s, |turns| + 1, role, content)])
    ensures LastVersion(Next(t, Say(role, content)).items) == LastVersion(s.items) + |turns| + 1
  {
    SayKeeps(t, role, content);
    var x := Spoke(s, |turns| + 1, role, content);
    assert Live(s.items) + turns + [x] == Live(s.items) + (turns + [x]);
  }

  function Turns(s: Session, q: string, a: string, r: string, b: string): (turns: seq<Item>)
    ensures |turns| == 4
  {
    [Spoke(s, 1, "user", q), Spoke(s, 2, "assistant", a), Spoke(s, 3, "user", r), Spoke(s, 4, "assistant", b)]
  }

  lemma {:induction false} FourSteps(s: Session, d: Event, e: Event, f: Event, g: Event)
    ensures Run(s, [d] + [e] + [f] + [g]) == Next(Next(Next(Next(s, d), e), f), g)
  {
    OneStep(s, d);
    RunMore(s, [d], e);
    RunMore(s, [d] + [e], f);
    RunMore(s, [d] + [e] + [f], g);
  }

  lemma {:induction false} SayTwo(s: Session, t: Session, turns: seq<Item>, q: string, a: string, u: Session,
                                  more: seq<Item>)
    requires Spoken(s, t, turns) && LastVersion(t.items) == LastVersion(s.items) + |turns|
    requires u == Next(Next(t, Say("user", q)), Say("assistant", a))
    requires more == [Spoke(s, |turns| + 1, "user", q), Spoke(s, |turns| + 2, "assistant", a)]
    ensures Spoken(s, u, turns + more) && LastVersion(u.items) == LastVersion(s.items) + |turns| + 2
  {
    SayMore(s, t, turns, "user", q);
    SayMore(s, Next(t, Say("user", q)), turns + [more[0]], "assistant", a);
    assert turns + [more[0]] + [more[1]] == turns + more;
  }

  lemma {:induction false} FirstTwo(s: Session, q: string, a: string, u: Session, more: seq<Item>)
    requires Inv(s) && u == Next(Next(s, Say("user", q)), Say("assistant", a))
    requires more == [Spoke(s, 1, "user", q), Spoke(s, 2, "assistant", a)]
    ensures Spoken(s, u, more) && LastVersion(u.items) == LastVersion(s.items) + 2
  {
    SayKeeps(s, "user", q);
    SayMore(s, Next(s, Say("user", q)), [more[0]], "assistant", a);
    assert [more[0]] + [more[1]] == more;
  }

  lemma {:induction false} Talked(s: Session, q: string, a: string, r: string, b: string)
    requires Inv(s)
    ensures Spoken(s, Run(s, Talk(q, a, r, b)), Turns(s, q, a, r, b))
  {
    FourSteps(s, Say("user", q), Say("assistant", a), Say("user", r), Say("assistant", b));
    var turns := Turns(s, q, a, r, b);
    var t := Next(Next(s, Say("user", q)), Say("assistant", a));
    FirstTwo(s, q, a, t, [turns[0], turns[1]]);
    SayTwo(s, t, [turns[0], turns[1]], r, b, Run(s, Talk(q, a, r, b)), [turns[2], turns[3]]);
    assert [turns[0], turns[1]] + [turns[2], turns[3]] == turns;
  }

  /** After a question and its answer, these two are the floor. */
  lemma {:induction false} LastPair(live: seq<Item>, older: seq<Item>, u: Item, v: Item)
    requires Sorted(live) && live == older + [u] + [v] && u.turn.role == "user" && v.turn.role == "assistant"
    ensures Floor(live) == [u, v] && Without(live, Floor(live)) == older
  {
    var n := |live|;
    assert live[..n - 1] == older + [u] && live[n - 1] == v && live[n - 2] == u;
    assert LastOf(live, "user") == LastOf(older + [u], "user") == Some(u);
    assert live[n - 2..] == [u, v];
    WithoutEnd(live, [u, v], n - 2);
    assert live[..n - 2] == older;
  }

  /** What is kept stops short of a turn that does not fit. */
  lemma {:induction false} KeepsShort(older: seq<Item>, big: nat, leftover: nat)
    requires big < |older| && EstTokens(older[big].turn.content) > leftover
    ensures |KeepNewest(older, leftover)| < |older| - big
  {
    if older != [] && EstTokens(older[|older| - 1].turn.content) <= leftover {
      KeepsShort(older[..|older| - 1], big, leftover - EstTokens(older[|older| - 1].turn.content));
    }
  }

  /** A turn that is estimated above the whole budget is not kept. */
  lemma {:induction false} BigOverflows(items: seq<Item>, window: int, maxOutput: int, older: seq<Item>, big: nat)
    requires Sorted(items) && items != [] && older == Without(Live(items), Floor(Live(items))) && big < |older|
    requires EstTokens(older[big].turn.content) > Budget(window, maxOutput)
    ensures older == Compile(items, window, maxOutput).overflow + Compile(items, window, maxOutput).kept
    ensures big < |Compile(items, window, maxOutput).overflow|
  {
    var budget := Budget(window, maxOutput);
    var prefix := Prefix(LatestCompaction(items), SummaryBudget(budget));
    var verbatim := VerbatimBudget(budget, prefix);
    CompileParts(items, window, maxOutput);
    KeepsShort(older, big, Max(0, verbatim - Total(FitFloor(Floor(Live(items)), verbatim))));
  }

  /** When a long question has been answered, and another one too, the long one is
      folded in. */
  lemma {:induction false} LongFolds(s: Session, t: Session, q: string, a: string, r: string, b: string,
                                     window: int, maxOutput: int) returns (plan: Plan)
    requires Inv(s) && Spoken(s, t, Turns(s, q, a, r, b)) && EstTokens(q) > Budget(window, maxOutput)
    ensures PlanFor(t.items, window, maxOutput) == Some(plan)
    ensures |Live(s.items)| < |plan.overflow| <= |Live(s.items)| + 2
    ensures plan.overflow <= Live(s.items) + [Spoke(s, 1, "user", q), Spoke(s, 2, "assistant", a)]
  {
    var n, turns := |Live(s.items)|, Turns(s, q, a, r, b);
    var older := Live(s.items) + [turns[0], turns[1]];
    assert Live(t.items) == older + [turns[2]] + [turns[3]];
    LiveIsSorted(t.items);
    LastPair(Live(t.items), older, turns[2], turns[3]);
    BigOverflows(t.items, window, maxOutput, older, n);
    plan := PlanFor(t.items, window, maxOutput).value;
  }

  /** The job's prompt is longer than any turn it folds in. */
  lemma {:induction false} PromptLonger(items: seq<Item>, window: int, maxOutput: int, plan: Plan, k: nat)
    requires PlanFor(items, window, maxOutput) == Some(plan) && k < |plan.overflow|
    ensures JobFor(plan, window).tokens >= |plan.overflow[k].turn.content| / 4
  {
    SummariserSees(items, window, maxOutput, plan, k);
    var line := plan.overflow[k].turn.role + ": " + plan.overflow[k].turn.content;
    var before: string, after: string :| plan.prompt == before + line + after;
    assert |plan.prompt| >= |plan.overflow[k].turn.content|;
    JobLength(plan);
  }

  lemma {:induction false} JobLength(plan: Plan)
    ensures |Joined(JobMessages(plan))| == |plan.prompt| + 186
  {
    var ms := JobMessages(plan);
    assert |COMPACT_INSTRUCTIONS| == 171;
    assert ms[..1] == [ms[0]];
    assert Joined(ms) == Joined(ms[..1]) + "\n" + ContextFit.Line(ms[1]);
  }

  /** The events from the long question to the plan that follows the last answer. */
  function LongTalk(q: string, a: string, r: string, b: string, window: int, maxOutput: int): seq<Event>
  {
    Talk(q, a, r, b) + [Start(window, maxOutput)]
  }

  lemma {:induction false} LongPlanned(s: Session, q: string, a: string, r: string, b: string,
                                       window: int, maxOutput: int) returns (plan: Plan)
    requires Inv(s) && Idle(s) && EstTokens(q) > Budget(window, maxOutput)
    ensures Run(s, LongTalk(q, a, r, b, window, maxOutput)).compacting
    ensures Run(s, LongTalk(q, a, r, b, window, maxOutput)).job == Some(JobFor(plan, window))
    ensures JobFor(plan, window).tokens >= |q| / 4
    ensures |Live(s.items)| < |plan.overflow| <= |Live(s.items)| + 2
    ensures plan.overflow <= Live(s.items) + [Spoke(s, 1, "user", q), Spoke(s, 2, "assistant", a)]
    ensures plan.prompt == JobPrompt(LatestCompaction(s.items), plan.overflow)
  {
    var t := Run(s, Talk(q, a, r, b));
    Talked(s, q, a, r, b);
    plan := LongFolds(s, t, q, a, r, b, window, maxOutput);
    RunMore(s, Talk(q, a, r, b), Start(window, maxOutput));
    assert plan.overflow[|Live(s.items)|] == Spoke(s, 1, "user", q);
    PromptLonger(t.items, window, maxOutput, plan, |Live(s.items)|);
  }

  /** Four ordinary turns after which a session, whatever was said before, is never
      compacted again: a question as long as the largest window, its answer, another question and its
      answer. The chat goes on, because the compiler cuts the long turn; but the job is
      shown the whole of it. */
  lemma {:induction false} LongTurnSticks(s: Session, q: string, a: string, r: string, b: string,
                                          window: int, maxOutput: int, most: int)
    requires Inv(s) && Idle(s) && window <= most
    requires |q| >= 4 * most && |q| >= 4 * (Budget(window, maxOutput) + 1)
    ensures NeverCommits(Run(s, LongTalk(q, a, r, b, window, maxOutput)), most)
    ensures !Stranded(Run(s, LongTalk(q, a, r, b, window, maxOutput)))
  {
    var plan := LongPlanned(s, q, a, r, b, window, maxOutput);
    StuckIffOversized(Run(s, LongTalk(q, a, r, b, window, maxOutput)), most, plan, window);
  }

  lemma {:induction false} CommitsMore(s: Session, es: seq<Event>, e: Event, most: int)
    requires ServedBy(es, most) && Commits(Run(s, es), e) && e.window <= most
    ensures !NeverCommits(s, most)
  {
    RunMore(s, es, e);
    assert ServedBy(es + [e], most) && Commitments(s, es + [e]) != 0;
  }

  lemma {:induction false} JobSomewhere(s: Session) returns (most: int)
    requires s.compacting && s.job.Some?
    ensures !NeverCommits(s, most)
  {
    most := s.job.value.tokens + s.job.value.maxOutput;
    StuckIff(s, most);
  }

  lemma {:induction false} PlannedSomewhere(s: Session, es: seq<Event>, job: Job, e: Event) returns (most: int)
    requires NoneCleared(es) && Run(s, es).job == Some(job)
    requires forall k :: 0 <= k < |es| ==> es[k].Say? || es[k].Start?
    requires e == Summarised("x", job.tokens + job.maxOutput)
    ensures !NeverCommits(s, most)
  {
    most := job.tokens + job.maxOutput;
    assert Commits(Run(s, es), e);
    CommitsMore(s, es, e, most);
  }

  lemma {:induction false} LongTalkIs(q: string, a: string, r: string, b: string, window: int, maxOutput: int, k: nat)
    requires k < |LongTalk(q, a, r, b, window, maxOutput)|
    ensures LongTalk(q, a, r, b, window, maxOutput)[k].Say? || LongTalk(q, a, r, b, window, maxOutput)[k].Start?
  {
  }

  lemma {:induction false} IdleSomewhere(s: Session, q: string) returns (most: int)
    requires Inv(s) && Idle(s) && |q| == 8
    ensures !NeverCommits(s, most)
  {
    var es := LongTalk(q, q, q, q, 0, 0);
    var plan := LongPlanned(s, q, q, q, q, 0, 0);
    var job := JobFor(plan, 0);
    forall k | 0 <= k < |es| ensures es[k].Say? || es[k].Start? {
      LongTalkIs(q, q, q, q, 0, 0, k);
    }
    most := PlannedSomewhere(s, es, job, Summarised("x", job.tokens + job.maxOutput));
  }

  /** No node, however large, helps exactly when the job is lost: any other session can
      still commit a summary somewhere. */
  lemma {:induction false} NowhereIff(s: Session)
    requires Inv(s)
    ensures (forall most :: NeverCommits(s, most)) <==> Stranded(s)
  {
    if Stranded(s) {
      forall most ensures NeverCommits(s, most) {
        StuckIff(s, most);
      }
    } else if s.job.Some? {
      var most := JobSomewhere(s);
    } else {
      var most := IdleSomewhere(s, "question");
    }
  }

  lemma {:induction false} FirstPrompt(plan: Plan, x: Item, y: Item)
    requires plan.overflow == [x] || plan.overflow == [x, y]
    requires x.turn.role == "user" && y.turn.role == "assistant" && plan.prompt == JobPrompt(None, plan.overflow)
    ensures |plan.prompt| <= |x.turn.content| + |y.turn.content| + 43
  {
    if plan.overflow == [x, y] {
      assert [x, y][1..] == [y];
      assert Transcript([x, y]) == "user: " + x.turn.content + "\n" + Transcript([y]);
    }
  }

  /** On every window from 61 tokens on, a new session can be stranded: a question that
      just overflows it brings up a job that does run there, and would commit; but an
      empty summary, or the loss of the job, leaves the mark with nothing behind it. */
  lemma {:induction false} CanStrand(q: string, a: string, r: string, b: string, window: int, maxOutput: int)
    requires window >= 61 && maxOutput >= 0 && |a| <= 4
    requires |q| == 4 * (Budget(window, maxOutput) + 1)
    ensures var t := Run(FRESH, LongTalk(q, a, r, b, window, maxOutput));
            && Commits(t, Summarised("summary", window))
            && Stranded(Next(t, Summarised("", window))) && Stranded(Next(t, Dropped))
  {
    var plan := LongPlanned(FRESH, q, a, r, b, window, maxOutput);
    FirstOverflow(plan, q, a);
    FirstJobRuns(plan, Spoke(FRESH, 1, "user", q), Spoke(FRESH, 2, "assistant", a), window, maxOutput);
    ThreeWays(Run(FRESH, LongTalk(q, a, r, b, window, maxOutput)), window);
  }

  lemma {:induction false} FirstOverflow(plan: Plan, q: string, a: string)
    requires 0 < |plan.overflow| <= 2
    requires plan.overflow <= Live(FRESH.items) + [Spoke(FRESH, 1, "user", q), Spoke(FRESH, 2, "assistant", a)]
    ensures var x, y := Spoke(FRESH, 1, "user", q), Spoke(FRESH, 2, "assistant", a);
            plan.overflow == [x] || plan.overflow == [x, y]
  {
    var x, y := Spoke(FRESH, 1, "user", q), Spoke(FRESH, 2, "assistant", a);
    assert Live(FRESH.items) + [x, y] == [x, y];
  }

  lemma {:induction false} FirstJobRuns(plan: Plan, x: Item, y: Item, window: int, maxOutput: int)
    requires window >= 61 && maxOutput >= 0 && |x.turn.content| == 4 * (Budget(window, maxOutput) + 1)
    requires |y.turn.content| <= 4 && (plan.overflow == [x] || plan.overflow == [x, y])
    requires x.turn.role == "user" && y.turn.role == "assistant" && plan.prompt == JobPrompt(None, plan.overflow)
    ensures Runs(JobFor(plan, window), window)
  {
    FirstPrompt(plan, x, y);
    JobLength(plan);
    RunsIff(plan, window, window);
  }

  /** What may come of a job that runs. */
  lemma {:induction false} ThreeWays(t: Session, window: int)
    requires t.compacting && RunsOn(t, window)
    ensures Commits(t, Summarised("summary", window))
    ensures Stranded(Next(t, Summarised("", window))) && Stranded(Next(t, Dropped))
  {
  }
}
