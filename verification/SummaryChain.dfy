/** What is folded in stays in hand: each summariser is shown the summary before its
    own, and every plan covers the log from its start. */
module SummaryChain {
  import opened Text
  import opened Contexts
  import opened Compaction
  import opened CompactionJobs
  import opened CompactionRuns

  predicate AllSpace(s: string)
  {
    forall k :: 0 <= k < |s| ==> IsSpace(s[k])
  }

  /** `core`, with nothing but white space around it. */
  predicate Around(text: string, front: string, core: string, back: string)
  {
    && text == front + core + back && AllSpace(front) && AllSpace(back)
    && (core != "" ==> !IsSpace(core[0]) && !IsSpace(core[|core| - 1]))
  }

  lemma {:induction false} LStripAround(front: string, rest: string)
    requires AllSpace(front) && (rest != "" ==> !IsSpace(rest[0]))
    ensures LStrip(front + rest) == rest
  {
    if front == "" {
      assert front + rest == rest;
    } else {
      assert (front + rest)[1..] == front[1..] + rest;
      LStripAround(front[1..], rest);
    }
  }

  lemma {:induction false} RStripAround(rest: string, back: string)
    requires AllSpace(back) && (rest != "" ==> !IsSpace(rest[|rest| - 1]))
    ensures RStrip(rest + back) == rest
  {
    if back == "" {
      assert rest + back == rest;
    } else {
      assert (rest + back)[..|rest + back| - 1] == rest + back[..|back| - 1];
      RStripAround(rest, back[..|back| - 1]);
    }
  }

  lemma {:induction false} StripAround(text: string, front: string, core: string, back: string)
    requires Around(text, front, core, back)
    ensures RStrip(LStrip(text)) == core
  {
    if core == "" {
      assert text == (front + back) + "";
      LStripAround(front + back, "");
    } else {
      assert text == front + (core + back);
      LStripAround(front, core + back);
      RStripAround(core, back);
    }
  }

  // ------------------------------------------------------------------- the transcript

  /** Turn by turn: a role, its words, and a line break before the next. */
  lemma {:induction false} TranscriptIs(items: seq<Item>)
    ensures |items| == 1 ==> Transcript(items) == items[0].turn.role + ": " + items[0].turn.content
    ensures forall k :: 0 < k < |items| ==> Transcript(items) == Transcript(items[..k]) + "\n" + Transcript(items[k..])
  {
    forall k | 0 < k < |items|
      ensures Transcript(items) == Transcript(items[..k]) + "\n" + Transcript(items[k..])
    {
      TranscriptCut(items, k);
    }
  }

  lemma {:induction false} TranscriptCut(items: seq<Item>, k: nat)
    requires 0 < k < |items|
    ensures Transcript(items) == Transcript(items[..k]) + "\n" + Transcript(items[k..])
  {
    var line := items[0].turn.role + ": " + items[0].turn.content;
    if k == 1 {
      assert items[..1] == [items[0]];
    } else {
      TranscriptCut(items[1..], k - 1);
      assert items[1..][..k - 1] == items[..k][1..] && items[1..][k - 1..] == items[k..];
      assert items[..k][0] == items[0];
    }
  }

  // ------------------------------------------------------------------------- one plan

  /** The prompt for these turns: with the words of the summary before, if it has any,
      in front of them. */
  function Briefing(core: string, turns: seq<Item>): string
  {
    (if core == "" then "" else "Previous summary:\n" + core + "\n\n")
    + "Conversation to fold in:\n" + Transcript(turns)
  }

  /** A plan's prompt opens with the latest summary, stripped, unless that is blank. */
  lemma {:induction false} PlanShowsSummary(items: seq<Item>, window: int, maxOutput: int, plan: Plan,
                                            front: string, core: string, back: string)
    requires PlanFor(items, window, maxOutput) == Some(plan)
    requires LatestCompaction(items).Some? ==>
               Around(LatestCompaction(items).value.turn.content, front, core, back)
    requires LatestCompaction(items).None? ==> core == ""
    ensures plan.prompt == Briefing(core, plan.overflow)
  {
    if LatestCompaction(items).Some? {
      StripAround(LatestCompaction(items).value.turn.content, front, core, back);
    }
  }

  // ------------------------------------------------------------------- over whole runs

  /** The waiting job was briefed with the summary that is the latest now. */
  ghost predicate Briefed(s: Session)
  {
    s.job.Some? ==> s.job.value.plan.prompt == JobPrompt(LatestCompaction(s.items), s.job.value.plan.overflow)
  }

  lemma {:induction false} NextBriefed(s: Session, e: Event)
    requires Inv(s) && Briefed(s) && (e.Cleared? ==> s.job.None?)
    ensures Briefed(Next(s, e))
  {
    if e.Say? {
      SayKeeps(s, e.role, e.content);
    }
  }

  lemma {:induction false} RunBriefed(es: seq<Event>)
    requires Calm(FRESH, es)
    ensures Briefed(Run(FRESH, es)) && Inv(Run(FRESH, es))
  {
    RunKeeps(FRESH, es);
    if es != [] {
      RunBriefed(es[..|es| - 1]);
      NextBriefed(Run(FRESH, es[..|es| - 1]), es[|es| - 1]);
    }
  }

  /** The text of the last summary that a run committed, if any. */
  function LastSummary(s: Session, es: seq<Event>): Option<string>
  {
    if es == [] then None
    else if Commits(Run(s, es[..|es| - 1]), es[|es| - 1]) then Some(es[|es| - 1].summary)
    else LastSummary(s, es[..|es| - 1])
  }

  lemma {:induction false} LatestIsLast(es: seq<Event>)
    requires Calm(FRESH, es)
    ensures var c := LatestCompaction(Run(FRESH, es).items);
            if LastSummary(FRESH, es).None? then c.None?
            else c.Some? && c.value.turn.content == LastSummary(FRESH, es).value && c.value.turn.role == "system"
  {
    if es != [] {
      var init, e := es[..|es| - 1], es[|es| - 1];
      var t := Run(FRESH, init);
      LatestIsLast(init);
      RunKeeps(FRESH, init);
      if Commits(t, e) {
        var plan := t.job.value.plan;
        LatestAfter(t.items, Item(LastVersion(t.items) + 1,
                                  Turn("system", e.summary, Contexts.Compaction([plan.lo, plan.hi]))));
      } else {
        NextProgress(t, e);
      }
    }
  }

  /** The chain of summaries: whenever a run has a job waiting, its prompt opens with the
      text of the last summary that was committed, so that nothing folded in before can
      be forgotten for want of being shown; and its turns come after. */
  lemma {:induction false} SummaryCarriedOn(es: seq<Event>, summary: string, front: string, core: string, back: string)
    requires Calm(FRESH, es) && Run(FRESH, es).job.Some?
    requires summary == (if LastSummary(FRESH, es).Some? then LastSummary(FRESH, es).value else "")
    requires Around(summary, front, core, back)
    ensures Run(FRESH, es).job.value.plan.prompt == Briefing(core, Run(FRESH, es).job.value.plan.overflow)
  {
    RunBriefed(es);
    LatestIsLast(es);
    StripAround(summary, front, core, back);
  }

  // --------------------------------------------------------------------- what is covered

  /** Every summary in the log, and the one a job is to write, stands for all versions
      from the first on. */
  ghost predicate FromFirst(s: Session)
  {
    && (LatestCompaction(s.items).Some? ==>
          var covers := LatestCompaction(s.items).value.turn.kind.covers; |covers| == 2 && covers[0] == 1)
    && (s.job.Some? ==> s.job.value.plan.lo == 1)
  }

  lemma {:induction false} NextFromFirst(s: Session, e: Event)
    requires Inv(s) && FromFirst(s) && (e.Cleared? ==> s.job.None?)
    ensures FromFirst(Next(s, e))
  {
    if e.Say? {
      SayKeeps(s, e.role, e.content);
    } else if Commits(s, e) {
      var plan := s.job.value.plan;
      LatestAfter(s.items, Item(LastVersion(s.items) + 1,
                                Turn("system", e.summary, Contexts.Compaction([plan.lo, plan.hi]))));
    } else {
      NextProgress(s, e);
    }
  }

  /** In every reachable state, the latest summary and the waiting job cover the log from
      its very first version; the job ends with the newest turn it folds in. */
  lemma {:induction false} CoversFromFirst(es: seq<Event>)
    requires Calm(FRESH, es)
    ensures FromFirst(Run(FRESH, es)) && Inv(Run(FRESH, es))
  {
    RunKeeps(FRESH, es);
    if es != [] {
      CoversFromFirst(es[..|es| - 1]);
      NextFromFirst(Run(FRESH, es[..|es| - 1]), es[|es| - 1]);
    }
  }
}
