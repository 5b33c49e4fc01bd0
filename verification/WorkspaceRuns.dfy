/** What every sequence of patches keeps: the history explains the text, and a stale
    patch is rebased over exactly what the client has not seen. */
module WorkspaceRuns {
  import opened Text
  import opened LineOps
  import opened LineTracking
  import opened LiveWorkspace
  import Diamond
  import StalePatches
  import Tally

  /** The state after a sequence of patches, accepted or refused. */
  function Run(s: State, ps: seq<Patch>): State
    decreases ps
  {
    if ps == [] then s else Run(Step(s, ps[0]).0, ps[1..])
  }

  /** Whether `p` is accepted and changes `path`. */
  predicate Lands(s: State, p: Patch, path: string)
  {
    p.path == path && Step(s, p).1.Accepted?
  }

  /** The entry that `p` adds to the history of `path`, if it does. */
  function Entered(s: State, p: Patch, path: string): seq<Entry>
  {
    if Lands(s, p, path) then [NewEntry(FileOf(s, path), p, s.seqno + 1)] else []
  }

  /** Every entry that a sequence of patches adds to the history of `path`, whether
      or not it is still retained at the end. */
  function Log(s: State, ps: seq<Patch>, path: string): seq<Entry>
    decreases ps
  {
    if ps == [] then []
    else Entered(s, ps[0], path) + Log(Step(s, ps[0]).0, ps[1..], path)
  }

  /** Versions are consecutive from `version` on, sequence numbers increase up to
      `seqno`. */
  ghost predicate Numbered(log: seq<Entry>, version: nat, seqno: nat)
  {
    && (forall k :: 0 <= k < |log| ==> log[k].version == version + k + 1 && log[k].seqno <= seqno)
    && (forall j, k :: 0 <= j < k < |log| ==> log[j].seqno < log[k].seqno)
  }

  /** `log` is everything that led from `f0`, whose history is empty, to `f`. */
  ghost predicate Explains(f0: File, log: seq<Entry>, f: File)
  {
    && f.version == f0.version + |log|
    && f.history == Trim(log)
    && Replay(f0.text, OpsOf(log)) == Some(f.text)
  }

  lemma {:induction false} ReplayAppend(text: string, a: seq<seq<Op>>, b: seq<seq<Op>>)
    ensures Replay(text, a + b) ==
            match Replay(text, a) case None => None case Some(t) => Replay(t, b)
    decreases a
  {
    if a == [] {
      assert a + b == b;
    } else {
      assert (a + b)[1..] == a[1..] + b;
      if ApplyOps(text, a[0]).Some? {
        ReplayAppend(ApplyOps(text, a[0]).value, a[1..], b);
      }
    }
  }

  lemma {:induction false} ReplayOne(text: string, ops: seq<Op>)
    ensures Replay(text, [ops]) == ApplyOps(text, ops)
  {
    assert [ops][1..] == [];
  }

  lemma {:induction false} TrimAgain(log: seq<Entry>, e: Entry)
    ensures Trim(Trim(log) + [e]) == Trim(log + [e])
  {
  }

  /** `f` with one more entry, whose operations give `text`. */
  function Extended(f: File, e: Entry, text: string): File
  {
    File(text, f.version + 1, Trim(f.history + [e]))
  }

  /** One more accepted patch is one more entry of the explanation. */
  lemma {:induction false} ExplainsOneMore(f0: File, log: seq<Entry>, f: File, e: Entry, text: string)
    requires Explains(f0, log, f) && ApplyOps(f.text, e.ops) == Some(text)
    ensures Explains(f0, log + [e], Extended(f, e, text))
  {
    TrimAgain(log, e);
    assert OpsOf(log + [e]) == OpsOf(log) + [e.ops];
    ReplayAppend(f0.text, OpsOf(log), [e.ops]);
    ReplayOne(f.text, e.ops);
  }

  lemma {:induction false} NumberedOneMore(log: seq<Entry>, version: nat, seqno: nat, e: Entry)
    requires Numbered(log, version, seqno)
    requires e.version == version + |log| + 1 && e.seqno == seqno + 1
    ensures Numbered(log + [e], version, seqno + 1)
  {
  }

  /** What a patch does to one file. */
  lemma {:induction false} StepFile(s: State, p: Patch, path: string)
    ensures Step(s, p).0.seqno >= s.seqno
    ensures !Lands(s, p, path) ==> FileOf(Step(s, p).0, path) == FileOf(s, path)
    ensures Lands(s, p, path) ==>
              var f, e := FileOf(s, path), NewEntry(FileOf(s, path), p, s.seqno + 1);
              Patched(s, p).Some? && ApplyOps(f.text, e.ops) == Patched(s, p)
              && FileOf(Step(s, p).0, path) == Extended(f, e, Patched(s, p).value)
              && Step(s, p).0.seqno == s.seqno + 1
  {
  }

  lemma {:induction false} StepExplains(f0: File, log: seq<Entry>, s: State, p: Patch, path: string)
    requires Explains(f0, log, FileOf(s, path)) && Numbered(log, f0.version, s.seqno)
    ensures Explains(f0, log + Entered(s, p, path), FileOf(Step(s, p).0, path))
    ensures Numbered(log + Entered(s, p, path), f0.version, Step(s, p).0.seqno)
  {
    StepFile(s, p, path);
    if Lands(s, p, path) {
      var e := NewEntry(FileOf(s, path), p, s.seqno + 1);
      ExplainsOneMore(f0, log, FileOf(s, path), e, Patched(s, p).value);
      NumberedOneMore(log, f0.version, s.seqno, e);
    } else {
      assert log + Entered(s, p, path) == log;
    }
  }

  lemma {:induction false} Regroup(a: seq<Entry>, b: seq<Entry>, c: seq<Entry>)
    ensures a + b + c == a + (b + c)
  {
  }

  lemma {:induction false} RunExplains(f0: File, log: seq<Entry>, s: State, ps: seq<Patch>, path: string)
    requires Explains(f0, log, FileOf(s, path)) && Numbered(log, f0.version, s.seqno)
    ensures Explains(f0, log + Log(s, ps, path), FileOf(Run(s, ps), path))
    ensures Numbered(log + Log(s, ps, path), f0.version, Run(s, ps).seqno)
    decreases ps
  {
    if ps == [] {
      assert log + Log(s, ps, path) == log;
    } else {
      var s', more := Step(s, ps[0]).0, Entered(s, ps[0], path);
      StepExplains(f0, log, s, ps[0], path);
      RunExplains(f0, log + more, s', ps[1..], path);
      Regroup(log, more, Log(s', ps[1..], path));
    }
  }

  /** A file as the workspace was created: version 1, or version 0 if it was absent. */
  function Initial(initial: map<string, string>, path: string): File
  {
    FileOf(Created(initial), path)
  }

  /** In every reachable state, the versions of a file count its accepted patches,
      its sequence numbers increase, its history is the last 200 entries, and
      replaying all of them from the initial text gives the head text. */
  lemma {:induction false} HistoryReplaysToHead(initial: map<string, string>, ps: seq<Patch>, path: string)
    ensures var s := Run(Created(initial), ps);
            && Explains(Initial(initial, path), Log(Created(initial), ps, path), FileOf(s, path))
            && Numbered(Log(Created(initial), ps, path), Initial(initial, path).version, s.seqno)
  {
    var f0 := Initial(initial, path);
    assert OpsOf([]) == [];
    assert Explains(f0, [], f0);
    RunExplains(f0, [], Created(initial), ps, path);
    assert [] + Log(Created(initial), ps, path) == Log(Created(initial), ps, path);
  }

  /** The history of `f` is the end of `log`, at most 200 entries with consecutive
      versions up to the head; and it alone leads from the text that the entries before
      it lead to, to the head text. */
  ghost predicate Retained(f0: File, log: seq<Entry>, f: File)
  {
    && |f.history| == (if |log| < 200 then |log| else 200)
    && f.history == log[|log| - |f.history|..]
    && (forall k :: 0 <= k < |f.history| ==> f.history[k].version == f.version - |f.history| + k + 1)
    && LeadsOn(f0.text, log[..|log| - |f.history|], f.history, f.text)
  }

  ghost predicate LeadsOn(text: string, before: seq<Entry>, history: seq<Entry>, head: string)
  {
    var base := Replay(text, OpsOf(before));
    base.Some? && Replay(base.value, OpsOf(history)) == Some(head)
  }

  /** In every reachable state the retained entries alone explain the head. */
  lemma {:induction false} RetainedReplays(initial: map<string, string>, ps: seq<Patch>, path: string)
    ensures Retained(Initial(initial, path), Log(Created(initial), ps, path), FileOf(Run(Created(initial), ps), path))
  {
    HistoryReplaysToHead(initial, ps, path);
    RetainedFrom(Initial(initial, path), Log(Created(initial), ps, path),
                 FileOf(Run(Created(initial), ps), path), Run(Created(initial), ps).seqno);
  }

  lemma {:induction false} RetainedFrom(f0: File, log: seq<Entry>, f: File, seqno: nat)
    requires Explains(f0, log, f) && Numbered(log, f0.version, seqno)
    ensures Retained(f0, log, f)
  {
    var cut := |log| - |f.history|;
    assert f.history == log[cut..];
    LeadsFrom(f0.text, log, cut, f.text);
  }

  lemma {:induction false} LeadsFrom(text: string, log: seq<Entry>, cut: nat, head: string)
    requires cut <= |log| && Replay(text, OpsOf(log)) == Some(head)
    ensures LeadsOn(text, log[..cut], log[cut..], head)
  {
    assert log == log[..cut] + log[cut..];
    ReplaySplit(text, log[..cut], log[cut..]);
  }

  lemma {:induction false} ReplaySplit(text: string, a: seq<Entry>, b: seq<Entry>)
    ensures Replay(text, OpsOf(a + b)) ==
            match Replay(text, OpsOf(a)) case None => None case Some(t) => Replay(t, OpsOf(b))
  {
    assert OpsOf(a + b) == OpsOf(a) + OpsOf(b);
    ReplayAppend(text, OpsOf(a), OpsOf(b));
  }

  // ------------------------------------------------------- sequence numbers

  /** The version a path starts at: created files at 1, later ones at 0. */
  function FirstVersion(initial: map<string, string>, path: string): nat
  {
    if path in initial then 1 else 0
  }

  /** How many patches each file has taken since the workspace was created. */
  function Growth(initial: map<string, string>, files: map<string, File>): map<string, nat>
    requires forall p :: p in files ==> files[p].version >= FirstVersion(initial, p)
  {
    map p | p in files :: files[p].version - FirstVersion(initial, p)
  }

  ghost predicate SeqCounts(initial: map<string, string>, s: State)
  {
    && (forall p :: p in s.files ==> s.files[p].version >= FirstVersion(initial, p))
    && (forall p :: p in initial ==> p in s.files)
    && s.seqno == 1 + Tally.Sum(Growth(initial, s.files))
  }

  lemma {:induction false} StepCounts(initial: map<string, string>, s: State, p: Patch)
    requires SeqCounts(initial, s)
    ensures SeqCounts(initial, Step(s, p).0)
  {
    if Step(s, p).1.Accepted? {
      PutCounts(initial, s, p.path, Committed(s, p, Patched(s, p).value), 1);
    } else if Step(s, p).1.UnknownOp? {
      PutCounts(initial, s, p.path, Opened(s, p.path), 0);
    }
  }

  /** A file that gains `more` versions adds `more` to the sum. */
  lemma {:induction false} PutCounts(initial: map<string, string>, s: State, path: string, s': State, more: nat)
    requires SeqCounts(initial, s) && path in s'.files
    requires s' == State(s.files[path := s'.files[path]], s.seqno + more)
    requires s'.files[path].version == FileOf(s, path).version + more
    ensures SeqCounts(initial, s')
  {
    PutSum(initial, s.files, path, s'.files[path], more);
  }

  lemma {:induction false} PutSum(initial: map<string, string>, files: map<string, File>, path: string, f: File,
                                  more: nat)
    requires forall p :: p in files ==> files[p].version >= FirstVersion(initial, p)
    requires f.version == (if path in files then files[path].version else FirstVersion(initial, path)) + more
    ensures Tally.Sum(Growth(initial, files[path := f])) == Tally.Sum(Growth(initial, files)) + more
  {
    GrowthPut(initial, files, path, f);
    Tally.SumUpdate(Growth(initial, files), path, f.version - FirstVersion(initial, path));
  }

  lemma {:induction false} GrowthPut(initial: map<string, string>, files: map<string, File>, path: string, f: File)
    requires forall p :: p in files ==> files[p].version >= FirstVersion(initial, p)
    requires f.version >= FirstVersion(initial, path)
    ensures Growth(initial, files[path := f])
            == Growth(initial, files)[path := f.version - FirstVersion(initial, path)]
  {
  }

  lemma {:induction false} RunCounts(initial: map<string, string>, s: State, ps: seq<Patch>)
    requires SeqCounts(initial, s)
    ensures SeqCounts(initial, Run(s, ps))
    decreases ps
  {
    if ps != [] {
      StepCounts(initial, s, ps[0]);
      RunCounts(initial, Step(s, ps[0]).0, ps[1..]);
    }
  }

  lemma {:induction false} ZeroSum(m: map<string, nat>)
    requires forall k :: k in m ==> m[k] == 0
    ensures Tally.Sum(m) == 0
  {
    Tally.SumBounded(m, 0);
  }

  /** The workspace's sequence number counts the accepted patches of all its files. */
  lemma {:induction false} SeqCountsVersions(initial: map<string, string>, ps: seq<Patch>)
    ensures SeqCounts(initial, Run(Created(initial), ps))
  {
    ZeroSum(Growth(initial, Created(initial).files));
    RunCounts(initial, Created(initial), ps);
  }

  // ------------------------------------------------------------ stale patches

  lemma {:induction false} NewerSuffix(history: seq<Entry>, first: nat, base: int)
    requires forall k :: 0 <= k < |history| ==> history[k].version == first + k
    ensures Newer(history, base) ==
            history[if base < first then 0 else if base - first + 1 > |history| then |history| else base - first + 1..]
  {
    if history != [] {
      NewerSuffix(history[1..], first + 1, base);
    }
  }

  lemma {:induction false} RunAppend(s: State, a: seq<Patch>, b: seq<Patch>, path: string)
    ensures Run(s, a + b) == Run(Run(s, a), b)
    ensures Log(s, a + b, path) == Log(s, a, path) + Log(Run(s, a), b, path)
    decreases a
  {
    if a == [] {
      assert a + b == b;
    } else {
      assert (a + b)[1..] == a[1..] + b;
      RunAppend(Step(s, a[0]).0, a[1..], b, path);
    }
  }

  lemma {:induction false} RebaseOverNothing(ops: seq<Op>)
    ensures RebaseOps(ops, []) == ops
  {
  }

  lemma {:induction false} NewerThanSeen(f0: File, seen: seq<Entry>, missed: seq<Entry>, log: seq<Entry>, f: File,
                                         base: nat,
                                         seqno: nat)
    requires log == seen + missed && base == f0.version + |seen|
    requires Explains(f0, log, f) && Numbered(log, f0.version, seqno)
    ensures Newer(f.history, base) == missed <==> |missed| <= HISTORY_CAP
  {
    var first := f.version - |f.history| + 1;
    assert f.history == log[|log| - |f.history|..];
    NewerSuffix(f.history, first, base);
    if |missed| <= HISTORY_CAP {
      assert log[|seen|..] == missed;
    }
  }

  /** A client read `path` after the patches `seen` and sends a patch after the
      further patches `missed`. The patch is rebased over all the operations it has
      missed, in order, exactly when no more than 200 entries were added since. */
  lemma {:induction false} RebasesOverMissed(initial: map<string, string>, seen: seq<Patch>, missed: seq<Patch>,
                                             path: string)
    ensures var s1 := Run(Created(initial), seen);
            var f := FileOf(Run(s1, missed), path);
            Newer(f.history, FileOf(s1, path).version) == Log(s1, missed, path)
            <==> |Log(s1, missed, path)| <= 200
  {
    var s0 := Created(initial);
    var s1 := Run(s0, seen);
    RunAppend(s0, seen, missed, path);
    HistoryReplaysToHead(initial, seen, path);
    HistoryReplaysToHead(initial, seen + missed, path);
    NewerThanSeen(Initial(initial, path), Log(s0, seen, path), Log(s1, missed, path), Log(s0, seen + missed, path),
                  FileOf(Run(s1, missed), path), FileOf(s1, path).version, Run(s1, missed).seqno);
  }

  lemma {:induction false} StaleEffective(initial: map<string, string>, seen: seq<Patch>, missed: seq<Patch>,
                                          path: string, ops: seq<Op>)
    requires |Log(Run(Created(initial), seen), missed, path)| <= HISTORY_CAP
    ensures var s1 := Run(Created(initial), seen);
            var s2 := Run(s1, missed);
            Effective(FileOf(s2, path), FileOf(s1, path).version, ops)
            == RebaseOps(ops, Flatten(OpsOf(Log(s1, missed, path))))
  {
    var s1 := Run(Created(initial), seen);
    var s2 := Run(s1, missed);
    RebasesOverMissed(initial, seen, missed, path);
    if FileOf(s1, path).version == FileOf(s2, path).version {
      RunAppend(Created(initial), seen, missed, path);
      HistoryReplaysToHead(initial, seen, path);
      HistoryReplaysToHead(initial, seen + missed, path);
      assert Log(s1, missed, path) == [];
      assert OpsOf([]) == [];
      RebaseOverNothing(ops);
    }
  }

  /** What the client saw and what it missed lead to the head text. */
  lemma {:induction false} MissedReplays(initial: map<string, string>, seen: seq<Patch>, missed: seq<Patch>,
                                         path: string)
    ensures var s1 := Run(Created(initial), seen);
            Replay(FileOf(s1, path).text, OpsOf(Log(s1, missed, path)))
            == Some(FileOf(Run(s1, missed), path).text)
  {
    var s0 := Created(initial);
    var s1 := Run(s0, seen);
    RunAppend(s0, seen, missed, path);
    HistoryReplaysToHead(initial, seen, path);
    HistoryReplaysToHead(initial, seen + missed, path);
    ReplaySplit(Initial(initial, path).text, Log(s0, seen, path), Log(s1, missed, path));
  }

  /** The patches a client missed are ones the rebase counts right, on texts whose
      lines are all terminated, and few enough to be still retained. */
  ghost predicate Trackable(initial: map<string, string>, seen: seq<Patch>, missed: seq<Patch>, path: string)
  {
    var s1 := Run(Created(initial), seen);
    var missedOps := OpsOf(Log(s1, missed, path));
    && Terminated(FileOf(s1, path).text)
    && TidyHistory(missedOps) && CountedAll(Flatten(missedOps))
    && |missedOps| <= HISTORY_CAP
  }

  /** Server to client and back: a client inserts in front of the line with index `i`
      of the text it saw, and has missed at most 200 patches. The server puts the new
      lines behind every surviving line from before `i` and before every surviving
      line from `i` on. */
  lemma {:induction false} StaleInsert(initial: map<string, string>, seen: seq<Patch>, missed: seq<Patch>, path: string,
                    i: nat, added: string, actor: string) returns (at: nat)
    requires Trackable(initial, seen, missed, path) && !IsBadPath(path)
    ensures var s1 := Run(Created(initial), seen);
            var s2 := Run(s1, missed);
            var head := SplitLines(FileOf(s2, path).text);
            var tl := TagHistory(Label(SplitLines(FileOf(s1, path).text)), OpsOf(Log(s1, missed, path)));
            var p := Patch(path, FileOf(s1, path).version, [Insert(i + 1, added)], actor);
            && at <= |head| && Texts(tl) == head
            && FileOf(Step(s2, p).0, path).text == Join(head[..at] + InsertedLines(added) + head[at..])
            && forall j :: 0 <= j < |tl| && tl[j].id.Some? ==>
                 (tl[j].id.value < i <==> j < at) && (tl[j].id == Some(i) ==> j == at)
  {
    var s1 := Run(Created(initial), seen);
    var s2 := Run(s1, missed);
    var missedOps := OpsOf(Log(s1, missed, path));
    MissedReplays(initial, seen, missed, path);
    StaleEffective(initial, seen, missed, path, [Insert(i + 1, added)]);
    HeadLines(FileOf(s1, path).text, missedOps, FileOf(s2, path).text, i);
    at := StaleInsertLands(FileOf(s1, path).text, missedOps, FileOf(s2, path).text, i, added);
  }

  /** And a client that deletes the line with index `i` of the text it saw deletes
      that line and no other, if and only if no missed patch has deleted it already
      or its place lies beyond the text. */
  lemma {:induction false} StaleDelete(initial: map<string, string>, seen: seq<Patch>, missed: seq<Patch>, path: string,
                    i: nat, actor: string)
    requires Trackable(initial, seen, missed, path) && !IsBadPath(path)
    ensures var s1 := Run(Created(initial), seen);
            var s2 := Run(s1, missed);
            var missedOps := OpsOf(Log(s1, missed, path));
            var tl := TagHistory(Label(SplitLines(FileOf(s1, path).text)), missedOps);
            var p := Patch(path, FileOf(s1, path).version, [Delete(i + 1, 1)], actor);
            FileOf(Step(s2, p).0, path).text == Join(Without(tl, i))
            <==> Survives(tl, i) || Clamp(ShiftAll(i + 1, Flatten(missedOps)) - 1, |tl|) == |tl|
  {
    var s1 := Run(Created(initial), seen);
    var s2 := Run(s1, missed);
    var missedOps := OpsOf(Log(s1, missed, path));
    var ops := [Delete(i + 1, 1)];
    MissedReplays(initial, seen, missed, path);
    StaleEffective(initial, seen, missed, path, ops);
    HeadLines(FileOf(s1, path).text, missedOps, FileOf(s2, path).text, i);
    StaleDeleteExact(FileOf(s1, path).text, missedOps, FileOf(s2, path).text, i);
    StaleDeleteActs(FileOf(s2, path).text, i + 1, Flatten(missedOps));
  }

  /** A patch that is applied as `rebased` leaves what `rebased` makes of the head. */
  lemma {:induction false} ServedText(s: State, p: Patch, rebased: seq<Op>, text: string)
    requires !IsBadPath(p.path) && |p.ops| <= MAX_OPS && Effective(FileOf(s, p.path), p.base, p.ops) == rebased
    requires ApplyOps(FileOf(s, p.path).text, rebased) == Some(text)
    ensures FileOf(Step(s, p).0, p.path).text == text
  {
  }

  /** And a client that deletes `k` lines from the line with index `i` on removes just
      those of them that are still there, if and only if each line that the server
      comes upon from the shifted place on is one of them. */
  lemma {:induction false} StaleRange(initial: map<string, string>, seen: seq<Patch>, missed: seq<Patch>, path: string,
                                      i: nat, k: nat, actor: string)
    requires Trackable(initial, seen, missed, path) && !IsBadPath(path)
    ensures var s1 := Run(Created(initial), seen);
            var s2 := Run(s1, missed);
            var missedOps := OpsOf(Log(s1, missed, path));
            var tl := TagHistory(Label(SplitLines(FileOf(s1, path).text)), missedOps);
            var line := ShiftAll(i + 1, Flatten(missedOps));
            var p := Patch(path, FileOf(s1, path).version, [Delete(i + 1, k)], actor);
            && FileOf(Step(s2, p).0, path).text == Join(Texts(TagLine(tl, Delete(line, k))))
            && (TagLine(tl, Delete(line, k)) == StalePatches.Outside(tl, i, k)
                <==> StalePatches.Meeting(tl, Clamp(line - 1, |tl|), i, k))
  {
    var s1 := Run(Created(initial), seen);
    var s2 := Run(s1, missed);
    var missedOps := OpsOf(Log(s1, missed, path));
    var tl := TagHistory(Label(SplitLines(FileOf(s1, path).text)), missedOps);
    MissedReplays(initial, seen, missed, path);
    StaleEffective(initial, seen, missed, path, [Delete(i + 1, k)]);
    var line := ShiftAll(i + 1, Flatten(missedOps));
    StalePatches.StaleRangeExact(FileOf(s1, path).text, missedOps, FileOf(s2, path).text, i, k, tl, line);
    ServedText(s2, Patch(path, FileOf(s1, path).version, [Delete(i + 1, k)], actor),
               RebaseOps([Delete(i + 1, k)], Flatten(missedOps)), Join(Texts(TagLine(tl, Delete(line, k)))));
  }

  // ------------------------------------------------------ the diamond, served

  lemma {:induction false} OneLogged(s: State, p: Patch)
    requires Lands(s, p, p.path)
    ensures Run(s, [p]) == Step(s, p).0
    ensures Log(s, [p], p.path) == [NewEntry(FileOf(s, p.path), p, s.seqno + 1)]
  {
    var s' := Step(s, p).0;
    assert [p][1..] == [];
    assert Run(s', []) == s' && Log(s', [], p.path) == [];
  }

  lemma {:induction false} FlattenOne(e: Entry)
    ensures Flatten(OpsOf([e])) == e.ops
  {
    assert OpsOf([e]) == [e.ops];
    assert [e.ops][1..] == [] && Flatten([]) == [];
  }

  /** A single operation based on the head version. */
  lemma {:induction false} FreshPatch(s: State, path: string, op: Op, actor: string)
    requires !IsBadPath(path) && (op.Insert? || op.Delete?)
    ensures var f := FileOf(s, path);
            var p := Patch(path, f.version, [op], actor);
            && Lands(s, p, path)
            && NewEntry(f, p, s.seqno + 1).ops == [op]
            && FileOf(Step(s, p).0, path).text == Join(ApplyLine(SplitLines(f.text), op))
  {
    ApplySingle(FileOf(s, path).text, op);
  }

  lemma {:induction false} AppliedLines(lines: seq<string>, op: Op)
    requires AllLines(lines)
    ensures AllLines(ApplyLine(lines, op))
  {
    if op.Insert? { InsertedTerminated(op.text); }
    SplicedLines(lines, At(op, |lines|), Removed(op, |lines|), Added(op));
  }

  lemma {:induction false} RebaseSingle(op: Op, hop: Op)
    requires op.Insert? || op.Delete?
    ensures RebaseOps([op], [hop]) == [RebaseOp(op, [hop])]
    ensures RebaseOp(op, [hop]).Insert? || RebaseOp(op, [hop]).Delete?
  {
  }

  /** The head after `a` and then `b`, both sent against the same version. */
  lemma {:induction false} ServedInOrder(initial: map<string, string>, ps: seq<Patch>, path: string,
                      a: Op, b: Op, first: string, second: string)
    requires !IsBadPath(path) && (a.Insert? || a.Delete?) && (b.Insert? || b.Delete?)
    requires Terminated(FileOf(Run(Created(initial), ps), path).text)
    ensures var s := Run(Created(initial), ps);
            var f := FileOf(s, path);
            var s1 := Step(s, Patch(path, f.version, [a], first)).0;
            FileOf(Step(s1, Patch(path, f.version, [b], second)).0, path).text
            == Join(Diamond.InOrder(SplitLines(f.text), a, b))
  {
    var s := Run(Created(initial), ps);
    var f := FileOf(s, path);
    var pa := Patch(path, f.version, [a], first);
    FreshPatch(s, path, a, first);
    OneLogged(s, pa);
    FlattenOne(NewEntry(f, pa, s.seqno + 1));
    StaleEffective(initial, ps, [pa], path, [b]);
    SplitTerminated(f.text);
    AppliedLines(SplitLines(f.text), a);
    SplitJoin(ApplyLine(SplitLines(f.text), a));
    RebaseSingle(b, a);
    ApplySingle(FileOf(Step(s, pa).0, path).text, RebaseOp(b, [a]));
  }

  /** Two patches of one operation each, sent against the same version of a file,
      leave the same text in both arrival orders exactly when the operations
      converge on its lines; `Diamond.RebaseDiamond` says when they do on all texts
      of that length. */
  lemma {:induction false} ServedDiamond(initial: map<string, string>, ps: seq<Patch>, path: string,
                      a: Op, b: Op, first: string, second: string)
    requires !IsBadPath(path) && (a.Insert? || a.Delete?) && (b.Insert? || b.Delete?)
    requires Terminated(FileOf(Run(Created(initial), ps), path).text)
    ensures var s := Run(Created(initial), ps);
            var f := FileOf(s, path);
            var pa, pb := Patch(path, f.version, [a], first), Patch(path, f.version, [b], second);
            FileOf(Step(Step(s, pa).0, pb).0, path).text == FileOf(Step(Step(s, pb).0, pa).0, path).text
            <==> Diamond.Converges(SplitLines(f.text), a, b)
  {
    var lines := SplitLines(FileOf(Run(Created(initial), ps), path).text);
    ServedInOrder(initial, ps, path, a, b, first, second);
    ServedInOrder(initial, ps, path, b, a, second, first);
    SplitTerminated(FileOf(Run(Created(initial), ps), path).text);
    SameTexts(lines, a, b);
  }

  lemma {:induction false} SameTexts(lines: seq<string>, a: Op, b: Op)
    requires AllLines(lines)
    ensures Join(Diamond.InOrder(lines, a, b)) == Join(Diamond.InOrder(lines, b, a))
            <==> Diamond.Converges(lines, a, b)
  {
    OrderedLines(lines, a, b);
    OrderedLines(lines, b, a);
    SplitJoin(Diamond.InOrder(lines, a, b));
    SplitJoin(Diamond.InOrder(lines, b, a));
  }

  lemma {:induction false} OrderedLines(lines: seq<string>, a: Op, b: Op)
    requires AllLines(lines)
    ensures AllLines(Diamond.InOrder(lines, a, b))
  {
    AppliedLines(lines, a);
    AppliedLines(ApplyLine(lines, a), RebaseOp(b, [a]));
  }
}
