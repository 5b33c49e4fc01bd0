/** What the server answers to a patch, and what an accepted patch makes of the files. */
module PatchReplies {
  import opened Text
  import opened LineOps
  import opened LiveWorkspace

  // -------------------------------------------------------------------------- paths

  /** The two dots at `k` are a whole component of the path. */
  predicate Climbs(path: string, k: nat)
  {
    && k + 2 <= |path| && path[k] == '.' && path[k + 1] == '.'
    && (k == 0 || path[k - 1] == '/') && (k + 2 == |path| || path[k + 2] == '/')
  }

  function FirstSlash(path: string): (n: nat)
    ensures n <= |path| && (n < |path| ==> path[n] == '/') && forall k :: 0 <= k < n ==> path[k] != '/'
  {
    if path == "" || path[0] == '/' then 0 else 1 + FirstSlash(path[1..])
  }

  lemma {:induction false} FirstComponent(path: string)
    ensures Components(path) != [] && Components(path)[0] == path[..FirstSlash(path)]
    ensures Components(path)[1..]
            == if FirstSlash(path) == |path| then [] else Components(path[FirstSlash(path) + 1..])
  {
    if path != "" && path[0] != '/' {
      FirstComponent(path[1..]);
      assert path[..FirstSlash(path)] == [path[0]] + path[1..][..FirstSlash(path[1..])];
    }
  }

  lemma {:induction false} ClimbsFirst(path: string)
    ensures path[..FirstSlash(path)] == ".." <==> Climbs(path, 0)
  {
    var n := FirstSlash(path);
    if path[..n] == ".." {
      assert n == 2 && path[0] == path[..n][0] && path[1] == path[..n][1];
    }
    if Climbs(path, 0) {
      assert n == 2;
    }
  }

  lemma {:induction false} ClimbsLater(path: string, k: nat)
    requires FirstSlash(path) < |path|
    ensures Climbs(path[FirstSlash(path) + 1..], k) <==> Climbs(path, FirstSlash(path) + 1 + k)
  {
  }

  lemma {:induction false} ClimbsAny(path: string)
    ensures ".." in Components(path) <==> exists k :: Climbs(path, k)
    decreases |path|
  {
    var n, cs := FirstSlash(path), Components(path);
    FirstComponent(path);
    ClimbsFirst(path);
    assert cs == [cs[0]] + cs[1..];
    if n < |path| {
      ClimbsAny(path[n + 1..]);
      ClimbsBehind(path, n, path[n + 1..]);
    } else {
      ClimbsAlone(path);
    }
  }

  lemma {:induction false} ClimbsAlone(path: string)
    requires FirstSlash(path) == |path|
    ensures forall k :: Climbs(path, k) ==> k == 0
  {
  }

  /** A path climbs at its first component, or behind it. */
  lemma {:induction false} ClimbsBehind(path: string, n: nat, rest: string)
    requires n == FirstSlash(path) < |path| && rest == path[n + 1..]
    ensures (exists k :: Climbs(path, k)) <==> Climbs(path, 0) || exists j :: Climbs(rest, j)
  {
    if j: nat :| Climbs(rest, j) {
      ClimbsLater(path, j);
    }
    forall k: nat | Climbs(path, k) && k > 0 ensures exists j :: Climbs(rest, j) {
      assert k > n;
      ClimbsLater(path, k - n - 1);
    }
  }

  /** A path the server refuses: empty, absolute, or one that climbs. */
  ghost predicate Refused(path: string)
  {
    path == "" || path[0] == '/' || exists k :: Climbs(path, k)
  }

  lemma {:induction false} BadIffRefused(path: string)
    ensures IsBadPath(path) <==> Refused(path)
  {
    ClimbsAny(path);
  }

  // --------------------------------------------------------------------- operations

  /** No unknown operation, except behind a replacement of the whole file. */
  predicate Understood(ops: seq<Op>)
  {
    forall k :: 0 <= k < |ops| && ops[k].Unknown? ==> exists j :: 0 <= j < k && ops[j].ReplaceFile?
  }

  lemma {:induction false} UnderstoodTail(ops: seq<Op>)
    requires ops != [] && !ops[0].ReplaceFile? && !ops[0].Unknown?
    ensures Understood(ops) <==> Understood(ops[1..])
  {
    if Understood(ops) {
      forall k | 0 <= k < |ops[1..]| && ops[1..][k].Unknown?
        ensures exists j :: 0 <= j < k && ops[1..][j].ReplaceFile?
      {
        assert ops[k + 1].Unknown?;
        var j :| 0 <= j < k + 1 && ops[j].ReplaceFile?;
        assert ops[1..][j - 1] == ops[j];
      }
    }
    if Understood(ops[1..]) {
      forall k | 0 <= k < |ops| && ops[k].Unknown? ensures exists j :: 0 <= j < k && ops[j].ReplaceFile? {
        assert ops[1..][k - 1] == ops[k];
        var j :| 0 <= j < k - 1 && ops[1..][j].ReplaceFile?;
        assert ops[j + 1].ReplaceFile?;
      }
    }
  }

  lemma {:induction false} AppliesIff(lines: seq<string>, ops: seq<Op>)
    ensures ApplyToLines(lines, ops).Some? <==> Understood(ops)
    decreases ops
  {
    if ops != [] {
      match ops[0]
      case ReplaceFile(_) => assert ops[0].ReplaceFile?;
      case Unknown(_) =>
        assert ops[0].Unknown?;
      case _ =>
        UnderstoodTail(ops);
        AppliesIff(ApplyLine(lines, ops[0]), ops[1..]);
    }
  }

  /** Rebasing moves operations and nothing else. */
  predicate SameButLines(a: seq<Op>, b: seq<Op>)
  {
    |a| == |b| && forall k :: 0 <= k < |a| ==>
      match a[k]
      case Insert(_, text) => b[k].Insert? && b[k].text == text
      case Delete(_, count) => b[k].Delete? && b[k].count == count
      case ReplaceFile(text) => b[k] == a[k]
      case Unknown(_) => b[k].Unknown?
  }

  lemma {:induction false} UnderstoodStill(a: seq<Op>, b: seq<Op>)
    requires SameButLines(a, b)
    ensures Understood(a) <==> Understood(b)
  {
  }

  lemma {:induction false} EffectiveIs(f: File, base: int, ops: seq<Op>)
    ensures SameButLines(ops, Effective(f, base, ops))
    ensures base == f.version ==> Effective(f, base, ops) == ops
  {
  }

  // ------------------------------------------------------------------------ replies

  /** The reply to a patch is that of the first check that fails: the path, more than 100
      operations, an unknown operation that takes effect. If none fails, it is accepted. */
  lemma {:induction false} ReplyIs(s: State, p: Patch, r: Reply)
    requires r == Step(s, p).1
    ensures r == BadPath <==> Refused(p.path)
    ensures r == TooManyOps <==> !Refused(p.path) && |p.ops| > 100
    ensures r == UnknownOp <==> !Refused(p.path) && |p.ops| <= 100 && !Understood(p.ops)
    ensures r.Accepted? <==> !Refused(p.path) && |p.ops| <= 100 && Understood(p.ops)
  {
    var f := FileOf(s, p.path);
    BadIffRefused(p.path);
    EffectiveIs(f, p.base, p.ops);
    UnderstoodStill(p.ops, Effective(f, p.base, p.ops));
    AppliesIff(SplitLines(f.text), Effective(f, p.base, p.ops));
  }

  /** A refused patch changes no text, no version and no history. */
  lemma {:induction false} RefusedChangesNothing(s: State, p: Patch, path: string)
    requires !Step(s, p).1.Accepted?
    ensures Step(s, p).0.seqno == s.seqno && FileOf(Step(s, p).0, path) == FileOf(s, path)
    ensures path in Step(s, p).0.files <==> path in s.files || (path == p.path && Step(s, p).1 == UnknownOp)
  {
  }

  /** An accepted patch: the reply names the file's next version and the workspace's next
      sequence number, and whether the base was stale; its operations are the client's,
      on other lines if it was; they lead from the old text to the new one; the entry
      that joins the history says the same, and the oldest of more than 200 goes. */
  lemma {:induction false} AcceptedIs(s: State, p: Patch, next: State, r: Reply, f: File, g: File)
    requires (next, r) == Step(s, p) && r.Accepted? && f == FileOf(s, p.path) && g == FileOf(next, p.path)
    ensures r.path == p.path && r.actor == p.actor && (r.rebased <==> p.base != f.version)
    ensures r.version == g.version == f.version + 1 && r.seqno == next.seqno == s.seqno + 1
    ensures SameButLines(p.ops, r.ops) && (!r.rebased ==> r.ops == p.ops)
    ensures ApplyOps(f.text, r.ops) == Some(g.text)
    ensures var all := f.history + [Entry(r.seqno, r.version, r.ops, r.actor, p.base, r.rebased)];
            g.history == if |all| > 200 then all[|all| - 200..] else all
    ensures next.files == s.files[p.path := g]
  {
    EffectiveIs(f, p.base, p.ops);
  }

  // ----------------------------------------------------------------- single operations

  /** The place before which an operation at this line number acts, among `n` lines. */
  function Place(line: int, n: nat): (k: nat)
    ensures k <= n
  {
    if line < 1 then 0 else if line > n then n else line - 1
  }

  /** The end of the lines that a deletion takes, the Python slice end of a negative
      count included: it counts from the back once it falls below zero. */
  function PlaceEnd(k: nat, count: int, n: nat): (e: nat)
    requires k <= n
    ensures k <= e <= n
  {
    if count >= 0 then (if k + count < n then k + count else n)
    else if k + count < 0 && k < k + count + n then k + count + n
    else k
  }

  /** An insertion puts its lines, the last one ended, in front of the line it names, or
      at an end of the text; a deletion takes its lines out; a replacement is all there
      is; and the rest of the patch goes on from there. */
  lemma {:induction false} OneOperation(lines: seq<string>, op: Op, more: seq<Op>)
    ensures op.ReplaceFile? ==> ApplyToLines(lines, [op] + more) == Some(op.text)
    ensures op.Insert? ==>
              var k := Place(op.line, |lines|);
              var ended := if op.text == "" || op.text[|op.text| - 1] == '\n' then op.text else op.text + "\n";
              ApplyToLines(lines, [op] + more) == ApplyToLines(lines[..k] + SplitLines(ended) + lines[k..], more)
    ensures op.Delete? ==>
              var k := Place(op.line, |lines|);
              ApplyToLines(lines, [op] + more)
              == ApplyToLines(lines[..k] + lines[PlaceEnd(k, op.count, |lines|)..], more)
    ensures ApplyToLines(lines, []) == Some(Join(lines))
  {
    assert ([op] + more)[1..] == more;
    if op.Insert? {
      InsertIs(lines, op);
    } else if op.Delete? {
      DeleteIs(lines, op);
    }
  }

  lemma {:induction false} InsertIs(lines: seq<string>, op: Op)
    requires op.Insert?
    ensures var k := Place(op.line, |lines|);
            var ended := if op.text == "" || op.text[|op.text| - 1] == '\n' then op.text else op.text + "\n";
            ApplyLine(lines, op) == lines[..k] + SplitLines(ended) + lines[k..]
  {
  }

  lemma {:induction false} DeleteIs(lines: seq<string>, op: Op)
    requires op.Delete?
    ensures var k := Place(op.line, |lines|);
            ApplyLine(lines, op) == lines[..k] + lines[PlaceEnd(k, op.count, |lines|)..]
  {
  }
}
