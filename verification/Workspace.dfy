/** The live workspace: one sequencer per workspace, patches rebased onto the head,
    a bounded history per file. */
module LiveWorkspace {
  import opened Text
  import opened LineOps
  import opened LineTracking

  const HISTORY_CAP: nat := 200
  const MAX_OPS: nat := 100

  /** One applied patch as the history records it. */
  datatype Entry = Entry(seqno: nat, version: nat, ops: seq<Op>, actor: string, base: int, rebased: bool)

  datatype File = File(text: string, version: nat, history: seq<Entry>)

  datatype State = State(files: map<string, File>, seqno: nat)

  datatype Patch = Patch(path: string, base: int, ops: seq<Op>, actor: string)

  /** The event of an applied patch, or the reason why it raised ValueError. */
  datatype Reply =
    | Accepted(path: string, version: nat, seqno: nat, ops: seq<Op>, actor: string, rebased: bool)
    | BadPath
    | TooManyOps
    | UnknownOp

  // ------------------------------------------------------------- specification

  function Components(path: string): seq<string>
  {
    if path == "" then [""]
    else if path[0] == '/' then [""] + Components(path[1..])
    else
      var rest := Components(path[1..]);
      if rest == [] then [[path[0]]] else [[path[0]] + rest[0]] + rest[1..]
  }

  predicate IsBadPath(path: string)
  {
    path == "" || path[0] == '/' || ".." in Components(path)
  }

  /** History entries newer than what the client saw. */
  function Newer(history: seq<Entry>, base: int): seq<Entry>
  {
    if history == [] then []
    else (if history[0].version > base then [history[0]] else []) + Newer(history[1..], base)
  }

  function OpsOf(entries: seq<Entry>): (r: seq<seq<Op>>)
    ensures |r| == |entries|
  {
    seq(|entries|, k requires 0 <= k < |entries| => entries[k].ops)
  }

  /** The last `HISTORY_CAP` entries. */
  function Trim(history: seq<Entry>): seq<Entry>
  {
    if |history| > HISTORY_CAP then history[|history| - HISTORY_CAP..] else history
  }

  /** The operations that are applied for a patch based on version `base`. */
  function Effective(f: File, base: int, ops: seq<Op>): seq<Op>
  {
    if base == f.version then ops else RebaseOps(ops, Flatten(OpsOf(Newer(f.history, base))))
  }

  function FileOf(s: State, path: string): File
  {
    if path in s.files then s.files[path] else File("", 0, [])
  }

  function NewEntry(f: File, p: Patch, seqno: nat): Entry
  {
    Entry(seqno, f.version + 1, Effective(f, p.base, p.ops), p.actor, p.base, p.base != f.version)
  }

  /** `s` with a record for `path`, empty if there was none. */
  function Opened(s: State, path: string): State
  {
    s.(files := s.files[path := FileOf(s, path)])
  }

  /** The state after a patch whose operations turned the file into `text`. */
  function Committed(s: State, p: Patch, text: string): State
  {
    var f := FileOf(s, p.path);
    var history := Trim(f.history + [NewEntry(f, p, s.seqno + 1)]);
    State(s.files[p.path := File(text, f.version + 1, history)], s.seqno + 1)
  }

  function AcceptedReply(s: State, p: Patch): Reply
  {
    var e := NewEntry(FileOf(s, p.path), p, s.seqno + 1);
    Accepted(p.path, e.version, e.seqno, e.ops, e.actor, e.rebased)
  }

  /** The text of the patched file, or `None` if an operation is unknown. */
  function Patched(s: State, p: Patch): Option<string>
  {
    var f := FileOf(s, p.path);
    ApplyOps(f.text, Effective(f, p.base, p.ops))
  }

  /** `apply_patch`. A refused operation still leaves an empty file behind when the
      path was new. */
  function Step(s: State, p: Patch): (State, Reply)
  {
    if IsBadPath(p.path) then (s, BadPath)
    else if |p.ops| > MAX_OPS then (s, TooManyOps)
    else match Patched(s, p)
      case None => (Opened(s, p.path), UnknownOp)
      case Some(text) => (Committed(s, p, text), AcceptedReply(s, p))
  }

  /** What a patch makes of the file it is for. */
  lemma {:induction false} PatchedFrom(s: State, p: Patch, f: File, applied: seq<Op>, text: Option<string>)
    requires f == FileOf(s, p.path) && applied == Effective(f, p.base, p.ops) && text == ApplyOps(f.text, applied)
    ensures Patched(s, p) == text
    ensures var entry := Entry(s.seqno + 1, f.version + 1, applied, p.actor, p.base, p.base != f.version);
            && AcceptedReply(s, p) == Accepted(p.path, entry.version, entry.seqno, applied, p.actor, entry.rebased)
            && (text.Some? ==>
                  Committed(s, p, text.value)
                  == State(s.files[p.path := File(text.value, f.version + 1, Trim(f.history + [entry]))], s.seqno + 1))
  {
  }

  lemma {:induction false} OpenedFirst(s: State, p: Patch, text: string)
    ensures Patched(Opened(s, p.path), p) == Patched(s, p)
    ensures Committed(Opened(s, p.path), p, text) == Committed(s, p, text)
    ensures AcceptedReply(Opened(s, p.path), p) == AcceptedReply(s, p)
  {
    assert FileOf(Opened(s, p.path), p.path) == FileOf(s, p.path);
    assert Opened(s, p.path).files[p.path := FileOf(s, p.path)] == s.files[p.path := FileOf(s, p.path)];
  }

  function Created(initial: map<string, string>): State
  {
    State(map p | p in initial :: File(initial[p], 1, []), 1)
  }

  // ------------------------------------------------------------ implementation

  /** The mutable record of one file. */
  class FileState {
    var text: string
    var version: nat
    var history: seq<Entry>

    constructor (text: string, version: nat)
      ensures Value() == File(text, version, [])
    {
      this.text := text;
      this.version := version;
      history := [];
    }

    ghost function Value(): File
      reads this
    {
      File(text, version, history)
    }

    /** The operations to apply for a patch based on `base`, rebased if it is stale. */
    method Rebase(base: int, ops: seq<Op>) returns (applied: seq<Op>)
      ensures applied == Effective(Value(), base, ops)
    {
      if base == version { return ops; }
      var newer := [];
      for i := 0 to |history|
        invariant newer + OpsOf(Newer(history[i..], base)) == OpsOf(Newer(history, base))
      {
        assert history[i..][1..] == history[i + 1..];
        if history[i].version > base {
          assert OpsOf(Newer(history[i..], base))
              == [history[i].ops] + OpsOf(Newer(history[i + 1..], base));
          newer := newer + [history[i].ops];
        } else {
          assert Newer(history[i..], base) == Newer(history[i + 1..], base);
        }
      }
      assert newer == OpsOf(Newer(history, base));
      applied := RebasePatch(newer, ops);
    }

    /** Take the new text and record how it came about. */
    method Commit(newText: string, entry: Entry)
      modifies this
      ensures Value() == File(newText, old(version) + 1, Trim(old(history) + [entry]))
    {
      text := newText;
      version := version + 1;
      history := history + [entry];
      if |history| > HISTORY_CAP {
        history := history[|history| - HISTORY_CAP..];
      }
    }
  }

  class Workspace {
    var files: map<string, FileState>
    var seqno: nat

    ghost function Objects(): set<object>
      reads this
    {
      set p | p in files :: files[p]
    }

    /** No two paths share a record. */
    ghost predicate Valid()
      reads this
    {
      forall p, q :: p in files && q in files && p != q ==> files[p] != files[q]
    }

    ghost function Value(): State
      reads this, Objects()
    {
      State(map p | p in files :: files[p].Value(), seqno)
    }

    constructor (initial: map<string, string>)
      ensures Valid() && fresh(Objects()) && Value() == Created(initial)
    {
      files := map[];
      seqno := 1;
      new;
      var todo := initial.Keys;
      while todo != {}
        invariant todo <= initial.Keys && files.Keys == initial.Keys - todo && seqno == 1
        invariant Valid() && (forall p :: p in files ==> fresh(files[p]))
        invariant forall p :: p in files ==> files[p].Value() == File(initial[p], 1, [])
      {
        var p :| p in todo;
        var f := new FileState(initial[p], 1);
        files := files[p := f];
        todo := todo - {p};
      }
    }

    /** The record of `path`, made on first use. */
    method Open(path: string) returns (f: FileState)
      requires Valid()
      modifies this
      ensures Valid() && fresh(Objects() - old(Objects()))
      ensures path in files && files[path] == f && f.Value() == FileOf(old(Value()), path)
      ensures Value() == old(Value()).(files := old(Value()).files[path := f.Value()])
    {
      if path !in files {
        f := new FileState("", 0);
        files := files[path := f];
      } else {
        f := files[path];
      }
    }

    /** Patch the record of an open file. */
    method Store(p: Patch) returns (r: Reply)
      requires Valid() && p.path in files
      modifies this`seqno, files[p.path]
      ensures Valid()
      ensures match Patched(old(Value()), p)
              case None => Value() == old(Value()) && r == UnknownOp
              case Some(text) => Value() == Committed(old(Value()), p, text)
                                 && r == AcceptedReply(old(Value()), p)
    {
      ghost var before := Value();
      var fst := files[p.path];
      ghost var f := fst.Value();
      var applied := fst.Rebase(p.base, p.ops);
      var text := ApplyPatchOps(fst.text, applied);
      PatchedFrom(before, p, f, applied, text);
      if text.None? { return UnknownOp; }
      var rebased := p.base != fst.version;
      var entry := Entry(seqno + 1, fst.version + 1, applied, p.actor, p.base, rebased);
      r := Accepted(p.path, entry.version, entry.seqno, applied, p.actor, rebased);
      Keep(p.path, text.value, entry);
    }

    /** Writes the new text and its entry to an open file, and counts it. */
    method Keep(path: string, text: string, entry: Entry)
      requires Valid() && path in files
      modifies this`seqno, files[path]
      ensures Valid()
      ensures var f := old(files[path].Value());
              Value() == State(old(Value()).files[path := File(text, f.version + 1, Trim(f.history + [entry]))],
                               old(seqno) + 1)
    {
      ghost var before := Value();
      seqno := seqno + 1;
      files[path].Commit(text, entry);
      assert Value().files == before.files[path := files[path].Value()];
    }

    method ApplyPatch(path: string, base: int, ops: seq<Op>, actor: string) returns (r: Reply)
      requires Valid()
      modifies this, Objects()
      ensures Valid() && fresh(Objects() - old(Objects()))
      ensures (Value(), r) == Step(old(Value()), Patch(path, base, ops, actor))
    {
      ghost var before := Value();
      if IsBadPath(path) { return BadPath; }
      if |ops| > MAX_OPS { return TooManyOps; }
      var p := Patch(path, base, ops, actor);
      var _ := Open(path);
      assert Value() == Opened(before, path);
      r := Store(p);
      if Patched(before, p).Some? {
        OpenedFirst(before, p, Patched(before, p).value);
      } else {
        OpenedFirst(before, p, "");
      }
    }

    /** `snapshot`: every file's head version and text, with the sequence number. */
    method Snapshot() returns (at: nat, heads: map<string, (nat, string)>)
      requires Valid()
      ensures at == Value().seqno && heads.Keys == Value().files.Keys
      ensures forall p :: p in heads ==> heads[p] == (Value().files[p].version, Value().files[p].text)
    {
      at := seqno;
      heads := map p | p in files :: (files[p].version, files[p].text);
    }

    /** `file_state`: a missing path reads as an empty file at version 0. */
    method ReadFile(path: string) returns (at: nat, version: nat, text: string)
      requires Valid()
      ensures at == Value().seqno
      ensures (version, text) == (FileOf(Value(), path).version, FileOf(Value(), path).text)
    {
      at := seqno;
      if path in files {
        version, text := files[path].version, files[path].text;
      } else {
        version, text := 0, "";
      }
    }
  }
}
