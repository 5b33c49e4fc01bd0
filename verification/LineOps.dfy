/** The patch language of live workspaces: applying line operations to a text,
    and shifting a stale operation over the operations applied since. */
module LineOps {
  import opened Text

  /** One operation of a patch. `Unknown` stands for any other `op` name. */
  datatype Op =
    | Insert(line: int, text: string)
    | Delete(line: int, count: int)
    | ReplaceFile(text: string)
    | Unknown(line: int)

  // ---------------------------------------------------------------- applying

  /** `max(0, min(i, n))`. */
  function Clamp(i: int, n: nat): (k: nat)
  {
    if i < 0 then 0 else if i < n then i else n
  }

  /** The text of an insertion as lines; a missing final newline is supplied. */
  function InsertedLines(text: string): (lines: seq<string>)
  {
    SplitLines(if text != "" && text[|text| - 1] != '\n' then text + "\n" else text)
  }

  /** End of the Python slice `[idx:stop]` of a list of `n` lines: a negative
      `stop` counts from the end. */
  function SliceEnd(stop: int, n: nat): (e: nat)
  {
    if stop < 0 then Clamp(stop + n, n) else Clamp(stop, n)
  }

  /** Where `op` acts in a text of `n` lines. */
  function At(op: Op, n: nat): (k: nat)
    ensures k <= n
  {
    if op.ReplaceFile? then 0 else Clamp(op.line - 1, n)
  }

  /** How many lines `op` takes out at `At(op, n)`. */
  function Removed(op: Op, n: nat): (k: nat)
    ensures At(op, n) + k <= n
  {
    if op.Delete? then
      var e := SliceEnd(At(op, n) + op.count, n);
      if e <= At(op, n) then 0 else e - At(op, n)
    else 0
  }

  function Added(op: Op): (lines: seq<string>)
  {
    if op.Insert? then InsertedLines(op.text) else []
  }

  function Spliced<T>(xs: seq<T>, at: nat, removed: nat, added: seq<T>): seq<T>
    requires at + removed <= |xs|
  {
    xs[..at] + added + xs[at + removed..]
  }

  /** An insertion or a deletion applied to a list of lines. */
  function ApplyLine(lines: seq<string>, op: Op): seq<string>
  {
    Spliced(lines, At(op, |lines|), Removed(op, |lines|), Added(op))
  }

  /** A patch applied to a list of lines; `None` is the ValueError of an unknown
      operation. A whole-file replacement ends the patch. */
  function ApplyToLines(lines: seq<string>, ops: seq<Op>): Option<string>
    decreases ops
  {
    if ops == [] then Some(Join(lines))
    else match ops[0]
      case ReplaceFile(text) => Some(text)
      case Unknown(_) => None
      case _ => ApplyToLines(ApplyLine(lines, ops[0]), ops[1..])
  }

  function ApplyOps(text: string, ops: seq<Op>): Option<string>
  {
    ApplyToLines(SplitLines(text), ops)
  }

  /** `_apply_ops`: the loop that splices the list of lines. */
  method ApplyPatchOps(text: string, ops: seq<Op>) returns (r: Option<string>)
    ensures r == ApplyOps(text, ops)
  {
    var lines := SplitLines(text);
    for i := 0 to |ops|
      invariant ApplyOps(text, ops) == ApplyToLines(lines, ops[i..])
    {
      var op := ops[i];
      assert ops[i..][0] == op && ops[i..][1..] == ops[i + 1..];
      match op {
        case Insert(line, ins) =>
          var idx := Clamp(line - 1, |lines|);
          assert ApplyLine(lines, op) == lines[..idx] + InsertedLines(ins) + lines[idx..];
          lines := lines[..idx] + InsertedLines(ins) + lines[idx..];
        case Delete(line, count) =>
          var idx := Clamp(line - 1, |lines|);
          var stop := SliceEnd(idx + count, |lines|);
          if idx < stop {
            assert ApplyLine(lines, op) == lines[..idx] + lines[stop..];
            lines := lines[..idx] + lines[stop..];
          } else {
            assert ApplyLine(lines, op) == lines;
          }
        case ReplaceFile(whole) =>
          return Some(whole);
        case Unknown(_) =>
          return None;
      }
    }
    assert ops[|ops|..] == [];
    r := Some(Join(lines));
  }

  // ---------------------------------------------------------------- rebasing

  /** How many lines a history operation is taken to have added or removed.
      An empty insertion counts as one line. */
  function CountOf(hop: Op): int
  {
    match hop
    case Insert(_, text) => if |SplitLines(text)| == 0 then 1 else |SplitLines(text)|
    case Delete(_, count) => count
    case _ => 0
  }

  /** A stale line number shifted over one newer operation. */
  function Shift(line: int, hop: Op): int
  {
    match hop
    case Insert(h, _) => if line >= h then line + CountOf(hop) else line
    case Delete(h, _) =>
      if line > h then
        if h > line - CountOf(hop) then h else line - CountOf(hop)
      else line
    case _ => line
  }

  function ShiftAll(line: int, hops: seq<Op>): int
    decreases hops
  {
    if hops == [] then line else ShiftAll(Shift(line, hops[0]), hops[1..])
  }

  function WithLine(op: Op, line: int): Op
  {
    match op
    case Insert(_, text) => Insert(line, text)
    case Delete(_, count) => Delete(line, count)
    case ReplaceFile(text) => op
    case Unknown(_) => Unknown(line)
  }

  function RebaseOp(op: Op, hops: seq<Op>): Op
  {
    if op.ReplaceFile? then op else WithLine(op, ShiftAll(op.line, hops))
  }

  /** `_rebase_ops`: each operation of the patch moves over all newer operations,
      independently of the others. */
  function RebaseOps(ops: seq<Op>, hops: seq<Op>): (r: seq<Op>)
    ensures |r| == |ops|
    ensures forall k :: 0 <= k < |ops| ==> r[k] == RebaseOp(ops[k], hops)
  {
    seq(|ops|, k requires 0 <= k < |ops| => RebaseOp(ops[k], hops))
  }

  /** All operations of a list of patches, oldest first. */
  function Flatten(patches: seq<seq<Op>>): seq<Op>
  {
    if patches == [] then [] else patches[0] + Flatten(patches[1..])
  }

  /** The rebase counts a non-empty insertion exactly. */
  lemma {:induction false} CountIsLength(text: string)
    requires text != ""
    ensures |InsertedLines(text)| == |SplitLines(text)| > 0
    decreases |text|
  {
    if text[|text| - 1] != '\n' {
      var t := text + "\n";
      assert t[1..] == text[1..] + "\n";
      if |text| > 1 {
        assert text[1..][|text[1..]| - 1] == text[|text| - 1];
        CountIsLength(text[1..]);
      } else {
        assert SplitLines(text[1..] + "\n") == ["\n"] + SplitLines("");
      }
    }
  }

  lemma {:induction false} ShiftAllAppend(line: int, a: seq<Op>, b: seq<Op>)
    ensures ShiftAll(line, a + b) == ShiftAll(ShiftAll(line, a), b)
    decreases a
  {
    if a == [] {
      assert a + b == b;
    } else {
      assert (a + b)[1..] == a[1..] + b;
      ShiftAllAppend(Shift(line, a[0]), a[1..], b);
    }
  }

  lemma {:induction false} FlattenAppend(a: seq<seq<Op>>, b: seq<seq<Op>>)
    ensures Flatten(a + b) == Flatten(a) + Flatten(b)
  {
    if a == [] {
      assert a + b == b;
    } else {
      assert (a + b)[1..] == a[1..] + b;
      FlattenAppend(a[1..], b);
    }
  }

  lemma {:induction false} RebaseOne(op: Op, hop: Op)
    ensures op.ReplaceFile? ==> RebaseOp(op, [hop]) == op
    ensures !op.ReplaceFile? ==> RebaseOp(op, [hop]) == WithLine(op, Shift(op.line, hop))
  {
    assert [hop][1..] == [];
    if !op.ReplaceFile? {
      assert ShiftAll(op.line, [hop]) == ShiftAll(Shift(op.line, hop), []);
    }
  }

  lemma {:induction false} RebaseOpStep(op: Op, hops: seq<Op>, hop: Op)
    ensures RebaseOp(op, hops + [hop]) == RebaseOp(RebaseOp(op, hops), [hop])
  {
    if !op.ReplaceFile? {
      ShiftAllAppend(op.line, hops, [hop]);
      assert [hop][1..] == [];
    }
  }

  /** One innermost pass of `_rebase_ops`: shift every operation of the patch over
      one history operation. */
  method ShiftPatch(out0: seq<Op>, hop: Op) returns (out: seq<Op>)
    ensures out == RebaseOps(out0, [hop])
  {
    out := out0;
    for k := 0 to |out0|
      invariant |out| == |out0|
      invariant forall m :: 0 <= m < k ==> out[m] == RebaseOp(out0[m], [hop])
      invariant forall m :: k <= m < |out0| ==> out[m] == out0[m]
    {
      var o := out[k];
      RebaseOne(o, hop);
      if !o.ReplaceFile? {
        if hop.Insert? && o.line >= hop.line {
          out := out[k := WithLine(o, o.line + CountOf(hop))];
        } else if hop.Delete? && o.line > hop.line {
          var back := o.line - CountOf(hop);
          out := out[k := WithLine(o, if back > hop.line then back else hop.line)];
        }
      }
    }
  }

  /** `_rebase_ops` as written: for each newer patch, each of its operations, each
      operation of the client's patch. */
  method RebasePatch(newer: seq<seq<Op>>, ops: seq<Op>) returns (out: seq<Op>)
    ensures out == RebaseOps(ops, Flatten(newer))
  {
    out := ops;
    ghost var done: seq<Op> := [];
    for i := 0 to |newer|
      invariant done == Flatten(newer[..i])
      invariant out == RebaseOps(ops, done)
    {
      ghost var before := done;
      for j := 0 to |newer[i]|
        invariant done == before + newer[i][..j]
        invariant out == RebaseOps(ops, done)
      {
        var hop := newer[i][j];
        out := ShiftPatch(out, hop);
        forall k | 0 <= k < |ops| {
          RebaseOpStep(ops[k], done, hop);
        }
        done := done + [hop];
      }
      assert newer[i][..|newer[i]|] == newer[i];
      assert newer[..i + 1] == newer[..i] + [newer[i]];
      FlattenAppend(newer[..i], [newer[i]]);
      assert Flatten([newer[i]]) == newer[i] + Flatten([]);
    }
    assert newer[..|newer|] == newer;
  }
}
