/** Does a rebased operation still mean what its author meant?  Lines get
    identities here: every line of the text the author saw is labelled with its
    index, and the newer patches are replayed on the labelled lines. */
module LineTracking {
  import opened Text
  import opened LineOps

  /** A line with the index it had in the author's text, if it was there. */
  datatype Tagged = Tagged(id: Option<nat>, text: string)

  function Fresh(lines: seq<string>): (r: seq<Tagged>)
    ensures |r| == |lines|
  {
    seq(|lines|, k requires 0 <= k < |lines| => Tagged(None, lines[k]))
  }

  function Label(lines: seq<string>): (r: seq<Tagged>)
    ensures |r| == |lines|
  {
    seq(|lines|, k requires 0 <= k < |lines| => Tagged(Some(k), lines[k]))
  }

  function Texts(tl: seq<Tagged>): (r: seq<string>)
    ensures |r| == |tl|
  {
    seq(|tl|, k requires 0 <= k < |tl| => tl[k].text)
  }

  /** One insertion or deletion on labelled lines; inserted lines are unlabelled. */
  function TagLine(tl: seq<Tagged>, op: Op): seq<Tagged>
  {
    Spliced(tl, At(op, |tl|), Removed(op, |tl|), Fresh(Added(op)))
  }

  /** One patch on labelled lines. A replacement leaves no labelled line. */
  function TagPatch(tl: seq<Tagged>, ops: seq<Op>): seq<Tagged>
    decreases ops
  {
    if ops == [] then tl
    else match ops[0]
      case ReplaceFile(text) => Fresh(SplitLines(text))
      case Unknown(_) => tl
      case _ => TagPatch(TagLine(tl, ops[0]), ops[1..])
  }

  function TagHistory(tl: seq<Tagged>, patches: seq<seq<Op>>): seq<Tagged>
    decreases patches
  {
    if patches == [] then tl else TagHistory(TagPatch(tl, patches[0]), patches[1..])
  }

  /** The text after a list of patches, or `None` when one of them is refused. */
  function Replay(text: string, patches: seq<seq<Op>>): Option<string>
    decreases patches
  {
    if patches == [] then Some(text)
    else match ApplyOps(text, patches[0])
      case None => None
      case Some(t) => Replay(t, patches[1..])
  }

  // ------------------------------------------------- labels follow the text

  /** Whole-file replacements leave a text whose lines are all terminated. */
  predicate Tidy(ops: seq<Op>)
  {
    forall k :: 0 <= k < |ops| && ops[k].ReplaceFile? ==> Terminated(ops[k].text)
  }

  predicate TidyHistory(patches: seq<seq<Op>>)
  {
    forall k :: 0 <= k < |patches| ==> Tidy(patches[k])
  }

  lemma {:induction false} InsertedTerminated(text: string)
    ensures AllLines(InsertedLines(text))
  {
    SplitTerminated(if text != "" && text[|text| - 1] != '\n' then text + "\n" else text);
  }

  lemma {:induction false} TextsOfFresh(lines: seq<string>)
    ensures Texts(Fresh(lines)) == lines
    ensures Texts(Label(lines)) == lines
  {
  }

  lemma {:induction false} SplicedLines(lines: seq<string>, at: nat, removed: nat, added: seq<string>)
    requires at + removed <= |lines| && AllLines(lines) && AllLines(added)
    ensures AllLines(Spliced(lines, at, removed, added))
  {
    var r := Spliced(lines, at, removed, added);
    forall k | 0 <= k < |r| ensures IsLine(r[k]) {
      if k < at {
        assert r[k] == lines[k];
      } else if k < at + |added| {
        assert r[k] == added[k - at];
      } else {
        assert r[k] == lines[k - |added| + removed];
      }
    }
  }

  lemma {:induction false} TagLineText(tl: seq<Tagged>, op: Op)
    requires AllLines(Texts(tl))
    ensures Texts(TagLine(tl, op)) == ApplyLine(Texts(tl), op)
    ensures AllLines(Texts(TagLine(tl, op)))
  {
    TextsOfFresh(Added(op));
    if op.Insert? { InsertedTerminated(op.text); }
    SplicedLines(Texts(tl), At(op, |tl|), Removed(op, |tl|), Added(op));
  }

  lemma {:induction false} TagPatchText(tl: seq<Tagged>, ops: seq<Op>)
    requires AllLines(Texts(tl)) && Tidy(ops)
    requires ApplyToLines(Texts(tl), ops).Some?
    ensures SplitLines(ApplyToLines(Texts(tl), ops).value) == Texts(TagPatch(tl, ops))
    ensures AllLines(Texts(TagPatch(tl, ops)))
    ensures Terminated(ApplyToLines(Texts(tl), ops).value)
    decreases ops
  {
    if ops == [] {
      SplitJoin(Texts(tl));
      JoinTerminated(Texts(tl));
    } else if ops[0].ReplaceFile? {
      TextsOfFresh(SplitLines(ops[0].text));
      SplitTerminated(ops[0].text);
    } else {
      TagLineText(tl, ops[0]);
      TagPatchText(TagLine(tl, ops[0]), ops[1..]);
    }
  }

  /** Replaying on labelled lines and on texts is the same thing: the lines of the
      final text are the final labelled lines. */
  lemma {:induction false} TagHistoryText(tl: seq<Tagged>, text: string, patches: seq<seq<Op>>)
    requires SplitLines(text) == Texts(tl) && Terminated(text) && TidyHistory(patches)
    requires Replay(text, patches).Some?
    ensures SplitLines(Replay(text, patches).value) == Texts(TagHistory(tl, patches))
    ensures Terminated(Replay(text, patches).value)
    decreases patches
  {
    if patches != [] {
      SplitTerminated(text);
      assert Tidy(patches[0]);
      TagPatchText(tl, patches[0]);
      TagHistoryText(TagPatch(tl, patches[0]), ApplyOps(text, patches[0]).value, patches[1..]);
    }
  }

  // ------------------------------------------------------ tracking one line

  /** The rebase counts `op` as what it does, whatever the text. */
  predicate Counted(op: Op)
  {
    (op.Insert? ==> op.text != "") && (op.Delete? ==> op.count >= 0)
  }

  predicate CountedAll(ops: seq<Op>)
  {
    forall k :: 0 <= k < |ops| ==> Counted(ops[k])
  }

  /** If the line labelled `i` is still there, it is line number `line`. */
  predicate Tracks(tl: seq<Tagged>, i: nat, line: int)
  {
    forall j :: 0 <= j < |tl| && tl[j].id == Some(i) ==> j == line - 1
  }

  /** The gap in front of line number `line` separates the surviving lines from
      before the author's line `i` from those at or after it. */
  predicate Separates(tl: seq<Tagged>, i: nat, line: int)
  {
    forall j :: 0 <= j < |tl| && tl[j].id.Some? ==>
      (if tl[j].id.value < i then j < line - 1 else line - 1 <= j)
  }

  /** Position before `op` of the line that is at `j` afterwards, if it is old. */
  function Before(op: Op, n: nat, j: nat): (i: nat)
  {
    if j < At(op, n) then j
    else if j < At(op, n) + |Added(op)| then 0
    else j - |Added(op)| + Removed(op, n)
  }

  lemma {:induction false} TagLineAt(tl: seq<Tagged>, op: Op, j: nat)
    requires j < |TagLine(tl, op)|
    ensures TagLine(tl, op)[j].id.Some? ==>
              !(At(op, |tl|) <= j < At(op, |tl|) + |Added(op)|)
              && Before(op, |tl|, j) < |tl|
              && TagLine(tl, op)[j] == tl[Before(op, |tl|, j)]
  {
  }

  lemma {:induction false} StepTracks(tl: seq<Tagged>, op: Op, i: nat, line: int)
    requires Counted(op) && (op.Insert? || op.Delete?) && Tracks(tl, i, line)
    ensures Tracks(TagLine(tl, op), i, Shift(line, op))
  {
    if op.Insert? { CountIsLength(op.text); }
    var r := TagLine(tl, op);
    forall j | 0 <= j < |r| && r[j].id == Some(i) ensures j == Shift(line, op) - 1 {
      TagLineAt(tl, op, j);
    }
  }

  lemma {:induction false} StepSeparates(tl: seq<Tagged>, op: Op, i: nat, line: int)
    requires Counted(op) && (op.Insert? || op.Delete?) && Separates(tl, i, line)
    ensures Separates(TagLine(tl, op), i, Shift(line, op))
  {
    if op.Insert? { CountIsLength(op.text); }
    var r := TagLine(tl, op);
    forall j | 0 <= j < |r| && r[j].id.Some?
      ensures if r[j].id.value < i then j < Shift(line, op) - 1 else Shift(line, op) - 1 <= j
    {
      TagLineAt(tl, op, j);
    }
  }

  lemma {:induction false} PatchTracks(tl: seq<Tagged>, ops: seq<Op>, i: nat, line: int)
    requires CountedAll(ops) && Tracks(tl, i, line) && Separates(tl, i, line)
    requires ApplyToLines(Texts(tl), ops).Some?
    requires AllLines(Texts(tl))
    ensures Tracks(TagPatch(tl, ops), i, ShiftAll(line, ops))
    ensures Separates(TagPatch(tl, ops), i, ShiftAll(line, ops))
    decreases ops
  {
    if ops != [] && !ops[0].ReplaceFile? {
      assert Counted(ops[0]);
      StepTracks(tl, ops[0], i, line);
      StepSeparates(tl, ops[0], i, line);
      TagLineText(tl, ops[0]);
      PatchTracks(TagLine(tl, ops[0]), ops[1..], i, Shift(line, ops[0]));
    }
  }

  /** Tracking over any history: after any number of newer patches, the rebased
      line number is that of the very line the author addressed, if that line
      survives; and in every case it is a place that separates the surviving lines
      before it from those after it. */
  lemma {:induction false} HistoryTracks(
      tl: seq<Tagged>, text: string, patches: seq<seq<Op>>, i: nat, line: int)
    requires SplitLines(text) == Texts(tl) && Terminated(text) && TidyHistory(patches)
    requires CountedAll(Flatten(patches)) && Replay(text, patches).Some?
    requires Tracks(tl, i, line) && Separates(tl, i, line)
    ensures Tracks(TagHistory(tl, patches), i, ShiftAll(line, Flatten(patches)))
    ensures Separates(TagHistory(tl, patches), i, ShiftAll(line, Flatten(patches)))
    decreases patches
  {
    if patches != [] {
      SplitTerminated(text);
      var flat := Flatten(patches);
      forall k | 0 <= k < |patches[0]| ensures Counted(patches[0][k]) {
        assert flat[k] == patches[0][k];
      }
      forall k | 0 <= k < |Flatten(patches[1..])| ensures Counted(Flatten(patches[1..])[k]) {
        assert flat[|patches[0]| + k] == Flatten(patches[1..])[k];
      }
      PatchTracks(tl, patches[0], i, line);
      TagPatchText(tl, patches[0]);
      ShiftAllAppend(line, patches[0], Flatten(patches[1..]));
      HistoryTracks(TagPatch(tl, patches[0]), ApplyOps(text, patches[0]).value, patches[1..], i,
                    ShiftAll(line, patches[0]));
    }
  }

  // -------------------------------------------------- the limits of tracking

  /** When the rebase counts `op` right on a text of `n` lines: an insertion must
      insert something or lie beyond the text, and a deletion with a negative count
      (a Python slice end counted from the back) must leave no line after it. */
  predicate CountedOn(op: Op, n: nat)
  {
    match op
    case Insert(line, text) => text != "" || line > n || n == 0
    case Delete(line, count) => count >= 0 || n <= line || n <= At(op, n) + Removed(op, n)
    case _ => true
  }

  /** After `op`, the shifted line number of line `i` is still that of line `i`. */
  predicate TracksFrom(lines: seq<string>, op: Op, i: nat)
  {
    Tracks(TagLine(Label(lines), op), i, Shift(i + 1, op))
  }

  lemma {:induction false} CountedTracks(lines: seq<string>, op: Op, i: nat)
    requires (op.Insert? || op.Delete?) && CountedOn(op, |lines|) && i < |lines|
    ensures TracksFrom(lines, op, i)
  {
    if op.Insert? && op.text != "" { CountIsLength(op.text); }
    var r := TagLine(Label(lines), op);
    forall j | 0 <= j < |r| && r[j].id == Some(i) ensures j == Shift(i + 1, op) - 1 {
      TagLineAt(Label(lines), op, j);
    }
  }

  /** A miscounted operation leaves the last line with a wrong number. */
  lemma {:induction false} MiscountedLoses(lines: seq<string>, op: Op)
    requires (op.Insert? || op.Delete?) && !CountedOn(op, |lines|)
    ensures |lines| > 0 && !TracksFrom(lines, op, |lines| - 1)
  {
    var r := TagLine(Label(lines), op);
    assert op.Insert? ==> Added(op) == [];
    assert r[|r| - 1] == Label(lines)[|lines| - 1];
  }

  /** Exactly when one newer operation keeps every stale line number right. */
  lemma {:induction false} TracksIffCounted(lines: seq<string>, op: Op)
    requires op.Insert? || op.Delete?
    ensures (forall i: nat :: i < |lines| ==> TracksFrom(lines, op, i)) <==> CountedOn(op, |lines|)
  {
    if CountedOn(op, |lines|) {
      forall i: nat | i < |lines| ensures TracksFrom(lines, op, i) {
        CountedTracks(lines, op, i);
      }
    } else {
      MiscountedLoses(lines, op);
    }
  }

  lemma {:induction false} UnterminatedInside(lines: seq<string>, at: nat, ins: seq<string>)
    requires at < |lines| && AllLines(lines[..|lines| - 1]) && NoBreak(lines[|lines| - 1]) && AllLines(ins)
    ensures var r := lines[..at] + ins + lines[at..]; SplitLines(Join(r)) == r
  {
    var last := lines[|lines| - 1];
    var init := lines[..at] + ins + lines[at..|lines| - 1];
    assert lines[..at] + ins + lines[at..] == init + [last];
    JoinLast(init, last);
    SplitLoose(init, last);
  }

  lemma {:induction false} UnterminatedEnd(lines: seq<string>, ins: seq<string>)
    requires lines != [] && AllLines(lines[..|lines| - 1]) && NoBreak(lines[|lines| - 1])
    requires AllLines(ins) && ins != []
    ensures |SplitLines(Join(lines + ins))| != |lines + ins|
  {
    var init, last := lines[..|lines| - 1], lines[|lines| - 1];
    assert lines + ins == init + [last] + ins;
    JoinMiddle(init, last, ins);
    SplitSwallows(init, last, ins);
  }

  /** Lines as the clients see them are lines of the text exactly when an insertion
      does not extend a last line that lacks its newline. */
  lemma {:induction false} InsertKeepsLines(text: string, line: int, added: string, at: nat)
    requires at == At(Insert(line, added), |SplitLines(text)|)
    ensures var r := ApplyLine(SplitLines(text), Insert(line, added));
            SplitLines(Join(r)) == r
            <==> Terminated(text) || added == "" || at < |SplitLines(text)|
  {
    var lines, ins := SplitLines(text), InsertedLines(added);
    assert ApplyLine(lines, Insert(line, added)) == lines[..at] + ins + lines[at..];
    InsertedTerminated(added);
    if Terminated(text) {
      TerminatedInsert(text, lines, at, ins);
    } else {
      SplitUnterminated(text);
      UnterminatedInsert(text, lines, at, added, ins);
    }
  }

  lemma {:induction false} TerminatedInsert(text: string, lines: seq<string>, at: nat, ins: seq<string>)
    requires Terminated(text) && lines == SplitLines(text) && at <= |lines| && AllLines(ins)
    ensures var r := lines[..at] + ins + lines[at..]; SplitLines(Join(r)) == r
  {
    SplitTerminated(text);
    SplicedLines(lines, at, 0, ins);
    SplitJoin(Spliced(lines, at, 0, ins));
  }

  lemma {:induction false} UnterminatedInsert(text: string, lines: seq<string>, at: nat, added: string,
                                              ins: seq<string>)
    requires lines == SplitLines(text) && at <= |lines| && ins == InsertedLines(added) && AllLines(ins)
    requires lines != [] && AllLines(lines[..|lines| - 1]) && NoBreak(lines[|lines| - 1])
    ensures var r := lines[..at] + ins + lines[at..];
            SplitLines(Join(r)) == r <==> added == "" || at < |lines|
  {
    if added == "" {
      assert lines[..at] + ins + lines[at..] == lines;
      JoinSplit(text);
    } else {
      CountIsLength(added);
      if at < |lines| {
        UnterminatedInside(lines, at, ins);
      } else {
        assert lines[..at] + ins + lines[at..] == lines + ins;
        UnterminatedEnd(lines, ins);
      }
    }
  }

  // ------------------------------------------- what a stale patch does to the head

  lemma {:induction false} LabelTracks(lines: seq<string>, i: nat)
    ensures Tracks(Label(lines), i, i + 1) && Separates(Label(lines), i, i + 1)
  {
  }

  /** An old line survives in at most one place. */
  lemma {:induction false} SurvivesOnce(text: string, patches: seq<seq<Op>>, i: nat, j: nat, k: nat)
    requires Terminated(text) && TidyHistory(patches) && CountedAll(Flatten(patches))
    requires Replay(text, patches).Some?
    requires var tl := TagHistory(Label(SplitLines(text)), patches);
             j < |tl| && k < |tl| && tl[j].id == Some(i) && tl[k].id == Some(i)
    ensures j == k
  {
    var lines := SplitLines(text);
    TextsOfFresh(lines);
    LabelTracks(lines, i);
    HistoryTracks(Label(lines), text, patches, i, i + 1);
  }

  /** The head text a patch based on `text` meets after `patches`. */
  ghost predicate Meets(text: string, patches: seq<seq<Op>>, head: string)
  {
    Terminated(text) && TidyHistory(patches) && CountedAll(Flatten(patches))
    && Replay(text, patches) == Some(head)
  }

  lemma {:induction false} HeadLines(text: string, patches: seq<seq<Op>>, head: string, i: nat)
    requires Meets(text, patches, head)
    ensures SplitLines(head) == Texts(TagHistory(Label(SplitLines(text)), patches))
    ensures Tracks(TagHistory(Label(SplitLines(text)), patches), i, ShiftAll(i + 1, Flatten(patches)))
    ensures Separates(TagHistory(Label(SplitLines(text)), patches), i, ShiftAll(i + 1, Flatten(patches)))
  {
    var lines := SplitLines(text);
    TextsOfFresh(lines);
    TagHistoryText(Label(lines), text, patches);
    LabelTracks(lines, i);
    HistoryTracks(Label(lines), text, patches, i, i + 1);
  }

  lemma {:induction false} ApplySingle(text: string, op: Op)
    requires op.Insert? || op.Delete?
    ensures ApplyOps(text, [op]) == Some(Join(ApplyLine(SplitLines(text), op)))
  {
    assert [op][1..] == [];
    assert ApplyToLines(ApplyLine(SplitLines(text), op), []) ==
           Some(Join(ApplyLine(SplitLines(text), op)));
  }

  /** A stale insertion lands where it was meant: after every surviving line from
      before the addressed line, before every surviving line from there on, and so
      right in front of the addressed line if that survives. */
  lemma {:induction false} StaleInsertLands(text: string, patches: seq<seq<Op>>, head: string, i: nat, added: string)
      returns (at: nat)
    requires Meets(text, patches, head)
    ensures at <= |SplitLines(head)|
    ensures ApplyOps(head, RebaseOps([Insert(i + 1, added)], Flatten(patches)))
            == Some(Join(SplitLines(head)[..at] + InsertedLines(added) + SplitLines(head)[at..]))
    ensures var tl := TagHistory(Label(SplitLines(text)), patches);
            forall j :: 0 <= j < |tl| && tl[j].id.Some? ==>
              (tl[j].id.value < i <==> j < at) && (tl[j].id == Some(i) ==> j == at)
  {
    HeadLines(text, patches, head, i);
    var line := ShiftAll(i + 1, Flatten(patches));
    var lines := SplitLines(head);
    at := Clamp(line - 1, |lines|);
    var ops := RebaseOps([Insert(i + 1, added)], Flatten(patches));
    assert ops == [Insert(line, added)];
    ApplySingle(head, ops[0]);
    assert ApplyLine(lines, ops[0]) == lines[..at] + InsertedLines(added) + lines[at..];
  }

  /** The labelled head without the line labelled `i`. */
  function Without(tl: seq<Tagged>, i: nat): seq<string>
  {
    if tl == [] then []
    else (if tl[0].id == Some(i) then [] else [tl[0].text]) + Without(tl[1..], i)
  }

  lemma {:induction false} WithoutAbsent(tl: seq<Tagged>, i: nat)
    requires forall j :: 0 <= j < |tl| ==> tl[j].id != Some(i)
    ensures Without(tl, i) == Texts(tl)
  {
    if tl != [] {
      WithoutAbsent(tl[1..], i);
      assert Texts(tl) == [tl[0].text] + Texts(tl[1..]);
    }
  }

  lemma {:induction false} WithoutAt(tl: seq<Tagged>, i: nat, j: nat)
    requires j < |tl| && tl[j].id == Some(i)
    requires forall k :: 0 <= k < |tl| && tl[k].id == Some(i) ==> k == j
    ensures Without(tl, i) == Texts(tl)[..j] + Texts(tl)[j + 1..]
  {
    assert Texts(tl) == [tl[0].text] + Texts(tl[1..]);
    if j == 0 {
      WithoutAbsent(tl[1..], i);
    } else {
      forall k | 0 <= k < |tl[1..]| && tl[1..][k].id == Some(i) ensures k == j - 1 {
        assert tl[k + 1].id == Some(i);
      }
      WithoutAt(tl[1..], i, j - 1);
      assert Texts(tl)[..j] == [tl[0].text] + Texts(tl[1..])[..j - 1];
    }
  }

  function DropLine(lines: seq<string>, at: nat): seq<string>
  {
    if at < |lines| then lines[..at] + lines[at + 1..] else lines
  }

  lemma {:induction false} DeleteOne(lines: seq<string>, line: int)
    ensures ApplyLine(lines, Delete(line, 1)) == DropLine(lines, Clamp(line - 1, |lines|))
  {
    var at := Clamp(line - 1, |lines|);
    assert Removed(Delete(line, 1), |lines|) == if at < |lines| then 1 else 0;
  }

  /** What the rebased deletion of one line does to the head. */
  lemma {:induction false} StaleDeleteActs(head: string, line: int, hops: seq<Op>)
    ensures ApplyOps(head, RebaseOps([Delete(line, 1)], hops))
            == Some(Join(DropLine(SplitLines(head), Clamp(ShiftAll(line, hops) - 1, |SplitLines(head)|))))
  {
    var op := Delete(ShiftAll(line, hops), 1);
    assert RebaseOps([Delete(line, 1)], hops) == [op];
    ApplySingle(head, op);
    DeleteOne(SplitLines(head), op.line);
  }

  lemma {:induction false} DropLineShorter(head: string, at: nat)
    requires Terminated(head) && at < |SplitLines(head)|
    ensures Join(DropLine(SplitLines(head), at)) != head
  {
    SplitTerminated(head);
    JoinSplit(head);
    JoinDropShorter(SplitLines(head), at);
  }

  /** The line labelled `i` is still there. */
  predicate Survives(tl: seq<Tagged>, i: nat)
  {
    exists j :: 0 <= j < |tl| && tl[j].id == Some(i)
  }

  lemma {:induction false} KeptDelete(tl: seq<Tagged>, i: nat, line: int)
    requires Tracks(tl, i, line) && Survives(tl, i)
    ensures DropLine(Texts(tl), Clamp(line - 1, |tl|)) == Without(tl, i)
  {
    var j :| 0 <= j < |tl| && tl[j].id == Some(i);
    WithoutAt(tl, i, j);
  }

  lemma {:induction false} GoneDelete(tl: seq<Tagged>, i: nat, head: string, at: nat)
    requires !Survives(tl, i) && Terminated(head) && SplitLines(head) == Texts(tl) && at <= |tl|
    ensures Join(DropLine(Texts(tl), at)) == Join(Without(tl, i)) <==> at == |tl|
  {
    WithoutAbsent(tl, i);
    JoinSplit(head);
    if at < |tl| {
      DropLineShorter(head, at);
    }
  }

  /** A stale deletion of one line removes that line and nothing else exactly when
      the line survives, or its rebased number lies beyond the head text. When a
      newer patch already deleted the line, the deletion takes a neighbour. */
  lemma {:induction false} StaleDeleteExact(text: string, patches: seq<seq<Op>>, head: string, i: nat)
    requires Meets(text, patches, head)
    ensures var tl := TagHistory(Label(SplitLines(text)), patches);
            ApplyOps(head, RebaseOps([Delete(i + 1, 1)], Flatten(patches))) == Some(Join(Without(tl, i)))
            <==> Survives(tl, i)
                 || Clamp(ShiftAll(i + 1, Flatten(patches)) - 1, |SplitLines(head)|) == |SplitLines(head)|
  {
    HeadLines(text, patches, head, i);
    HeadTerminated(text, patches, head);
    var tl := TagHistory(Label(SplitLines(text)), patches);
    StaleDeleteActs(head, i + 1, Flatten(patches));
    if Survives(tl, i) {
      KeptDelete(tl, i, ShiftAll(i + 1, Flatten(patches)));
    } else {
      GoneDelete(tl, i, head, Clamp(ShiftAll(i + 1, Flatten(patches)) - 1, |SplitLines(head)|));
    }
  }

  lemma {:induction false} HeadTerminated(text: string, patches: seq<seq<Op>>, head: string)
    requires Meets(text, patches, head)
    ensures Terminated(head)
  {
    TextsOfFresh(SplitLines(text));
    TagHistoryText(Label(SplitLines(text)), text, patches);
  }

  lemma {:induction false} JoinDropShorter(lines: seq<string>, at: nat)
    requires at < |lines| && lines[at] != ""
    ensures |Join(lines[..at] + lines[at + 1..])| < |Join(lines)|
  {
    JoinAppend(lines[..at], lines[at + 1..]);
    JoinAppend(lines[..at], lines[at..]);
    assert lines[..at] + lines[at..] == lines;
  }

  // ------------------------------------------- patches of several operations

  /** Insertions and deletions from the bottom of the text to the top, so that no
      operation moves the lines that the later ones address. */
  predicate BottomUp(ops: seq<Op>)
  {
    && (forall k :: 0 <= k < |ops| ==>
          (ops[k].Insert? || (ops[k].Delete? && ops[k].count >= 0)) && ops[k].line >= 1)
    && (forall j, k :: 0 <= j < k < |ops| ==> ops[j].line > ops[k].line)
  }

  lemma {:induction false} ShiftAllMonotone(a: int, b: int, hops: seq<Op>)
    requires a <= b && CountedAll(hops)
    ensures ShiftAll(a, hops) <= ShiftAll(b, hops)
    decreases hops
  {
    if hops != [] {
      assert Counted(hops[0]);
      ShiftAllMonotone(Shift(a, hops[0]), Shift(b, hops[0]), hops[1..]);
    }
  }

  /** An operation below the gap in front of line `i` leaves the gap where it is. */
  lemma {:induction false} StepBelow(tl: seq<Tagged>, op: Op, i: nat, line: int)
    requires op.Insert? || (op.Delete? && op.count >= 0)
    requires Tracks(tl, i, line) && Separates(tl, i, line) && line <= op.line
    requires forall j :: 0 <= j < |tl| && tl[j].id == Some(i) ==> j < op.line - 1
    ensures Tracks(TagLine(tl, op), i, line) && Separates(TagLine(tl, op), i, line)
    ensures forall j :: 0 <= j < |TagLine(tl, op)| && TagLine(tl, op)[j].id == Some(i) ==>
              j < |tl| && tl[j].id == Some(i)
  {
    var r := TagLine(tl, op);
    forall j | 0 <= j < |r| && r[j].id.Some?
      ensures if r[j].id.value < i then j < line - 1 else line - 1 <= j
    {
      TagLineAt(tl, op, j);
    }
    forall j | 0 <= j < |r| && r[j].id == Some(i)
      ensures j == line - 1 && j < |tl| && tl[j].id == Some(i)
    {
      TagLineAt(tl, op, j);
    }
  }

  /** Every operation of `ops` is below the gap in front of line `i`. */
  predicate AllBelow(tl: seq<Tagged>, ops: seq<Op>, i: nat, line: int)
  {
    forall k :: 0 <= k < |ops| ==>
      && (ops[k].Insert? || (ops[k].Delete? && ops[k].count >= 0))
      && line <= ops[k].line
      && forall j :: 0 <= j < |tl| && tl[j].id == Some(i) ==> j < ops[k].line - 1
  }

  lemma {:induction false} PatchBelow(tl: seq<Tagged>, ops: seq<Op>, i: nat, line: int)
    requires AllBelow(tl, ops, i, line) && Tracks(tl, i, line) && Separates(tl, i, line)
    ensures Tracks(TagPatch(tl, ops), i, line) && Separates(TagPatch(tl, ops), i, line)
    decreases ops
  {
    if ops != [] {
      StepBelow(tl, ops[0], i, line);
      assert AllBelow(TagLine(tl, ops[0]), ops[1..], i, line);
      PatchBelow(TagLine(tl, ops[0]), ops[1..], i, line);
    }
  }

  lemma {:induction false} EarlierBelow(tl: seq<Tagged>, ops: seq<Op>, hops: seq<Op>, k: nat)
    requires BottomUp(ops) && k < |ops| && CountedAll(hops)
    requires forall m :: 0 <= m < k ==> Separates(tl, ops[m].line - 1, ShiftAll(ops[m].line, hops))
    ensures AllBelow(tl, RebaseOps(ops, hops)[..k], ops[k].line - 1, ShiftAll(ops[k].line, hops))
  {
    forall m | 0 <= m < k
      ensures ShiftAll(ops[k].line, hops) <= ShiftAll(ops[m].line, hops)
    {
      ShiftAllMonotone(ops[k].line, ops[m].line, hops);
    }
  }

  /** A stale patch written from the bottom up keeps its meaning over any history:
      when its operation number `k` is applied, after the ones before it, its rebased
      line is that of the line it was addressed to, if that survives, and separates
      the surviving lines before it from those after it in any case. */
  lemma {:induction false} BottomUpLands(text: string, patches: seq<seq<Op>>, head: string, ops: seq<Op>, k: nat)
    requires Meets(text, patches, head) && BottomUp(ops) && k < |ops|
    ensures var rebased := RebaseOps(ops, Flatten(patches));
            var tl := TagPatch(TagHistory(Label(SplitLines(text)), patches), rebased[..k]);
            Tracks(tl, ops[k].line - 1, rebased[k].line) && Separates(tl, ops[k].line - 1, rebased[k].line)
  {
    var hops := Flatten(patches);
    var tl := TagHistory(Label(SplitLines(text)), patches);
    var i, line := ops[k].line - 1, ShiftAll(ops[k].line, hops);
    HeadLines(text, patches, head, i);
    forall m | 0 <= m < k
      ensures Separates(tl, ops[m].line - 1, ShiftAll(ops[m].line, hops))
    {
      HeadLines(text, patches, head, ops[m].line - 1);
    }
    EarlierBelow(tl, ops, hops, k);
    PatchBelow(tl, RebaseOps(ops, hops)[..k], i, line);
  }

  /** A patch written from the top down may not: its second operation was addressed
      to the text after its first, but is shifted as if it were not. Here the client
      replaces the first line of `a b` by `x`, which works on that text; but when
      another client has put `n` between the lines, the rebased patch deletes `n` and
      leaves `a`. */
  lemma {:induction false} TopDownMisses(a: string, b: string, n: string, x: string)
    requires InsertedLines(n) == [n] && InsertedLines(x) == [x]
    ensures ApplyToLines([a, b], [Insert(1, x), Delete(2, 1)]) == Some(Join([x, b]))
    ensures ApplyToLines([a, n, b], RebaseOps([Insert(1, x), Delete(2, 1)], [Insert(2, n)]))
            == Some(Join([x, a, b]))
  {
    TopDownFresh(a, b, x);
    TopDownRebased(n, x);
    TopDownStale(a, b, n, x);
  }

  lemma {:induction false} TopDownFresh(a: string, b: string, x: string)
    requires InsertedLines(x) == [x]
    ensures ApplyToLines([a, b], [Insert(1, x), Delete(2, 1)]) == Some(Join([x, b]))
  {
    assert ApplyLine([a, b], Insert(1, x)) == [x, a, b];
    assert ApplyLine([x, a, b], Delete(2, 1)) == [x, b];
    ApplyTwo([a, b], Insert(1, x), Delete(2, 1));
  }

  lemma {:induction false} TopDownRebased(n: string, x: string)
    requires InsertedLines(n) == [n]
    ensures RebaseOps([Insert(1, x), Delete(2, 1)], [Insert(2, n)]) == [Insert(1, x), Delete(3, 1)]
  {
    CountOne(n);
    RebaseOne(Insert(1, x), Insert(2, n));
    RebaseOne(Delete(2, 1), Insert(2, n));
  }

  lemma {:induction false} TopDownStale(a: string, b: string, n: string, x: string)
    requires InsertedLines(x) == [x]
    ensures ApplyToLines([a, n, b], [Insert(1, x), Delete(3, 1)]) == Some(Join([x, a, b]))
  {
    assert ApplyLine([a, n, b], Insert(1, x)) == [x, a, n, b];
    assert ApplyLine([x, a, n, b], Delete(3, 1)) == [x, a, b];
    ApplyTwo([a, n, b], Insert(1, x), Delete(3, 1));
  }

  lemma {:induction false} CountOne(n: string)
    requires InsertedLines(n) == [n]
    ensures CountOf(Insert(2, n)) == 1
  {
    assert n == "" ==> InsertedLines(n) == [];
    CountIsLength(n);
  }

  lemma {:induction false} ApplyTwo(lines: seq<string>, a: Op, b: Op)
    requires (a.Insert? || a.Delete?) && (b.Insert? || b.Delete?)
    ensures ApplyToLines(lines, [a, b]) == Some(Join(ApplyLine(ApplyLine(lines, a), b)))
  {
    var one := ApplyLine(lines, a);
    assert [a, b][1..] == [b] && [b][1..] == [];
    assert ApplyToLines(one, [b]) == ApplyToLines(ApplyLine(one, b), []);
  }
}
