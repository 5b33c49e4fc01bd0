/** Filling in the line ranges of bare hunk headers. */
module Hunks {
  import opened Text

  /** A line of the rewritten diff: as it was, or a header with its ranges. */
  datatype Out = Raw(text: string) | Header(oldStart: int, oldLen: nat, newStart: int, newLen: nat)

  // --------------------------------------------------------------------- diff lines

  predicate IsDigit(c: char)
  {
    '0' <= c <= '9'
  }

  /** `line.startswith("@@")`. */
  predicate IsHeader(line: string)
  {
    |line| >= 2 && line[0] == '@' && line[1] == '@'
  }

  /** A hunk header without ranges. */
  predicate Bare(line: string)
  {
    IsHeader(line) && !(|line| >= 5 && line[2] == ' ' && line[3] == '-' && IsDigit(line[4]))
  }

  /** Three times `c` and a space: the file lines of a diff. */
  predicate Triple(line: string, c: char)
  {
    |line| >= 4 && line[0] == c && line[1] == c && line[2] == c && line[3] == ' '
  }

  predicate NamesFile(line: string)
  {
    Triple(line, '+')
  }

  /** Lines that end a hunk's body. */
  predicate EndsBody(line: string)
  {
    IsHeader(line) || Triple(line, '-') || Triple(line, '+')
    || (|line| >= 5 && line[0] == 'd' && line[1] == 'i' && line[2] == 'f' && line[3] == 'f' && line[4] == ' ')
  }

  /** An empty line of context. */
  predicate Blank(line: string)
  {
    |line| == 1 && line[0] == ' '
  }

  predicate OnOldSide(line: string)
  {
    line != "" && (line[0] == ' ' || line[0] == '-')
  }

  predicate OnNewSide(line: string)
  {
    line != "" && (line[0] == ' ' || line[0] == '+')
  }

  /** The lines a hunk takes away or keeps. */
  function OldSide(body: seq<string>): seq<string>
  {
    if body == [] then []
    else (if OnOldSide(body[0]) then [body[0][1..]] else []) + OldSide(body[1..])
  }

  /** The lines a hunk keeps or puts in. */
  function NewSide(body: seq<string>): seq<string>
  {
    if body == [] then []
    else (if OnNewSide(body[0]) then [body[0][1..]] else []) + NewSide(body[1..])
  }

  function PathOf(line: string): string
    requires NamesFile(line)
  {
    var path := RStrip(LStrip(line[4..]));
    AfterSlash(path, path)
  }

  /** What follows the first slash, or all of `whole` if there is none. */
  function AfterSlash(path: string, whole: string): string
  {
    if path == "" then whole else if path[0] == '/' then path[1..] else AfterSlash(path[1..], whole)
  }

  /** How many lines belong to a hunk's body. */
  function BodyLength(rest: seq<string>): (n: nat)
    ensures n <= |rest|
  {
    if rest == [] || EndsBody(rest[0]) then 0 else 1 + BodyLength(rest[1..])
  }

  /** The lines of a body; an empty one is an empty context line. */
  function Padded(lines: seq<string>): (padded: seq<string>)
    ensures |padded| == |lines|
  {
    if lines == [] then [] else [if lines[0] == "" then " " else lines[0]] + Padded(lines[1..])
  }

  function WithoutBlanks(body: seq<string>): seq<string>
  {
    if body != [] && Blank(body[|body| - 1]) then WithoutBlanks(body[..|body| - 1]) else body
  }

  /** The body of the hunk that `rest` follows the header of. */
  function BodyOf(rest: seq<string>): seq<string>
  {
    var body := Padded(rest[..BodyLength(rest)]);
    if BodyLength(rest) == |rest| then WithoutBlanks(body) else body
  }

  // ------------------------------------------------------------------------ placing

  predicate MatchesAt(file: seq<string>, was: seq<string>, k: nat)
  {
    k + |was| <= |file| && file[k..k + |was|] == was
  }

  /** The first place at or after `from` where the old side is found. */
  function FindFrom(file: seq<string>, was: seq<string>, from: nat): (k: Option<nat>)
    ensures k.Some? ==> from <= k.value && MatchesAt(file, was, k.value)
    decreases if from <= |file| then |file| - from + 1 else 0
  {
    if from + |was| > |file| then None
    else if file[from..from + |was|] == was then Some(from)
    else FindFrom(file, was, from + 1)
  }

  /** What the loop carries from line to line. */
  datatype Carry = Carry(file: seq<string>, searchFrom: nat, delta: int)

  function Raws(lines: seq<string>): (raws: seq<Out>)
    ensures |raws| == |lines|
  {
    if lines == [] then [] else Raws(lines[..|lines| - 1]) + [Raw(lines[|lines| - 1])]
  }

  /** The header for a bare hunk, if it gets one, and what is carried on. */
  function HeaderFor(body: seq<string>, c: Carry): (Option<Out>, Carry)
  {
    var was, news := OldSide(body), |NewSide(body)|;
    if was == [] then
      (Some(Header(0, 0, 1 + c.delta, news)), c.(delta := c.delta + news))
    else
      var at := FindFrom(c.file, was, c.searchFrom);
      if at.None? then (None, c)
      else
        (Some(Header(at.value + 1, |was|, at.value + 1 + c.delta, news)),
         c.(searchFrom := at.value + |was|, delta := c.delta + news - |was|))
  }

  /** What one turn of the loop writes, how many lines it uses, and what it carries. */
  datatype Turn = Turn(written: seq<Out>, used: nat, c: Carry)

  /** The turn at `line`, where `body`, read from `n` lines, would be its hunk's. */
  function TurnOn(line: string, body: seq<string>, n: nat, files: map<string, seq<string>>, c: Carry): (t: Turn)
    ensures 0 < t.used <= n + 1
  {
    if NamesFile(line) then
      var path := PathOf(line);
      Turn([Raw(line)], 1, Carry(if path in files then files[path] else [], 0, 0))
    else if !Bare(line) then Turn([Raw(line)], 1, c)
    else
      var (header, next) := HeaderFor(body, c);
      if header.None? then Turn([Raw(line)], 1, c) else Turn([header.value] + Raws(body), n + 1, next)
  }

  function TurnAt(rest: seq<string>, files: map<string, seq<string>>, c: Carry): (t: Turn)
    requires rest != []
    ensures 0 < t.used <= |rest|
  {
    TurnOn(rest[0], BodyOf(rest[1..]), BodyLength(rest[1..]), files, c)
  }

  function Normalized(rest: seq<string>, files: map<string, seq<string>>, c: Carry): seq<Out>
  {
    if rest == [] then []
    else
      var t := TurnAt(rest, files, c);
      t.written + Normalized(rest[t.used..], files, t.c)
  }

  // ------------------------------------------------------------------ implementation

  lemma {:induction false} PaddedMore(lines: seq<string>, line: string)
    ensures Padded(lines + [line]) == Padded(lines) + [if line == "" then " " else line]
  {
    if lines == [] {
      assert lines + [line] == [line];
    } else {
      assert (lines + [line])[1..] == lines[1..] + [line];
      PaddedMore(lines[1..], line);
    }
  }

  method ReadBody(lines: seq<string>, start: nat) returns (body: seq<string>, j: nat)
    requires start <= |lines|
    ensures j == start + BodyLength(lines[start..]) && body == BodyOf(lines[start..])
  {
    body, j := [], start;
    ghost var n := BodyLength(lines[start..]);
    while j < |lines| && !EndsBody(lines[j])
      invariant start <= j <= |lines| && j + BodyLength(lines[j..]) == start + n
      invariant body == Padded(lines[start..j])
    {
      assert lines[j..][1..] == lines[j + 1..];
      assert lines[start..j + 1] == lines[start..j] + [lines[j]];
      PaddedMore(lines[start..j], lines[j]);
      body := body + [if lines[j] == "" then " " else lines[j]];
      j := j + 1;
    }
    assert j == start + n;
    assert lines[start..][..n] == lines[start..j];
    if j == |lines| {
      body := DropBlanks(body);
    }
  }

  method DropBlanks(whole: seq<string>) returns (body: seq<string>)
    ensures body == WithoutBlanks(whole)
  {
    body := whole;
    while body != [] && Blank(body[|body| - 1])
      invariant WithoutBlanks(body) == WithoutBlanks(whole)
    {
      body := body[..|body| - 1];
    }
  }

  method Locate(file: seq<string>, was: seq<string>, searchFrom: nat) returns (at: Option<nat>)
    ensures at == FindFrom(file, was, searchFrom)
  {
    var k := searchFrom;
    while k + |was| <= |file|
      invariant searchFrom <= k
      invariant FindFrom(file, was, k) == FindFrom(file, was, searchFrom)
      decreases if k <= |file| then |file| - k + 1 else 0
    {
      if file[k..k + |was|] == was { return Some(k); }
      k := k + 1;
    }
    at := None;
  }

  lemma {:induction false} NextTurn(rest: seq<string>, files: map<string, seq<string>>, c: Carry, t: Turn)
    requires rest != [] && t == TurnAt(rest, files, c)
    ensures Normalized(rest, files, c) == t.written + Normalized(rest[t.used..], files, t.c)
  {
  }

  lemma {:induction false} Regroup(out: seq<Out>, written: seq<Out>, more: seq<Out>)
    ensures (out + written) + more == out + (written + more)
  {
  }

  /** `_normalize_hunk_headers`, line by line. */
  method NormalizeHunkHeaders(lines: seq<string>, files: map<string, seq<string>>) returns (out: seq<Out>)
    ensures out == Normalized(lines, files, Carry([], 0, 0))
  {
    out := [];
    var i, c := 0, Carry([], 0, 0);
    ghost var rest, todo := lines, Normalized(lines, files, c);
    ghost var all := todo;
    while i < |lines|
      invariant i <= |lines| && rest == lines[i..]
      invariant todo == Normalized(rest, files, c)
      invariant out + todo == all
      decreases |lines| - i
    {
      var written;
      ghost var last := out;
      written, i, c, rest, todo := OneTurn(lines, files, i, c, rest, todo);
      Regroup(last, written, todo);
      out := out + written;
    }
  }

  lemma {:induction false} Remaining(lines: seq<string>, i: nat, rest: seq<string>, n: nat)
    requires i <= |lines| && rest == lines[i..] && n <= |rest|
    ensures rest[n..] == lines[i + n..] && i + n <= |lines|
  {
  }

  method OneTurn(lines: seq<string>, files: map<string, seq<string>>, i: nat, c: Carry, ghost rest: seq<string>,
                 ghost todo: seq<Out>)
      returns (written: seq<Out>, j: nat, next: Carry, ghost rest': seq<string>, ghost todo': seq<Out>)
    requires i < |lines| && rest == lines[i..] && todo == Normalized(rest, files, c)
    ensures i < j <= |lines| && rest' == lines[j..] && todo' == Normalized(rest', files, next)
    ensures todo == written + todo'
  {
    ghost var t := TurnAt(rest, files, c);
    rest' := rest[t.used..];
    todo' := Normalized(rest', files, t.c);
    NextTurn(rest, files, c, t);
    Remaining(lines, i, rest, t.used);
    written, j, next := MakeTurn(lines, files, i, c, rest);
  }

  method MakeTurn(lines: seq<string>, files: map<string, seq<string>>, i: nat, c: Carry, ghost rest: seq<string>)
      returns (written: seq<Out>, j: nat, next: Carry)
    requires i < |lines| && rest == lines[i..]
    ensures j > i && Turn(written, j - i, next) == TurnAt(rest, files, c)
  {
    var line := lines[i];
    assert rest[0] == line && rest[1..] == lines[i + 1..];
    if NamesFile(line) {
      var path := PathOf(line);
      return [Raw(line)], i + 1, Carry(if path in files then files[path] else [], 0, 0);
    }
    if Bare(line) {
      var body, e := ReadBody(lines, i + 1);
      var header, after := MakeHeader(body, c);
      if header.Some? {
        return [header.value] + Raws(body), e, after;
      }
    }
    return [Raw(line)], i + 1, c;
  }

  method MakeHeader(body: seq<string>, c: Carry) returns (header: Option<Out>, next: Carry)
    ensures (header, next) == HeaderFor(body, c)
  {
    var was, news := OldSide(body), |NewSide(body)|;
    if was == [] {
      return Some(Header(0, 0, 1 + c.delta, news)), c.(delta := c.delta + news);
    }
    var at := Locate(c.file, was, c.searchFrom);
    if at.None? { return None, c; }
    header := Some(Header(at.value + 1, |was|, at.value + 1 + c.delta, news));
    next := c.(searchFrom := at.value + |was|, delta := c.delta + news - |was|);
  }

  // ------------------------------------------------------------- greedy is complete

  /** Leftmost first: where each of the old sides goes. */
  function Greedy(file: seq<string>, olds: seq<seq<string>>, from: nat): (ps: seq<Option<nat>>)
    ensures |ps| == |olds|
  {
    if olds == [] then []
    else
      var at := FindFrom(file, olds[0], from);
      [at] + Greedy(file, olds[1..], if at.Some? then at.value + |olds[0]| else from)
  }

  predicate AllPlaced(ps: seq<Option<nat>>)
  {
    forall k :: 0 <= k < |ps| ==> ps[k].Some?
  }

  /** Places in order and without overlap, each where its old side is. */
  predicate Fits(file: seq<string>, olds: seq<seq<string>>, ps: seq<nat>, from: nat)
    requires |ps| == |olds|
  {
    olds == [] || (from <= ps[0] && MatchesAt(file, olds[0], ps[0])
                   && Fits(file, olds[1..], ps[1..], ps[0] + |olds[0]|))
  }

  ghost predicate Placeable(file: seq<string>, olds: seq<seq<string>>, from: nat)
  {
    exists ps: seq<nat> :: |ps| == |olds| && Fits(file, olds, ps, from)
  }

  /** No earlier place is missed. */
  lemma {:induction false} FindLeftmost(file: seq<string>, was: seq<string>, from: nat, k: nat)
    requires from <= k && MatchesAt(file, was, k)
    ensures FindFrom(file, was, from).Some? && FindFrom(file, was, from).value <= k
    decreases k - from
  {
    if from < k && file[from..from + |was|] != was {
      FindLeftmost(file, was, from + 1, k);
    }
  }

  lemma {:induction false} FitsEarlier(file: seq<string>, olds: seq<seq<string>>, ps: seq<nat>, from: nat, earlier: nat)
    requires |ps| == |olds| && Fits(file, olds, ps, from) && earlier <= from
    ensures Fits(file, olds, ps, earlier)
  {
  }

  lemma {:induction false} GreedyStaysAhead(file: seq<string>, olds: seq<seq<string>>, ps: seq<nat>, from: nat)
    requires |ps| == |olds| && Fits(file, olds, ps, from)
    ensures AllPlaced(Greedy(file, olds, from))
    ensures forall k :: 0 <= k < |ps| ==> Greedy(file, olds, from)[k].value <= ps[k]
  {
    if olds != [] {
      FindLeftmost(file, olds[0], from, ps[0]);
      var at := FindFrom(file, olds[0], from).value;
      FitsEarlier(file, olds[1..], ps[1..], ps[0] + |olds[0]|, at + |olds[0]|);
      GreedyStaysAhead(file, olds[1..], ps[1..], at + |olds[0]|);
    }
  }

  function Places(ps: seq<Option<nat>>): (places: seq<nat>)
    requires AllPlaced(ps)
    ensures |places| == |ps| && forall k :: 0 <= k < |ps| ==> places[k] == ps[k].value
  {
    seq(|ps|, k requires 0 <= k < |ps| => ps[k].value)
  }

  lemma {:induction false} GreedyFits(file: seq<string>, olds: seq<seq<string>>, from: nat)
    requires AllPlaced(Greedy(file, olds, from))
    ensures Fits(file, olds, Places(Greedy(file, olds, from)), from)
  {
    if olds != [] {
      var ps := Greedy(file, olds, from);
      var rest := Greedy(file, olds[1..], ps[0].value + |olds[0]|);
      assert ps[1..] == rest;
      assert AllPlaced(rest) by { assert forall k :: 0 <= k < |rest| ==> rest[k] == ps[k + 1]; }
      assert Places(ps)[1..] == Places(rest);
      GreedyFits(file, olds[1..], ps[0].value + |olds[0]|);
    }
  }

  /** Leftmost-first places every hunk exactly when the hunks can be placed at all. */
  lemma {:induction false} GreedyComplete(file: seq<string>, olds: seq<seq<string>>, from: nat)
    ensures AllPlaced(Greedy(file, olds, from)) <==> Placeable(file, olds, from)
  {
    if AllPlaced(Greedy(file, olds, from)) {
      GreedyFits(file, olds, from);
    }
    if Placeable(file, olds, from) {
      var ps: seq<nat> :| |ps| == |olds| && Fits(file, olds, ps, from);
      GreedyStaysAhead(file, olds, ps, from);
    }
  }
}
