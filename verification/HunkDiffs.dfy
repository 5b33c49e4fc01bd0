/** What the header loop makes of whole diffs. */
module HunkDiffs {
  import opened Text
  import opened Hunks
  import opened HunkRanges

  /** A bare hunk: its header, its lines in the diff, and the body that is read. */
  datatype Hunk = Hunk(header: string, raw: seq<string>, body: seq<string>)

  /** Nothing is left, or what is left starts a hunk or a file. */
  predicate Boundary(rest: seq<string>)
  {
    rest == [] || EndsBody(rest[0])
  }

  predicate NoEnds(raw: seq<string>)
  {
    raw == [] || (!EndsBody(raw[0]) && NoEnds(raw[1..]))
  }

  /** The body that lines are read as: empty ones are context, and blank ones at the
      end of the diff are not there. */
  function Seen(raw: seq<string>, rest: seq<string>): seq<string>
  {
    if rest == [] then WithoutBlanks(Padded(raw)) else Padded(raw)
  }

  /** A bare hunk with an old side. */
  predicate Clean(h: Hunk)
  {
    Bare(h.header) && OldSide(h.body) != [] && NoEnds(h.raw)
  }

  function Olds(hunks: seq<Hunk>): (olds: seq<seq<string>>)
    ensures |olds| == |hunks|
  {
    seq(|hunks|, k requires 0 <= k < |hunks| => OldSide(hunks[k].body))
  }

  function Lines(hunks: seq<Hunk>): seq<string>
  {
    if hunks == [] then [] else [hunks[0].header] + (hunks[0].raw + Lines(hunks[1..]))
  }

  /** Clean hunks, with the bodies that are read when `post` follows. */
  predicate AllClean(hunks: seq<Hunk>, post: seq<string>)
  {
    hunks == [] || (Clean(hunks[0]) && hunks[0].body == Seen(hunks[0].raw, Lines(hunks[1..]) + post)
                    && AllClean(hunks[1..], post))
  }

  /** The hunks at the places found for them. */
  function Settled(hunks: seq<Hunk>, places: seq<nat>): (hs: seq<Placed>)
    requires |places| == |hunks|
    ensures |hs| == |hunks|
  {
    seq(|hunks|, k requires 0 <= k < |hunks| => Placed(places[k], OldSide(hunks[k].body), NewSide(hunks[k].body)))
  }

  /** The hunks as they are written, each under its ranges. */
  function Written(hunks: seq<Hunk>, hs: seq<Placed>, delta: int): seq<Out>
    requires |hs| == |hunks|
  {
    if hunks == [] then []
    else [RangesOf(hs[0], delta)] + Raws(hunks[0].body)
         + Written(hunks[1..], hs[1..], delta + |hs[0].news| - |hs[0].was|)
  }

  // -------------------------------------------------------------------- one hunk

  lemma {:induction false} BodyMeasured(raw: seq<string>, rest: seq<string>)
    requires NoEnds(raw) && Boundary(rest)
    ensures BodyLength(raw + rest) == |raw|
  {
    if raw == [] {
      assert raw + rest == rest;
    } else {
      assert (raw + rest)[1..] == raw[1..] + rest;
      BodyMeasured(raw[1..], rest);
    }
  }

  lemma {:induction false} BodyReads(raw: seq<string>, rest: seq<string>)
    requires NoEnds(raw) && Boundary(rest)
    ensures BodyLength(raw + rest) == |raw| && BodyOf(raw + rest) == Seen(raw, rest)
  {
    BodyMeasured(raw, rest);
    assert (raw + rest)[..|raw|] == raw;
  }

  /** What is carried past a hunk in its place. */
  function Past(c: Carry, p: Placed): Carry
  {
    c.(searchFrom := p.at + |p.was|, delta := c.delta + |p.news| - |p.was|)
  }

  lemma {:induction false} HeaderReads(h: Hunk, c: Carry, p: Placed)
    requires Clean(h) && p == Placed(p.at, OldSide(h.body), NewSide(h.body))
    requires FindFrom(c.file, OldSide(h.body), c.searchFrom) == Some(p.at)
    ensures HeaderFor(h.body, c) == (Some(RangesOf(p, c.delta)), Past(c, p))
  {
  }

  /** A bare header neither names a file nor belongs to a body. */
  lemma {:induction false} BareIsNoName(line: string)
    requires Bare(line)
    ensures !NamesFile(line) && EndsBody(line)
  {
  }

  /** The turn at a clean hunk for which there is a place. */
  lemma {:induction false} TurnReads(h: Hunk, rest: seq<string>, files: map<string, seq<string>>, c: Carry, p: Placed)
    requires Clean(h) && p == Placed(p.at, OldSide(h.body), NewSide(h.body))
    requires FindFrom(c.file, OldSide(h.body), c.searchFrom) == Some(p.at)
    requires Boundary(rest) && h.body == Seen(h.raw, rest)
    ensures TurnAt([h.header] + (h.raw + rest), files, c)
            == Turn([RangesOf(p, c.delta)] + Raws(h.body), |h.raw| + 1, Past(c, p))
  {
    BodyReads(h.raw, rest);
    HeaderReads(h, c, p);
    BareIsNoName(h.header);
    assert ([h.header] + (h.raw + rest))[1..] == h.raw + rest;
  }

  /** What follows a hunk starts a hunk or a file, if anything follows. */
  lemma {:induction false} NextLine(hunks: seq<Hunk>, post: seq<string>)
    requires AllClean(hunks, post) && Boundary(post)
    ensures Boundary(Lines(hunks) + post)
  {
    if hunks == [] {
      assert Lines(hunks) + post == post;
    } else {
      BareIsNoName(hunks[0].header);
      assert (Lines(hunks) + post)[0] == hunks[0].header;
    }
  }

  // ---------------------------------------------------------------- where they go

  lemma {:induction false} PlacesTail(file: seq<string>, olds: seq<seq<string>>, from: nat)
    requires AllPlaced(Greedy(file, olds, from)) && olds != []
    ensures FindFrom(file, olds[0], from) == Some(Places(Greedy(file, olds, from))[0])
    ensures var after := Places(Greedy(file, olds, from))[0] + |olds[0]|;
            && AllPlaced(Greedy(file, olds[1..], after))
            && Places(Greedy(file, olds[1..], after)) == Places(Greedy(file, olds, from))[1..]
  {
    var ps := Greedy(file, olds, from);
    assert ps[0].Some?;
    var rest := Greedy(file, olds[1..], ps[0].value + |olds[0]|);
    assert ps[1..] == rest;
    assert AllPlaced(rest) by { assert forall k :: 0 <= k < |rest| ==> rest[k] == ps[k + 1]; }
  }

  lemma {:induction false} SettledTail(hunks: seq<Hunk>, places: seq<nat>)
    requires |places| == |hunks| && hunks != []
    ensures Settled(hunks, places)[0] == Placed(places[0], OldSide(hunks[0].body), NewSide(hunks[0].body))
    ensures Settled(hunks, places)[1..] == Settled(hunks[1..], places[1..])
    ensures Olds(hunks)[0] == OldSide(hunks[0].body) && Olds(hunks)[1..] == Olds(hunks[1..])
  {
  }

  /** Each hunk with its sides, at the first place for it after the one before. */
  predicate Found(file: seq<string>, hunks: seq<Hunk>, hs: seq<Placed>, from: nat)
    requires |hs| == |hunks|
  {
    hunks == [] || (hs[0].was == OldSide(hunks[0].body) && hs[0].news == NewSide(hunks[0].body)
                    && FindFrom(file, hs[0].was, from) == Some(hs[0].at)
                    && Found(file, hunks[1..], hs[1..], hs[0].at + |hs[0].was|))
  }

  lemma {:induction false} GreedyFinds(file: seq<string>, hunks: seq<Hunk>, from: nat)
    requires AllPlaced(Greedy(file, Olds(hunks), from))
    ensures Found(file, hunks, Settled(hunks, Places(Greedy(file, Olds(hunks), from))), from)
    decreases |hunks|
  {
    if hunks != [] {
      var places := Places(Greedy(file, Olds(hunks), from));
      PlacesTail(file, Olds(hunks), from);
      SettledTail(hunks, places);
      GreedyFinds(file, hunks[1..], places[0] + |OldSide(hunks[0].body)|);
    }
  }

  lemma {:induction false} FoundInPlace(file: seq<string>, hunks: seq<Hunk>, hs: seq<Placed>, from: nat)
    requires |hs| == |hunks| && Found(file, hunks, hs, from)
    ensures InPlace(file, hs, from)
    decreases |hunks|
  {
    if hunks != [] {
      FoundInPlace(file, hunks[1..], hs[1..], hs[0].at + |hs[0].was|);
    }
  }

  lemma {:induction false} FoundFirst(file: seq<string>, hunks: seq<Hunk>, hs: seq<Placed>, from: nat, p: Placed)
    requires |hs| == |hunks| && Found(file, hunks, hs, from) && hunks != [] && p == hs[0]
    ensures p == Placed(p.at, OldSide(hunks[0].body), NewSide(hunks[0].body))
    ensures FindFrom(file, p.was, from) == Some(p.at)
    ensures Found(file, hunks[1..], hs[1..], p.at + |p.was|)
  {
  }

  // ---------------------------------------------------------------- a run of hunks

  /** What is carried past hunks in their places. */
  function End(c: Carry, hs: seq<Placed>): Carry
    decreases |hs|
  {
    if hs == [] then c else End(Past(c, hs[0]), hs[1..])
  }

  lemma {:induction false} AfterFirst(h: Hunk, rest: seq<string>)
    ensures ([h.header] + (h.raw + rest))[|h.raw| + 1..] == rest
  {
  }

  /** The first hunk is written under its ranges, and the rest as it comes. */
  lemma {:induction false} WritesFirst(h: Hunk, files: map<string, seq<string>>, c: Carry, p: Placed, next: Carry,
                                       rest: seq<string>, tail: seq<Out>)
    requires Clean(h) && p == Placed(p.at, OldSide(h.body), NewSide(h.body))
    requires FindFrom(c.file, p.was, c.searchFrom) == Some(p.at) && next == Past(c, p)
    requires Boundary(rest) && h.body == Seen(h.raw, rest) && tail == Normalized(rest, files, next)
    ensures Normalized([h.header] + (h.raw + rest), files, c) == [RangesOf(p, c.delta)] + Raws(h.body) + tail
  {
    TurnReads(h, rest, files, c, p);
    AfterFirst(h, rest);
    NextTurn([h.header] + (h.raw + rest), files, c,
             Turn([RangesOf(p, c.delta)] + Raws(h.body), |h.raw| + 1, next));
  }

  lemma {:induction false} CleanTail(hunks: seq<Hunk>, post: seq<string>)
    requires AllClean(hunks, post) && hunks != []
    ensures AllClean(hunks[1..], post) && Clean(hunks[0])
    ensures hunks[0].body == Seen(hunks[0].raw, Lines(hunks[1..]) + post)
  {
  }

  lemma {:induction false} LinesFirst(hunks: seq<Hunk>, post: seq<string>, h: Hunk)
    requires hunks != [] && h == hunks[0]
    ensures Lines(hunks) + post == [h.header] + (h.raw + (Lines(hunks[1..]) + post))
  {
  }

  lemma {:induction false} WrittenIs(hunks: seq<Hunk>, hs: seq<Placed>, delta: int, p: Placed, next: int,
                                     tail: seq<Out>)
    requires |hs| == |hunks| && hunks != [] && p == hs[0] && next == delta + |p.news| - |p.was|
    requires tail == Written(hunks[1..], hs[1..], next)
    ensures Written(hunks, hs, delta) == [RangesOf(p, delta)] + Raws(hunks[0].body) + tail
  {
  }

  lemma {:induction false} Joins(first: seq<Out>, mid: seq<Out>, last: seq<Out>)
    ensures first + (mid + last) == (first + mid) + last
  {
  }

  lemma {:induction false} WritesOne(hunks: seq<Hunk>, files: map<string, seq<string>>, c: Carry, hs: seq<Placed>,
                                     post: seq<string>, p: Placed, next: Carry, tail: seq<Out>, more: seq<Out>)
    requires AllClean(hunks, post) && Boundary(post) && |hs| == |hunks| && hunks != [] && p == hs[0]
    requires Found(c.file, hunks, hs, c.searchFrom) && next == Past(c, p)
    requires tail == Written(hunks[1..], hs[1..], next.delta)
    requires Normalized(Lines(hunks[1..]) + post, files, next) == tail + more
    ensures Normalized(Lines(hunks) + post, files, c) == Written(hunks, hs, c.delta) + more
  {
    var h := hunks[0];
    FoundFirst(c.file, hunks, hs, c.searchFrom, p);
    CleanTail(hunks, post);
    NextLine(hunks[1..], post);
    WritesFirst(h, files, c, p, next, Lines(hunks[1..]) + post, tail + more);
    LinesFirst(hunks, post, h);
    WrittenIs(hunks, hs, c.delta, p, next.delta, tail);
    Joins([RangesOf(p, c.delta)] + Raws(h.body), tail, more);
  }

  /** Hunks ready to be written: clean, and each found at its place. */
  ghost predicate Ready(hunks: seq<Hunk>, c: Carry, hs: seq<Placed>, post: seq<string>)
  {
    && AllClean(hunks, post) && Boundary(post)
    && |hs| == |hunks| && Found(c.file, hunks, hs, c.searchFrom)
  }

  lemma {:induction false} FoundTail(hunks: seq<Hunk>, c: Carry, hs: seq<Placed>, p: Placed, next: Carry)
    requires |hs| == |hunks| && hunks != [] && p == hs[0] && next == Past(c, p)
    requires Found(c.file, hunks, hs, c.searchFrom)
    ensures Found(next.file, hunks[1..], hs[1..], next.searchFrom)
  {
    FoundFirst(c.file, hunks, hs, c.searchFrom, p);
  }

  lemma {:induction false} ReadyTail(hunks: seq<Hunk>, c: Carry, hs: seq<Placed>, post: seq<string>, next: Carry,
                                     hunks': seq<Hunk>, hs': seq<Placed>)
    requires Ready(hunks, c, hs, post) && hunks != [] && next == Past(c, hs[0])
    requires hunks' == hunks[1..] && hs' == hs[1..]
    ensures Ready(hunks', next, hs', post)
  {
    FoundTail(hunks, c, hs, hs[0], next);
    CleanTail(hunks, post);
  }

  lemma {:induction false} EndIs(c: Carry, hs: seq<Placed>, next: Carry)
    requires hs != [] && next == Past(c, hs[0])
    ensures End(c, hs) == End(next, hs[1..])
  {
  }

  /** The loop writes the ranges of the places it finds, and goes on behind them. */
  lemma {:induction false} WritesRanges(hunks: seq<Hunk>, files: map<string, seq<string>>, c: Carry, hs: seq<Placed>,
                                        post: seq<string>, end: Carry, more: seq<Out>)
    requires Ready(hunks, c, hs, post)
    requires end == End(c, hs) && more == Normalized(post, files, end)
    ensures Normalized(Lines(hunks) + post, files, c) == Written(hunks, hs, c.delta) + more
    decreases |hunks|
  {
    if hunks == [] {
      assert Lines(hunks) + post == post;
    } else {
      var next := Past(c, hs[0]);
      var hunks', hs' := hunks[1..], hs[1..];
      ReadyTail(hunks, c, hs, post, next, hunks', hs');
      EndIs(c, hs, next);
      WritesRanges(hunks', files, next, hs', post, end, more);
      WritesOne(hunks, files, c, hs, post, hs[0], next, Written(hunks', hs', next.delta), more);
    }
  }

  // ------------------------------------------------------------------ whatever is before

  /** The turn at the start of `pre` when more of the diff follows `pre`. */
  function TurnWithin(pre: seq<string>, files: map<string, seq<string>>, c: Carry): (t: Turn)
    requires pre != []
    ensures 0 < t.used <= |pre|
  {
    TurnOn(pre[0], Padded(pre[1..][..BodyLength(pre[1..])]), BodyLength(pre[1..]), files, c)
  }

  /** What the loop writes over `pre` when more of the diff follows. */
  function PassedOut(pre: seq<string>, files: map<string, seq<string>>, c: Carry): seq<Out>
  {
    if pre == [] then []
    else
      var t := TurnWithin(pre, files, c);
      t.written + PassedOut(pre[t.used..], files, t.c)
  }

  /** And what it carries behind it. */
  function PassedCarry(pre: seq<string>, files: map<string, seq<string>>, c: Carry): Carry
  {
    if pre == [] then c
    else
      var t := TurnWithin(pre, files, c);
      PassedCarry(pre[t.used..], files, t.c)
  }

  lemma {:induction false} LengthWithin(raw: seq<string>, rest: seq<string>)
    requires rest != [] && EndsBody(rest[0])
    ensures BodyLength(raw + rest) == BodyLength(raw)
  {
    if raw == [] {
      assert raw + rest == rest;
    } else if !EndsBody(raw[0]) {
      assert (raw + rest)[1..] == raw[1..] + rest;
      LengthWithin(raw[1..], rest);
    }
  }

  lemma {:induction false} TurnsWithin(pre: seq<string>, rest: seq<string>, files: map<string, seq<string>>, c: Carry)
    requires pre != [] && rest != [] && EndsBody(rest[0])
    ensures TurnAt(pre + rest, files, c) == TurnWithin(pre, files, c)
  {
    var raw := pre[1..];
    assert (pre + rest)[1..] == raw + rest && (pre + rest)[0] == pre[0];
    LengthWithin(raw, rest);
    assert (raw + rest)[..BodyLength(raw)] == raw[..BodyLength(raw)];
  }

  lemma {:induction false} CutWithin(pre: seq<string>, rest: seq<string>, n: nat)
    requires n <= |pre|
    ensures (pre + rest)[n..] == pre[n..] + rest
  {
  }

  lemma {:induction false} PassesFirst(pre: seq<string>, rest: seq<string>, files: map<string, seq<string>>,
                                       c: Carry, t: Turn,
                                       lines: seq<string>, tail: seq<Out>)
    requires lines != [] && t == TurnAt(lines, files, c)
    requires t.used <= |pre| && lines[t.used..] == pre[t.used..] + rest
    requires tail == Normalized(pre[t.used..] + rest, files, t.c)
    ensures Normalized(lines, files, c) == t.written + tail
  {
    NextTurn(lines, files, c, t);
  }

  /** Whatever comes before, the loop stops at the start of a hunk or a file. */
  lemma {:induction false} Passes(pre: seq<string>, rest: seq<string>, files: map<string, seq<string>>, c: Carry,
                                  more: seq<Out>)
    requires rest != [] && EndsBody(rest[0]) && more == Normalized(rest, files, PassedCarry(pre, files, c))
    ensures Normalized(pre + rest, files, c) == PassedOut(pre, files, c) + more
    decreases |pre|
  {
    if pre == [] {
      assert pre + rest == rest;
    } else {
      var t := TurnWithin(pre, files, c);
      var tail := PassedOut(pre[t.used..], files, t.c);
      Passes(pre[t.used..], rest, files, t.c, more);
      TurnsWithin(pre, rest, files, c);
      CutWithin(pre, rest, t.used);
      PassesFirst(pre, rest, files, c, t, pre + rest, tail + more);
      Joins(t.written, tail, more);
    }
  }

  lemma {:induction false} FileTurn(name: string, rest: seq<string>, files: map<string, seq<string>>, c: Carry,
                                    more: seq<Out>)
    requires NamesFile(name) && PathOf(name) in files
    requires more == Normalized(rest, files, Carry(files[PathOf(name)], 0, 0))
    ensures Normalized([name] + rest, files, c) == [Raw(name)] + more
  {
    NextTurn([name] + rest, files, c, Turn([Raw(name)], 1, Carry(files[PathOf(name)], 0, 0)));
    assert ([name] + rest)[1..] == rest;
  }

  /** Where a file's hunks go, when they can be placed at all. */
  lemma {:induction false} PlacesFound(file: seq<string>, hunks: seq<Hunk>) returns (hs: seq<Placed>)
    requires Placeable(file, Olds(hunks), 0)
    ensures |hs| == |hunks| && InPlace(file, hs, 0) && Found(file, hunks, hs, 0)
    ensures forall k :: 0 <= k < |hs| ==> hs[k].was == OldSide(hunks[k].body) && hs[k].news == NewSide(hunks[k].body)
  {
    GreedyComplete(file, Olds(hunks), 0);
    hs := Settled(hunks, Places(Greedy(file, Olds(hunks), 0)));
    GreedyFinds(file, hunks, 0);
    FoundInPlace(file, hunks, hs, 0);
  }

  /** Anywhere in a diff: the bare hunks of a file come out in their places, under
      their ranges, whenever they can be placed in the file in order and without
      overlap. What comes before makes no difference to them, and what comes after is
      taken up behind them. */
  lemma {:induction false} NormalizedExact(pre: seq<string>, name: string, hunks: seq<Hunk>, post: seq<string>,
                                           files: map<string, seq<string>>, c: Carry) returns (hs: seq<Placed>)
    requires NamesFile(name) && PathOf(name) in files && AllClean(hunks, post) && Boundary(post)
    requires Placeable(files[PathOf(name)], Olds(hunks), 0)
    ensures |hs| == |hunks| && InPlace(files[PathOf(name)], hs, 0)
    ensures forall k :: 0 <= k < |hs| ==> hs[k].was == OldSide(hunks[k].body) && hs[k].news == NewSide(hunks[k].body)
    ensures var end := End(Carry(files[PathOf(name)], 0, 0), hs);
            Normalized(pre + ([name] + (Lines(hunks) + post)), files, c)
            == PassedOut(pre, files, c) + ([Raw(name)] + (Written(hunks, hs, 0) + Normalized(post, files, end)))
  {
    var start := Carry(files[PathOf(name)], 0, 0);
    hs := PlacesFound(start.file, hunks);
    var more := Normalized(post, files, End(start, hs));
    WritesRanges(hunks, files, start, hs, post, End(start, hs), more);
    FileTurn(name, Lines(hunks) + post, files, PassedCarry(pre, files, c), Written(hunks, hs, 0) + more);
    Passes(pre, [name] + (Lines(hunks) + post), files, c, [Raw(name)] + (Written(hunks, hs, 0) + more));
  }

  /** A header at `i`, and the body after it. */
  predicate StandsAt(out: seq<Out>, i: nat, header: Out, body: seq<string>)
  {
    i + |body| < |out| && out[i] == header && out[i + 1..i + 1 + |body|] == Raws(body)
  }

  /** The k-th header, by what the hunks before it add. */
  lemma {:induction false} HeaderAt(hunks: seq<Hunk>, hs: seq<Placed>, delta: int, k: nat, out: seq<Out>)
      returns (i: nat)
    requires |hs| == |hunks| && k < |hunks| && out == Written(hunks, hs, delta)
    ensures StandsAt(out, i, RangesOf(hs[k], delta + Growth(hs[..k])), hunks[k].body)
  {
    var p, next := hs[0], delta + |hs[0].news| - |hs[0].was|;
    var tail := Written(hunks[1..], hs[1..], next);
    WrittenIs(hunks, hs, delta, p, next, tail);
    if k == 0 {
      i := 0;
      assert hs[..0] == [];
      StandsFirst(RangesOf(p, delta), hunks[0].body, tail);
    } else {
      var j := HeaderAt(hunks[1..], hs[1..], next, k - 1, tail);
      i := 1 + |hunks[0].body| + j;
      GrowthNext(hs, k);
      StandsFurther(RangesOf(p, delta), hunks[0].body, tail, j, RangesOf(hs[k], delta + Growth(hs[..k])),
                    hunks[k].body);
    }
  }

  lemma {:induction false} StandsFirst(header: Out, body: seq<string>, rest: seq<Out>)
    ensures StandsAt([header] + Raws(body) + rest, 0, header, body)
  {
  }

  lemma {:induction false} StandsFurther(first: Out, own: seq<string>, rest: seq<Out>, j: nat, header: Out,
                                         body: seq<string>)
    requires StandsAt(rest, j, header, body)
    ensures StandsAt([first] + Raws(own) + rest, 1 + |own| + j, header, body)
  {
    Beyond([first] + Raws(own), rest, j, |body|);
  }

  lemma {:induction false} Beyond(first: seq<Out>, rest: seq<Out>, j: nat, n: nat)
    requires j + n < |rest|
    ensures (first + rest)[|first| + j] == rest[j]
    ensures (first + rest)[|first| + j + 1..|first| + j + 1 + n] == rest[j + 1..j + 1 + n]
  {
  }
}
