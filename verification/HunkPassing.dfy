/** The rewritten diff against a declarative account of it: which lines come out as they
    are, and which headers are filled in, with what. */
module HunkPassing {
  import opened Text
  import opened Hunks

  // ------------------------------------------------------------------ the kinds of line

  predicate StartsWith(line: string, prefix: string)
  {
    |prefix| <= |line| && line[..|prefix|] == prefix
  }

  /** A header that has its old start. */
  predicate Ranged(line: string)
  {
    |line| >= 5 && line[..4] == "@@ -" && '0' <= line[4] <= '9'
  }

  lemma {:induction false} PrefixTwo(line: string, prefix: string)
    requires |prefix| == 2
    ensures StartsWith(line, prefix) <==> |line| >= 2 && line[0] == prefix[0] && line[1] == prefix[1]
  {
    if |line| >= 2 {
      assert line[..2][0] == line[0] && line[..2][1] == line[1];
    }
  }

  lemma {:induction false} PrefixFour(line: string, prefix: string)
    requires |prefix| == 4
    ensures StartsWith(line, prefix)
            <==> |line| >= 4 && line[0] == prefix[0] && line[1] == prefix[1] && line[2] == prefix[2]
                 && line[3] == prefix[3]
  {
    if |line| >= 4 {
      var s := line[..4];
      assert s[0] == line[0] && s[1] == line[1] && s[2] == line[2] && s[3] == line[3];
    }
  }

  lemma {:induction false} PrefixFive(line: string, prefix: string)
    requires |prefix| == 5
    ensures StartsWith(line, prefix)
            <==> |line| >= 5 && line[0] == prefix[0] && line[1] == prefix[1] && line[2] == prefix[2]
                 && line[3] == prefix[3] && line[4] == prefix[4]
  {
    if |line| >= 5 {
      var s := line[..5];
      assert s[0] == line[0] && s[1] == line[1] && s[2] == line[2] && s[3] == line[3] && s[4] == line[4];
    }
  }

  /** The lines that matter: bare headers, names of files, and what ends a body. */
  lemma {:induction false} Kinds(line: string)
    ensures Bare(line) <==> StartsWith(line, "@@") && !Ranged(line)
    ensures NamesFile(line) <==> StartsWith(line, "+++ ")
    ensures EndsBody(line) <==> StartsWith(line, "@@") || StartsWith(line, "--- ") || StartsWith(line, "+++ ")
                                || StartsWith(line, "diff ")
  {
    PrefixTwo(line, "@@");
    PrefixFour(line, "@@ -");
    PrefixFour(line, "+++ ");
    PrefixFour(line, "--- ");
    PrefixFive(line, "diff ");
  }

  // ------------------------------------------------------------------------ the body

  /** `body` is what `rest` begins with, as far as the next line that ends a body: empty
      lines padded with the space they lost, and, at the very end of the diff, without the
      blank lines at its end. */
  predicate BodyIs(rest: seq<string>, n: nat, body: seq<string>)
  {
    && n <= |rest| && (forall k :: 0 <= k < n ==> !EndsBody(rest[k])) && (n < |rest| ==> EndsBody(rest[n]))
    && |body| <= n && (forall k :: 0 <= k < |body| ==> body[k] == if rest[k] == "" then " " else rest[k])
    && (n < |rest| ==> |body| == n)
    && (forall k :: |body| <= k < n ==> rest[k] == "" || rest[k] == " ")
    && (n == |rest| && body != [] ==> body[|body| - 1] != " ")
  }

  lemma {:induction false} LengthIs(rest: seq<string>)
    ensures forall k :: 0 <= k < BodyLength(rest) ==> !EndsBody(rest[k])
    ensures BodyLength(rest) < |rest| ==> EndsBody(rest[BodyLength(rest)])
  {
    if rest != [] && !EndsBody(rest[0]) {
      LengthIs(rest[1..]);
      forall k | 0 <= k < BodyLength(rest) ensures !EndsBody(rest[k]) {
        if k > 0 {
          assert rest[k] == rest[1..][k - 1];
        }
      }
    }
  }

  lemma {:induction false} PaddedIs(lines: seq<string>)
    ensures forall k :: 0 <= k < |lines| ==> Padded(lines)[k] == if lines[k] == "" then " " else lines[k]
  {
    if lines != [] {
      PaddedIs(lines[1..]);
    }
  }

  lemma {:induction false} WithoutBlanksIs(body: seq<string>)
    ensures WithoutBlanks(body) <= body
    ensures forall k :: |WithoutBlanks(body)| <= k < |body| ==> Blank(body[k])
    ensures WithoutBlanks(body) != [] ==> !Blank(WithoutBlanks(body)[|WithoutBlanks(body)| - 1])
  {
    if body != [] && Blank(body[|body| - 1]) {
      WithoutBlanksIs(body[..|body| - 1]);
    }
  }

  lemma {:induction false} BodyOfIs(rest: seq<string>)
    ensures BodyIs(rest, BodyLength(rest), BodyOf(rest))
  {
    var n := BodyLength(rest);
    var body := Padded(rest[..n]);
    LengthIs(rest);
    PaddedIs(rest[..n]);
    WithoutBlanksIs(body);
    assert forall k :: 0 <= k < n ==> rest[..n][k] == rest[k];
    forall k | |BodyOf(rest)| <= k < n ensures rest[k] == "" || rest[k] == " " {
      assert Blank(body[k]);
    }
  }

  /** A bare hunk's lines: those it takes away or keeps, and those it keeps or puts in,
      without the mark in front. */
  lemma {:induction false} SidesAre(line: string, rest: seq<string>)
    ensures OldSide([]) == [] && NewSide([]) == []
    ensures OldSide([line] + rest)
            == (if StartsWith(line, " ") || StartsWith(line, "-") then [line[1..]] else []) + OldSide(rest)
    ensures NewSide([line] + rest)
            == (if StartsWith(line, " ") || StartsWith(line, "+") then [line[1..]] else []) + NewSide(rest)
  {
    assert ([line] + rest)[1..] == rest;
    assert line != "" ==> line[..1][0] == line[0];
  }

  /** The path that a `+++` line names: without the blanks around it, and without its
      first component, if it has more than one. */
  lemma {:induction false} PathIs(front: string, first: string, path: string, back: string)
    requires forall k :: 0 <= k < |front| ==> IsSpace(front[k])
    requires forall k :: 0 <= k < |back| ==> IsSpace(back[k])
    requires '/' !in first && (first != "" ==> !IsSpace(first[0]))
    requires path != "" && !IsSpace(path[|path| - 1])
    ensures NamesFile("+++ " + front + first + "/" + path + back)
    ensures PathOf("+++ " + front + first + "/" + path + back) == path
    ensures '/' !in path && !IsSpace(path[0]) ==> NamesFile("+++ " + front + path + back)
                                                  && PathOf("+++ " + front + path + back) == path
  {
    PathParts("+++ " + front + first + "/" + path + back, front, first + "/" + path, back);
    Slashed(first, path, first + "/" + path);
    if '/' !in path && !IsSpace(path[0]) {
      PathParts("+++ " + front + path + back, front, path, back);
      Unslashed(path, path);
    }
  }

  lemma {:induction false} PathParts(line: string, front: string, mid: string, back: string)
    requires line == "+++ " + front + mid + back && mid != "" && !IsSpace(mid[0]) && !IsSpace(mid[|mid| - 1])
    requires forall k :: 0 <= k < |front| ==> IsSpace(front[k])
    requires forall k :: 0 <= k < |back| ==> IsSpace(back[k])
    ensures NamesFile(line) && PathOf(line) == AfterSlash(mid, mid)
  {
    assert line[..4] == "+++ ";
    PrefixFour(line, "+++ ");
    assert line[4..] == front + (mid + back);
    StripFront(front, mid + back);
    StripBack(mid, back);
  }

  lemma {:induction false} StripFront(front: string, rest: string)
    requires (forall k :: 0 <= k < |front| ==> IsSpace(front[k])) && rest != "" && !IsSpace(rest[0])
    ensures LStrip(front + rest) == rest
  {
    if front == "" {
      assert front + rest == rest;
    } else {
      assert (front + rest)[1..] == front[1..] + rest;
      StripFront(front[1..], rest);
    }
  }

  lemma {:induction false} StripBack(rest: string, back: string)
    requires (forall k :: 0 <= k < |back| ==> IsSpace(back[k])) && rest != "" && !IsSpace(rest[|rest| - 1])
    ensures RStrip(rest + back) == rest
  {
    if back == "" {
      assert rest + back == rest;
    } else {
      assert (rest + back)[..|rest + back| - 1] == rest + back[..|back| - 1];
      StripBack(rest, back[..|back| - 1]);
    }
  }

  lemma {:induction false} Slashed(first: string, path: string, whole: string)
    requires '/' !in first
    ensures AfterSlash(first + "/" + path, whole) == path
  {
    if first == "" {
      assert first + "/" + path == "/" + path;
    } else {
      assert (first + "/" + path)[1..] == first[1..] + "/" + path;
      Slashed(first[1..], path, whole);
    }
  }

  lemma {:induction false} Unslashed(path: string, whole: string)
    requires '/' !in path
    ensures AfterSlash(path, whole) == whole
  {
    if path != "" {
      Unslashed(path[1..], whole);
    }
  }

  // ------------------------------------------------------------------------ the account

  /** The hunk's old side is nowhere in the file from `from` on. */
  predicate Nowhere(file: seq<string>, was: seq<string>, from: nat)
  {
    forall k :: from <= k <= |file| ==> !MatchesAt(file, was, k)
  }

  /** The hunk's old side is at `at`, and nowhere between `from` and there. */
  predicate FirstAt(file: seq<string>, was: seq<string>, from: nat, at: nat)
  {
    from <= at && MatchesAt(file, was, at) && forall k :: from <= k < at ==> !MatchesAt(file, was, k)
  }

  /** The header belongs to the hunk: with old lines, it names the first place where they
      are found and the place they move to; without, it names no old place. */
  predicate Fills(h: Out, was: seq<string>, news: seq<string>, file: seq<string>, from: nat, delta: int)
  {
    && h.Header? && h.oldLen == |was| && h.newLen == |news|
    && (was == [] ==> h.oldStart == 0 && h.newStart == 1 + delta)
    && (was != [] ==> h.oldStart >= 1 && FirstAt(file, was, from, h.oldStart - 1) && h.newStart == h.oldStart + delta)
  }

  /** The lines, each as it was. */
  predicate Untouched(lines: seq<string>, out: seq<Out>)
  {
    |out| == |lines| && forall k :: 0 <= k < |lines| ==> out[k] == Raw(lines[k])
  }

  /** `out` is what becomes of `lines` when `file` is the file they are about, of which
      everything before `from` is taken, and `delta` lines were added to it so far. Every
      line comes out as it is, and in order; except that a bare header whose hunk is found
      is filled in, with its body behind it. A name of a file starts afresh with that file. */
  predicate Account(lines: seq<string>, out: seq<Out>, files: map<string, seq<string>>, file: seq<string>, from: nat,
                    delta: int)
    decreases |lines|, 0
  {
    if lines == [] then out == []
    else
      && out != []
      && var line, rest := lines[0], lines[1..];
         if StartsWith(line, "+++ ") then
           && out[0] == Raw(line) && NamesFile(line)
           && Account(rest, out[1..], files, if PathOf(line) in files then files[PathOf(line)] else [], 0, 0)
         else if !StartsWith(line, "@@") || Ranged(line) then
           out[0] == Raw(line) && Account(rest, out[1..], files, file, from, delta)
         else
           var was := OldSide(BodyOf(rest));
           if was != [] && Nowhere(file, was, from) then
             out[0] == Raw(line) && Account(rest, out[1..], files, file, from, delta)
           else
             AccountOfHunk(rest, BodyOf(rest), BodyLength(rest), out, files, file, from, delta)
  }

  /** Behind a header that is filled in: the body, and then the rest of the diff. */
  predicate AccountOfHunk(rest: seq<string>, body: seq<string>, n: nat, out: seq<Out>, files: map<string, seq<string>>,
                          file: seq<string>, from: nat, delta: int)
    requires n <= |rest|
    decreases |rest|, 1
  {
    && |body| < |out| && Untouched(body, out[1..1 + |body|])
    && Fills(out[0], OldSide(body), NewSide(body), file, from, delta)
    && Account(rest[n..], out[1 + |body|..], files, file, Behind(out[0], OldSide(body), from),
               delta + |NewSide(body)| - |OldSide(body)|)
  }

  /** Where to look for the next hunk. */
  function Behind(h: Out, was: seq<string>, from: nat): nat
    requires h.Header?
  {
    if was == [] || h.oldStart < 1 then from else h.oldStart - 1 + |was|
  }

  lemma {:induction false} SearchIs(file: seq<string>, was: seq<string>, from: nat)
    requires was != []
    ensures FindFrom(file, was, from).None? <==> Nowhere(file, was, from)
    ensures FindFrom(file, was, from).Some? ==> FirstAt(file, was, from, FindFrom(file, was, from).value)
  {
    var at := FindFrom(file, was, from);
    if at.None? {
      forall k | from <= k <= |file| ensures !MatchesAt(file, was, k) {
        if MatchesAt(file, was, k) {
          FindLeftmost(file, was, from, k);
        }
      }
    } else {
      forall k | from <= k < at.value ensures !MatchesAt(file, was, k) {
        if MatchesAt(file, was, k) {
          FindLeftmost(file, was, from, k);
        }
      }
    }
  }

  lemma {:induction false} UntouchedIs(lines: seq<string>, out: seq<Out>)
    ensures Untouched(lines, out) <==> out == Raws(lines)
  {
    if lines != [] {
      UntouchedIs(lines[..|lines| - 1], Raws(lines[..|lines| - 1]));
    }
    assert Untouched(lines, Raws(lines));
  }

  lemma {:induction false} HeaderFills(body: seq<string>, c: Carry)
    ensures HeaderFor(body, c).0.None? <==> OldSide(body) != [] && Nowhere(c.file, OldSide(body), c.searchFrom)
    ensures HeaderFor(body, c).0.None? ==> HeaderFor(body, c).1 == c
    ensures HeaderFor(body, c).0.Some? ==>
              var h, next := HeaderFor(body, c).0.value, HeaderFor(body, c).1;
              && Fills(h, OldSide(body), NewSide(body), c.file, c.searchFrom, c.delta)
              && next.file == c.file && next.delta == c.delta + |NewSide(body)| - |OldSide(body)|
              && next.searchFrom == Behind(h, OldSide(body), c.searchFrom)
  {
    if OldSide(body) != [] {
      SearchIs(c.file, OldSide(body), c.searchFrom);
    }
  }

  lemma {:induction false} OneLineOn(line: string, rest: seq<string>, files: map<string, seq<string>>, c: Carry,
                                     next: Carry)
    requires TurnAt([line] + rest, files, c) == Turn([Raw(line)], 1, next)
    ensures Normalized([line] + rest, files, c) == [Raw(line)] + Normalized(rest, files, next)
  {
    NextTurn([line] + rest, files, c, Turn([Raw(line)], 1, next));
    assert ([line] + rest)[1..] == rest;
  }

  lemma {:induction false} HunkOn(line: string, rest: seq<string>, files: map<string, seq<string>>, c: Carry, h: Out,
                                  body: seq<string>, n: nat, next: Carry)
    requires n <= |rest| && TurnAt([line] + rest, files, c) == Turn([h] + Raws(body), n + 1, next)
    ensures Normalized([line] + rest, files, c) == [h] + Raws(body) + Normalized(rest[n..], files, next)
  {
    NextTurn([line] + rest, files, c, Turn([h] + Raws(body), n + 1, next));
    assert ([line] + rest)[n + 1..] == rest[n..];
  }

  lemma {:induction false} Splits(h: Out, body: seq<Out>, tail: seq<Out>, out: seq<Out>)
    requires out == [h] + body + tail
    ensures |body| < |out| && out[0] == h && out[1..1 + |body|] == body && out[1 + |body|..] == tail
  {
  }

  /** The loop writes what the account says. */
  lemma {:induction false} AccountHolds(lines: seq<string>, files: map<string, seq<string>>, c: Carry)
    ensures Account(lines, Normalized(lines, files, c), files, c.file, c.searchFrom, c.delta)
    decreases |lines|
  {
    if lines != [] {
      var line, rest := lines[0], lines[1..];
      assert lines == [line] + rest;
      Kinds(line);
      if NamesFile(line) {
        var next := Carry(if PathOf(line) in files then files[PathOf(line)] else [], 0, 0);
        OneLineOn(line, rest, files, c, next);
        AccountHolds(rest, files, next);
      } else if !Bare(line) {
        OneLineOn(line, rest, files, c, c);
        AccountHolds(rest, files, c);
      } else {
        AccountAtHunk(line, rest, files, c);
      }
    }
  }

  lemma {:induction false} AccountAtHunk(line: string, rest: seq<string>, files: map<string, seq<string>>, c: Carry)
    requires Bare(line) && !NamesFile(line)
    ensures Account([line] + rest, Normalized([line] + rest, files, c), files, c.file, c.searchFrom, c.delta)
    decreases |rest| + 1, 0
  {
    var n, body := BodyLength(rest), BodyOf(rest);
    var (header, next) := HeaderFor(body, c);
    HeaderFills(body, c);
    assert ([line] + rest)[1..] == rest;
    if header.None? {
      OneLineOn(line, rest, files, c, c);
      AccountHolds(rest, files, c);
      LeftAlone(line, rest, Normalized(rest, files, c), files, c);
    } else {
      HunkOn(line, rest, files, c, header.value, body, n, next);
      AccountHolds(rest[n..], files, next);
      FilledIn(line, rest, header.value, Normalized(rest[n..], files, next), files, c, next);
    }
  }

  lemma {:induction false} LeftAlone(line: string, rest: seq<string>, tail: seq<Out>, files: map<string, seq<string>>,
                                     c: Carry)
    requires Bare(line) && !NamesFile(line) && Account(rest, tail, files, c.file, c.searchFrom, c.delta)
    requires OldSide(BodyOf(rest)) != [] && Nowhere(c.file, OldSide(BodyOf(rest)), c.searchFrom)
    ensures Account([line] + rest, [Raw(line)] + tail, files, c.file, c.searchFrom, c.delta)
  {
    Kinds(line);
    assert ([line] + rest)[1..] == rest && ([Raw(line)] + tail)[1..] == tail;
  }

  lemma {:induction false} FilledIn(line: string, rest: seq<string>, h: Out, tail: seq<Out>,
                                    files: map<string, seq<string>>, c: Carry, next: Carry)
    requires Bare(line) && !NamesFile(line) && HeaderFor(BodyOf(rest), c) == (Some(h), next)
    requires Account(rest[BodyLength(rest)..], tail, files, next.file, next.searchFrom, next.delta)
    ensures Account([line] + rest, [h] + Raws(BodyOf(rest)) + tail, files, c.file, c.searchFrom, c.delta)
  {
    var body, out := BodyOf(rest), [h] + Raws(BodyOf(rest)) + tail;
    HeaderFills(body, c);
    HunkBuilt(rest, body, BodyLength(rest), h, tail, out, files, c, next);
    HunkAccounted(line, rest, out, files, c);
  }

  lemma {:induction false} HunkBuilt(rest: seq<string>, body: seq<string>, n: nat, h: Out, tail: seq<Out>,
                                     out: seq<Out>, files: map<string, seq<string>>, c: Carry, next: Carry)
    requires n <= |rest| && out == [h] + Raws(body) + tail
    requires Fills(h, OldSide(body), NewSide(body), c.file, c.searchFrom, c.delta)
    requires next == Carry(c.file, Behind(h, OldSide(body), c.searchFrom), c.delta + |NewSide(body)| - |OldSide(body)|)
    requires Account(rest[n..], tail, files, next.file, next.searchFrom, next.delta)
    ensures AccountOfHunk(rest, body, n, out, files, c.file, c.searchFrom, c.delta)
  {
    Splits(h, Raws(body), tail, out);
    UntouchedIs(body, Raws(body));
  }

  lemma {:induction false} HunkAccounted(line: string, rest: seq<string>, out: seq<Out>,
                                         files: map<string, seq<string>>, c: Carry)
    requires Bare(line) && !NamesFile(line)
    requires OldSide(BodyOf(rest)) == [] || !Nowhere(c.file, OldSide(BodyOf(rest)), c.searchFrom)
    ensures Account([line] + rest, out, files, c.file, c.searchFrom, c.delta)
            <==> AccountOfHunk(rest, BodyOf(rest), BodyLength(rest), out, files, c.file, c.searchFrom, c.delta)
  {
    Kinds(line);
    assert ([line] + rest)[1..] == rest;
  }

  lemma {:induction false} HunkPassed(line: string, rest: seq<string>, out: seq<Out>, files: map<string, seq<string>>,
                                      c: Carry)
    requires Bare(line) && !NamesFile(line)
    requires OldSide(BodyOf(rest)) != [] && Nowhere(c.file, OldSide(BodyOf(rest)), c.searchFrom)
    requires Account([line] + rest, out, files, c.file, c.searchFrom, c.delta)
    ensures out != [] && out[0] == Raw(line) && out == [Raw(line)] + out[1..]
    ensures Account(rest, out[1..], files, c.file, c.searchFrom, c.delta)
  {
    Kinds(line);
    assert ([line] + rest)[1..] == rest;
  }

  // ---------------------------------------------------------------- and nothing else is

  lemma {:induction false} FillsOnce(h: Out, g: Out, was: seq<string>, news: seq<string>, file: seq<string>, from: nat,
                                     delta: int)
    requires Fills(h, was, news, file, from, delta) && Fills(g, was, news, file, from, delta)
    ensures h == g
  {
  }

  /** The account leaves no choice: one output answers to it, and that is the loop's. */
  lemma {:induction false} AccountOnce(lines: seq<string>, out: seq<Out>, files: map<string, seq<string>>, c: Carry)
    requires Account(lines, out, files, c.file, c.searchFrom, c.delta)
    ensures out == Normalized(lines, files, c)
    decreases |lines|
  {
    if lines != [] {
      var line, rest := lines[0], lines[1..];
      assert lines == [line] + rest;
      Kinds(line);
      if NamesFile(line) {
        var next := Carry(if PathOf(line) in files then files[PathOf(line)] else [], 0, 0);
        OneLineOn(line, rest, files, c, next);
        AccountOnce(rest, out[1..], files, next);
        assert out == [out[0]] + out[1..];
      } else if !Bare(line) {
        OneLineOn(line, rest, files, c, c);
        AccountOnce(rest, out[1..], files, c);
        assert out == [out[0]] + out[1..];
      } else {
        OnceAtHunk(line, rest, out, files, c);
      }
    }
  }

  lemma {:induction false} OnceAtHunk(line: string, rest: seq<string>, out: seq<Out>, files: map<string, seq<string>>,
                                      c: Carry)
    requires Bare(line) && !NamesFile(line) && Account([line] + rest, out, files, c.file, c.searchFrom, c.delta)
    ensures out == Normalized([line] + rest, files, c)
    decreases |rest| + 1, 1
  {
    var (header, next) := HeaderFor(BodyOf(rest), c);
    HeaderFills(BodyOf(rest), c);
    if header.None? {
      HunkPassed(line, rest, out, files, c);
      OneLineOn(line, rest, files, c, c);
      AccountOnce(rest, out[1..], files, c);
    } else {
      HunkAccounted(line, rest, out, files, c);
      OnceBehind(line, rest, BodyOf(rest), BodyLength(rest), out, files, c, header.value, next);
    }
  }

  lemma {:induction false} OnceBehind(line: string, rest: seq<string>, body: seq<string>, n: nat, out: seq<Out>,
                                      files: map<string, seq<string>>, c: Carry, h: Out, next: Carry)
    requires n == BodyLength(rest) && body == BodyOf(rest) && Bare(line) && !NamesFile(line)
    requires HeaderFor(body, c) == (Some(h), next)
    requires AccountOfHunk(rest, body, n, out, files, c.file, c.searchFrom, c.delta)
    ensures out == Normalized([line] + rest, files, c)
    decreases |rest| + 1, 0
  {
    var tail := out[1 + |body|..];
    HunkParts(rest, body, n, out, files, c, h, next);
    AccountOnce(rest[n..], tail, files, next);
    HunkTurn(line, rest, files, c, h, next);
    HunkOn(line, rest, files, c, h, body, n, next);
  }

  lemma {:induction false} HunkTurn(line: string, rest: seq<string>, files: map<string, seq<string>>, c: Carry, h: Out,
                                    next: Carry)
    requires Bare(line) && !NamesFile(line) && HeaderFor(BodyOf(rest), c) == (Some(h), next)
    ensures TurnAt([line] + rest, files, c) == Turn([h] + Raws(BodyOf(rest)), BodyLength(rest) + 1, next)
  {
    assert ([line] + rest)[1..] == rest;
  }

  lemma {:induction false} HunkParts(rest: seq<string>, body: seq<string>, n: nat, out: seq<Out>,
                                     files: map<string, seq<string>>, c: Carry, h: Out, next: Carry)
    requires n <= |rest| && HeaderFor(body, c) == (Some(h), next)
    requires AccountOfHunk(rest, body, n, out, files, c.file, c.searchFrom, c.delta)
    ensures 1 + |body| <= |out| && out == [h] + Raws(body) + out[1 + |body|..]
    ensures Account(rest[n..], out[1 + |body|..], files, next.file, next.searchFrom, next.delta)
  {
    HeaderFills(body, c);
    FillsOnce(out[0], h, OldSide(body), NewSide(body), c.file, c.searchFrom, c.delta);
    UntouchedIs(body, out[1..1 + |body|]);
    assert out == [out[0]] + out[1..1 + |body|] + out[1 + |body|..];
  }

  /** What the loop writes is exactly what the account says of a diff from its start. */
  lemma {:induction false} NormalizedIff(lines: seq<string>, files: map<string, seq<string>>, out: seq<Out>)
    ensures out == Normalized(lines, files, Carry([], 0, 0)) <==> Account(lines, out, files, [], 0, 0)
  {
    AccountHolds(lines, files, Carry([], 0, 0));
    if Account(lines, out, files, [], 0, 0) {
      AccountOnce(lines, out, files, Carry([], 0, 0));
    }
  }

  lemma {:induction false} RangedLine(line: string, rest: seq<string>, files: map<string, seq<string>>, c: Carry)
      returns (next: Carry)
    requires !StartsWith(line, "@@") || Ranged(line)
    ensures Normalized([line] + rest, files, c) == [Raw(line)] + Normalized(rest, files, next)
  {
    Kinds(line);
    next := if NamesFile(line) then Carry(if PathOf(line) in files then files[PathOf(line)] else [], 0, 0) else c;
    OneLineOn(line, rest, files, c, next);
  }

  lemma {:induction false} UntouchedMore(line: string, rest: seq<string>, tail: seq<Out>)
    requires Untouched(rest, tail)
    ensures Untouched([line] + rest, [Raw(line)] + tail)
  {
  }

  /** A diff whose headers all have their ranges passes through untouched. */
  lemma {:induction false} RangedUntouched(lines: seq<string>, files: map<string, seq<string>>, c: Carry)
    requires forall k :: 0 <= k < |lines| ==> !StartsWith(lines[k], "@@") || Ranged(lines[k])
    ensures Untouched(lines, Normalized(lines, files, c))
    decreases |lines|
  {
    if lines != [] {
      var next := RangedLine(lines[0], lines[1..], files, c);
      RangedUntouched(lines[1..], files, next);
      UntouchedMore(lines[0], lines[1..], Normalized(lines[1..], files, next));
      assert lines == [lines[0]] + lines[1..];
    }
  }
}
