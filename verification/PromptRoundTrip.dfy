/** Reading back what was packed: the two ends of the code prompt fit together. */
module PromptRoundTrip {
  import opened Text
  import opened CodePrompt

  predicate Unbroken(s: string)
  {
    '\n' !in s
  }

  predicate AllUnbroken(lines: seq<string>)
  {
    forall l :: l in lines ==> Unbroken(l)
  }

  // ----------------------------------------------------------------- lines of a text

  lemma {:induction false} LinesUnbroken(s: string)
    ensures AllUnbroken(PlainLines(s))
  {
    if s != "" {
      LinesUnbroken(s[1..]);
      var rest := PlainLines(s[1..]);
      if s[0] != '\n' && rest != [] {
        assert rest[0] in rest;
        assert forall l :: l in rest[1..] ==> l in rest;
      }
    }
  }

  /** A text that ends its lines keeps them whatever follows. */
  lemma {:induction false} LinesAppend(a: string, b: string)
    requires Terminated(a)
    ensures PlainLines(a + b) == PlainLines(a) + PlainLines(b)
  {
    if a == "" {
      assert a + b == b;
    } else {
      assert (a + b)[1..] == a[1..] + b;
      if |a| > 1 {
        assert a[1..][|a[1..]| - 1] == a[|a| - 1];
      }
      LinesAppend(a[1..], b);
      if a[0] != '\n' {
        LinesSome(a[1..]);
      }
    }
  }

  lemma {:induction false} LinesSome(s: string)
    requires s != ""
    ensures PlainLines(s) != []
  {
  }

  lemma {:induction false} OneLine(l: string)
    requires Unbroken(l)
    ensures PlainLines(l + "\n") == [l]
  {
    if l == "" {
      assert PlainLines("\n"[1..]) == [];
    } else {
      assert (l + "\n")[1..] == l[1..] + "\n";
      OneLine(l[1..]);
      assert l == [l[0]] + l[1..];
    }
  }

  /** Ended by a newline, a text is split and joined without loss. */
  lemma {:induction false} JoinedBack(s: string)
    ensures PlainLines(s + "\n") != [] && JoinedLines(PlainLines(s + "\n")) == s
  {
    if s == "" {
      OneLine(s);
    } else {
      assert (s + "\n")[1..] == s[1..] + "\n";
      JoinedBack(s[1..]);
      var rest := PlainLines(s[1..] + "\n");
      assert s == [s[0]] + s[1..];
      if s[0] == '\n' {
        assert ([""] + rest)[1..] == rest;
      } else {
        assert ([[s[0]] + rest[0]] + rest[1..])[1..] == rest[1..];
      }
    }
  }

  lemma {:induction false} SplitBack(lines: seq<string>)
    requires AllUnbroken(lines)
    ensures PlainLines(JoinedLines(lines) + "\n") == if lines == [] then [""] else lines
  {
    if lines == [] {
      OneLine("");
    } else {
      assert lines[0] in lines;
      OneLine(lines[0]);
      if |lines| > 1 {
        var more := JoinedLines(lines[1..]);
        assert JoinedLines(lines) + "\n" == (lines[0] + "\n") + (more + "\n");
        LinesAppend(lines[0] + "\n", more + "\n");
        assert forall l :: l in lines[1..] ==> l in lines;
        SplitBack(lines[1..]);
      }
    }
  }

  lemma {:induction false} JoinedMore(lines: seq<string>, l: string)
    requires lines != []
    ensures JoinedLines(lines + [l]) == JoinedLines(lines) + "\n" + l
  {
    if |lines| > 1 {
      assert (lines + [l])[1..] == lines[1..] + [l];
      JoinedMore(lines[1..], l);
    } else {
      assert (lines + [l])[1..] == [l];
    }
  }

  // ------------------------------------------------------------------ normal content

  lemma {:induction false} LStripMore(s: string)
    ensures LStripBreaks(s + "\n") == if LStripBreaks(s) == "" then "" else LStripBreaks(s) + "\n"
  {
    if s != "" && s[0] == '\n' {
      assert (s + "\n")[1..] == s[1..] + "\n";
      LStripMore(s[1..]);
    } else if s == "" {
      assert LStripBreaks("\n") == LStripBreaks("\n"[1..]);
    }
  }

  /** A newline more at the end makes no difference. */
  lemma {:induction false} NormalMore(s: string)
    ensures Normal(s + "\n") == Normal(s)
  {
    LStripMore(s);
    var t := LStripBreaks(s);
    if t != "" {
      assert (t + "\n")[..|t + "\n"| - 1] == t;
    }
  }

  /** An empty line more in what was read makes no difference either. */
  lemma {:induction false} ClosedMore(r: Reader)
    ensures Closed(r.(buf := r.buf + [""])) == Closed(r)
  {
    if r.cur.Some? {
      if r.buf == [] {
        assert r.buf + [""] == [""];
      } else {
        JoinedMore(r.buf, "");
        NormalMore(JoinedLines(r.buf));
        assert JoinedLines(r.buf) + "\n" + "" == JoinedLines(r.buf) + "\n";
      }
    }
  }

  // ------------------------------------------------------------------- markers inside

  predicate HasMarker(lines: seq<string>)
  {
    exists k :: 0 <= k < |lines| && IsMarker(lines[k])
  }

  lemma {:induction false} HasAppend(a: seq<string>, b: seq<string>)
    ensures HasMarker(a + b) <==> HasMarker(a) || HasMarker(b)
  {
    if HasMarker(a) {
      var k :| 0 <= k < |a| && IsMarker(a[k]);
      assert (a + b)[k] == a[k];
    }
    if HasMarker(b) {
      var k :| 0 <= k < |b| && IsMarker(b[k]);
      assert (a + b)[|a| + k] == b[k];
    }
  }

  lemma {:induction false} EmptyIsNone()
    ensures !IsMarker("") && !HasMarker([""])
  {
  }

  lemma {:induction false} BreakInFront(s: string)
    ensures HasMarker(PlainLines("\n" + s)) <==> HasMarker(PlainLines(s))
  {
    assert ("\n" + s)[1..] == s;
    HasAppend([""], PlainLines(s));
    EmptyIsNone();
  }

  lemma {:induction false} BreakBehind(s: string)
    ensures HasMarker(PlainLines(s + "\n" + "\n")) <==> HasMarker(PlainLines(s + "\n"))
  {
    LinesAppend(s + "\n", "\n");
    OneLine("");
    assert "" + "\n" == "\n";
    HasAppend(PlainLines(s + "\n"), [""]);
    EmptyIsNone();
  }

  lemma {:induction false} LStripMarkers(s: string)
    ensures HasMarker(PlainLines(LStripBreaks(s) + "\n")) <==> HasMarker(PlainLines(s + "\n"))
  {
    if s != "" && s[0] == '\n' {
      LStripMarkers(s[1..]);
      BreakInFront(s[1..] + "\n");
      assert s + "\n" == "\n" + (s[1..] + "\n");
    }
  }

  lemma {:induction false} RStripMarkers(s: string)
    ensures HasMarker(PlainLines(RStripBreaks(s) + "\n")) <==> HasMarker(PlainLines(s + "\n"))
  {
    if s != "" && s[|s| - 1] == '\n' {
      var init := s[..|s| - 1];
      RStripMarkers(init);
      BreakBehind(init);
      assert s + "\n" == init + "\n" + "\n";
    }
  }

  /** Normalising keeps the markers that are there, and adds none. */
  lemma {:induction false} NormalMarkers(s: string)
    ensures HasMarker(PlainLines(Normal(s))) <==> HasMarker(PlainLines(s + "\n"))
  {
    LStripMarkers(s);
    RStripMarkers(LStripBreaks(s));
  }

  // -------------------------------------------------------------------- reading on

  lemma {:induction false} ReadMore(r: Reader, a: seq<string>, b: seq<string>)
    ensures ReadAll(r, a + b) == ReadAll(ReadAll(r, a), b)
  {
    if b == [] {
      assert a + b == a;
    } else {
      ReadMore(r, a, b[..|b| - 1]);
      assert (a + b)[..|a + b| - 1] == a + b[..|b| - 1];
    }
  }

  lemma {:induction false} ReadOne(r: Reader, l: string)
    ensures ReadAll(r, [l]) == Read(r, l)
  {
    assert [l][..0] == [];
  }

  /** Lines without a marker go to the file being read. */
  lemma {:induction false} ReadPlain(r: Reader, lines: seq<string>)
    requires !HasMarker(lines) && r.cur.Some?
    ensures ReadAll(r, lines) == r.(buf := r.buf + lines)
  {
    if lines != [] {
      var init, last := lines[..|lines| - 1], lines[|lines| - 1];
      assert lines == init + [last];
      HasAppend(init, [last]);
      ReadPlain(r, init);
      assert !IsMarker(last);
      assert r.buf + init + [last] == r.buf + lines;
    }
  }

  // ------------------------------------------------------------------ a chunk at a time

  predicate PathsOk(files: seq<File>)
  {
    forall k :: 0 <= k < |files| ==> Unbroken(files[k].path)
  }

  predicate ContentsOk(files: seq<File>)
  {
    forall k :: 0 <= k < |files| ==> !HasMarker(PlainLines(files[k].content + "\n"))
  }

  /** `m` with the files put in, in order, each normalised. */
  function Overlay(m: map<string, string>, files: seq<File>): map<string, string>
    decreases |files|
  {
    if files == [] then m else Overlay(m[files[0].path := Normal(files[0].content)], files[1..])
  }

  lemma {:induction false} MarkerReads(path: string)
    requires Unbroken(path)
    ensures IsMarker(Marker(path)) && PathIn(Marker(path)) == path && Unbroken(Marker(path))
  {
    var m := Marker(path);
    assert m[|m| - |CLOSING|..] == CLOSING;
    assert m[|OPENING|..|m| - |CLOSING|] == path;
    assert Unbroken(OPENING) && Unbroken(CLOSING);
    assert forall k :: 0 <= k < |m| ==> m[k] in OPENING || m[k] in path || m[k] in CLOSING;
  }

  lemma {:induction false} ChunkLines(f: File, rest: string)
    requires Unbroken(f.path)
    ensures PlainLines(Chunk(f) + rest)
            == [""] + ([Marker(f.path)] + (PlainLines(f.content + "\n") + PlainLines(rest)))
  {
    var line, text := Marker(f.path) + "\n", f.content + "\n";
    MarkerReads(f.path);
    OneLine(Marker(f.path));
    assert Chunk(f) + rest == "\n" + (line + (text + rest));
    assert ("\n" + (line + (text + rest)))[1..] == line + (text + rest);
    LinesAppend(line, text + rest);
    LinesAppend(text, rest);
  }

  /** After a chunk's marker and content, the file stands as it was packed. */
  lemma {:induction false} ReadChunk(r: Reader, path: string, content: string)
    requires Unbroken(path) && !HasMarker(PlainLines(content + "\n"))
    ensures var s := ReadAll(ReadAll(ReadAll(r, [""]), [Marker(path)]), PlainLines(content + "\n"));
            Closed(s) == Closed(r)[path := Normal(content)]
  {
    EmptyIsNone();
    ReadOne(r, "");
    ClosedMore(r);
    var r1 := ReadAll(r, [""]);
    assert Closed(r1) == Closed(r);
    MarkerReads(path);
    ReadOne(r1, Marker(path));
    var r2 := Reader(Closed(r), Some(path), []);
    ReadPlain(r2, PlainLines(content + "\n"));
    JoinedBack(content);
    assert r2.buf + PlainLines(content + "\n") == PlainLines(content + "\n");
  }

  lemma {:induction false} ReadFourParts(r: Reader, a: seq<string>, b: seq<string>, c: seq<string>, d: seq<string>)
    ensures ReadAll(r, a + (b + (c + d))) == ReadAll(ReadAll(ReadAll(ReadAll(r, a), b), c), d)
  {
    ReadMore(r, a, b + (c + d));
    ReadMore(ReadAll(r, a), b, c + d);
    ReadMore(ReadAll(ReadAll(r, a), b), c, d);
  }

  lemma {:induction false} ReadBody(r: Reader, files: seq<File>, lines: seq<string>)
    requires PathsOk(files) && ContentsOk(files) && lines == PlainLines(Body(files))
    ensures Closed(ReadAll(r, lines)) == Overlay(Closed(r), files)
    decreases |files|
  {
    if files != [] {
      var f, rest := files[0], PlainLines(Body(files[1..]));
      var text := PlainLines(f.content + "\n");
      ChunkLines(f, Body(files[1..]));
      ReadFourParts(r, [""], [Marker(f.path)], text, rest);
      ReadChunk(r, f.path, f.content);
      var s := ReadAll(ReadAll(ReadAll(r, [""]), [Marker(f.path)]), text);
      ReadBody(s, files[1..], rest);
    }
  }

  // ------------------------------------------------------------------ the round trip

  predicate DistinctPaths(files: seq<File>)
  {
    forall j, k :: 0 <= j < k < |files| ==> files[j].path != files[k].path
  }

  function Paths(files: seq<File>): set<string>
  {
    set k | 0 <= k < |files| :: files[k].path
  }

  /** The paths that a header's own lines look like markers of. */
  function Stray(header: string): set<string>
  {
    var lines := PlainLines(header);
    set k | 0 <= k < |lines| && IsMarker(lines[k]) :: PathIn(lines[k])
  }

  lemma {:induction false} OverlayKeys(m: map<string, string>, files: seq<File>)
    ensures Overlay(m, files).Keys == m.Keys + Paths(files)
    decreases |files|
  {
    if files != [] {
      var f := files[0];
      OverlayKeys(m[f.path := Normal(f.content)], files[1..]);
      assert Paths(files) == {f.path} + Paths(files[1..]) by {
        forall p ensures p in Paths(files) <==> p in {f.path} + Paths(files[1..]) {
          if p in Paths(files[1..]) {
            var k :| 0 <= k < |files[1..]| && files[1..][k].path == p;
            assert files[k + 1].path == p;
          }
          if p in Paths(files) && p != f.path {
            var k :| 0 <= k < |files| && files[k].path == p;
            assert files[1..][k - 1].path == p;
          }
        }
      }
    }
  }

  /** Where the files are put in, what was there before does not matter. */
  lemma {:induction false} OverlaySame(m: map<string, string>, m': map<string, string>, files: seq<File>, path: string)
    requires (exists k :: 0 <= k < |files| && files[k].path == path) || (path in m && path in m' && m[path] == m'[path])
    ensures path in Overlay(m, files) && path in Overlay(m', files)
    ensures Overlay(m, files)[path] == Overlay(m', files)[path]
    decreases |files|
  {
    if files != [] {
      var f := files[0];
      if f.path != path && exists k :: 0 <= k < |files| && files[k].path == path {
        var k :| 0 <= k < |files| && files[k].path == path;
        assert files[1..][k - 1].path == path;
      }
      OverlaySame(m[f.path := Normal(f.content)], m'[f.path := Normal(f.content)], files[1..], path);
    }
  }

  lemma {:induction false} OverlayIff(m: map<string, string>, files: seq<File>)
    ensures Overlay(m, files) == Overlay(map[], files) <==> m.Keys <= Paths(files)
  {
    OverlayKeys(m, files);
    OverlayKeys(map[], files);
    if m.Keys <= Paths(files) {
      forall p | p in Overlay(m, files) ensures Overlay(m, files)[p] == Overlay(map[], files)[p] {
        assert p in Paths(files);
        OverlaySame(m, map[], files, p);
      }
      assert Overlay(m, files).Keys == Overlay(map[], files).Keys;
    }
  }

  lemma {:induction false} ReadKeys(lines: seq<string>)
    ensures Closed(ReadAll(FRESH, lines)).Keys == set k | 0 <= k < |lines| && IsMarker(lines[k]) :: PathIn(lines[k])
  {
    if lines != [] {
      var init, last := lines[..|lines| - 1], lines[|lines| - 1];
      ReadKeys(init);
      var r := ReadAll(FRESH, init);
      KeysStep(r, last);
      KeysMore(init, last);
      assert lines == init + [last];
    }
  }

  lemma {:induction false} KeysStep(r: Reader, l: string)
    ensures Closed(Read(r, l)).Keys == Closed(r).Keys + if IsMarker(l) then {PathIn(l)} else {}
  {
  }

  lemma {:induction false} KeysMore(init: seq<string>, last: string)
    ensures (set k | 0 <= k < |init + [last]| && IsMarker((init + [last])[k]) :: PathIn((init + [last])[k]))
            == (set k | 0 <= k < |init| && IsMarker(init[k]) :: PathIn(init[k]))
               + if IsMarker(last) then {PathIn(last)} else {}
  {
    var lines := init + [last];
    forall k | 0 <= k < |init| ensures lines[k] == init[k] {
    }
    assert lines[|init|] == last;
  }

  /** What is read never holds a marker. */
  ghost predicate NoMarkersRead(m: map<string, string>)
  {
    forall p :: p in m ==> !HasMarker(PlainLines(m[p]))
  }

  ghost predicate CleanReader(r: Reader)
  {
    NoMarkersRead(r.files) && AllUnbroken(r.buf) && !HasMarker(r.buf)
  }

  lemma {:induction false} ClosedClean(r: Reader)
    requires CleanReader(r)
    ensures NoMarkersRead(Closed(r))
  {
    if r.cur.Some? {
      SplitBack(r.buf);
      NormalMarkers(JoinedLines(r.buf));
      EmptyIsNone();
    }
  }

  lemma {:induction false} ReadClean(r: Reader, l: string)
    requires CleanReader(r) && Unbroken(l)
    ensures CleanReader(Read(r, l))
  {
    ClosedClean(r);
    if !IsMarker(l) {
      HasAppend(r.buf, [l]);
    }
  }

  lemma {:induction false} ReadAllClean(lines: seq<string>)
    requires AllUnbroken(lines)
    ensures CleanReader(ReadAll(FRESH, lines))
  {
    if lines != [] {
      var init, last := lines[..|lines| - 1], lines[|lines| - 1];
      assert lines == init + [last];
      assert last in lines && forall l :: l in init ==> l in lines;
      ReadAllClean(init);
      ReadClean(ReadAll(FRESH, init), last);
    }
  }

  /** What the node should see of the files. */
  function Expected(files: seq<File>): map<string, string>
  {
    Overlay(map[], files)
  }

  lemma {:induction false} ExpectedAt(m: map<string, string>, files: seq<File>, k: nat)
    requires DistinctPaths(files) && k < |files|
    ensures files[k].path in Overlay(m, files) && Overlay(m, files)[files[k].path] == Normal(files[k].content)
    decreases |files|
  {
    var f := files[0];
    var rest := files[1..];
    if k == 0 {
      assert forall j :: 0 <= j < |rest| ==> rest[j].path != f.path;
      OverlayKeeps(m[f.path := Normal(f.content)], rest, f.path);
    } else {
      ExpectedAt(m[f.path := Normal(f.content)], rest, k - 1);
    }
  }

  lemma {:induction false} OverlayKeeps(m: map<string, string>, files: seq<File>, path: string)
    requires path in m && forall k :: 0 <= k < |files| ==> files[k].path != path
    ensures path in Overlay(m, files) && Overlay(m, files)[path] == m[path]
    decreases |files|
  {
    if files != [] {
      OverlayKeeps(m[files[0].path := Normal(files[0].content)], files[1..], path);
    }
  }

  lemma {:induction false} WholeReads(header: string, files: seq<File>)
    requires Terminated(header) && PathsOk(files) && ContentsOk(files)
    ensures Snapshot(header + Body(files)) == Overlay(Closed(ReadAll(FRESH, PlainLines(header))), files)
  {
    LinesAppend(header, Body(files));
    ReadMore(FRESH, PlainLines(header), PlainLines(Body(files)));
    ReadBody(ReadAll(FRESH, PlainLines(header)), files, PlainLines(Body(files)));
  }

  lemma {:induction false} MarkedContentLost(header: string, files: seq<File>, k: nat)
    requires DistinctPaths(files) && k < |files| && HasMarker(PlainLines(files[k].content + "\n"))
    ensures Snapshot(header + Body(files)) != Expected(files)
  {
    var prompt := header + Body(files);
    LinesUnbroken(prompt);
    ReadAllClean(PlainLines(prompt));
    ClosedClean(ReadAll(FRESH, PlainLines(prompt)));
    ExpectedAt(map[], files, k);
    NormalMarkers(files[k].content);
  }

  lemma {:induction false} BuiltWhole(header: string, files: seq<File>, budget: int)
    requires |header| + |Body(files)| <= budget
    ensures Built(header, files, budget) == header + Body(files)
  {
    PackedWhole(files, |header|, budget);
  }

  /** A line is a marker when it begins and ends like one. */
  lemma {:induction false} MarkerIff(line: string)
    ensures IsMarker(line) <==> "--- file: " <= line && |line| >= 4 && line[|line| - 4..] == " ---"
    ensures Marker(line) == "--- file: " + line + " ---"
  {
  }

  predicate AllBreaks(s: string)
  {
    forall k :: 0 <= k < |s| ==> s[k] == '\n'
  }

  /** Normalised content: without the line breaks around it, and one at its end. */
  lemma {:induction false} NormalIs(before: string, core: string, after: string)
    requires AllBreaks(before) && AllBreaks(after)
    requires core != "" ==> core[0] != '\n' && core[|core| - 1] != '\n'
    ensures Normal(before + core + after) == core + "\n"
  {
    if core == "" {
      assert before + core + after == (before + after) + "";
      BreaksInFront(before + after, "");
    } else {
      assert before + core + after == before + (core + after);
      BreaksInFront(before, core + after);
      BreaksBehind(core, after);
    }
  }

  lemma {:induction false} BreaksInFront(breaks: string, rest: string)
    requires AllBreaks(breaks) && (rest != "" ==> rest[0] != '\n')
    ensures LStripBreaks(breaks + rest) == rest
  {
    if breaks == "" {
      assert breaks + rest == rest;
    } else {
      assert (breaks + rest)[1..] == breaks[1..] + rest;
      BreaksInFront(breaks[1..], rest);
    }
  }

  lemma {:induction false} BreaksBehind(rest: string, breaks: string)
    requires AllBreaks(breaks) && (rest != "" ==> rest[|rest| - 1] != '\n')
    ensures RStripBreaks(rest + breaks) == rest
  {
    if breaks == "" {
      assert rest + breaks == rest;
    } else {
      assert (rest + breaks)[..|rest + breaks| - 1] == rest + breaks[..|breaks| - 1];
      BreaksBehind(rest, breaks[..|breaks| - 1]);
    }
  }

  /** The words of the test command, with a space between them. */
  lemma {:induction false} SpacedIs(words: seq<string>, word: string)
    ensures Spaced([]) == "" && Spaced([word]) == word
    ensures words != [] ==> Spaced([word] + words) == word + " " + Spaced(words)
  {
    assert ([word] + words)[1..] == words;
  }

  /** The lines of the header: the instructions, the task, the base and the tests, the
      note on tools if they are used, and the word that the files follow. */
  lemma {:induction false} HeaderLines(w: Wording, task: string, spec: Spec, tests: string, base: string)
    requires Terminated(w.intro) && Terminated(w.tools) && Unbroken(task) && Unbroken(base) && Unbroken(tests)
    requires base == (if spec.baseSha == "" then "(fresh snapshot)" else spec.baseSha) && tests == Spaced(spec.testCmd)
    ensures PlainLines(Header(w, task, spec))
            == PlainLines(w.intro) + ["Task: " + task] + ["Base: " + base] + ["Tests: " + tests]
               + PlainLines(if spec.useTools then w.tools else "") + ["", "Files:"]
  {
    var a, b, c := "Task: " + task, "Base: " + base, "Tests: " + tests;
    var tools, last := if spec.useTools then w.tools else "", "\nFiles:\n";
    OneLine(a);
    OneLine(b);
    OneLine(c);
    LastLines();
    LinesAppend(w.intro, a + "\n");
    LinesAppend(w.intro + (a + "\n"), b + "\n");
    LinesAppend(w.intro + (a + "\n") + (b + "\n"), c + "\n");
    LinesAppend(w.intro + (a + "\n") + (b + "\n") + (c + "\n"), tools);
    LinesAppend(w.intro + (a + "\n") + (b + "\n") + (c + "\n") + tools, last);
    assert Header(w, task, spec) == w.intro + (a + "\n") + (b + "\n") + (c + "\n") + tools + last;
  }

  lemma {:induction false} LastLines()
    ensures PlainLines("\nFiles:\n") == ["", "Files:"]
  {
    OneLine("Files:");
    assert "\nFiles:\n"[1..] == "Files:" + "\n";
  }

  lemma {:induction false} HeaderTerminated(w: Wording, task: string, spec: Spec)
    ensures Terminated(Header(w, task, spec))
  {
    var h := Header(w, task, spec);
    var tail := "\nFiles:\n";
    assert h[|h| - |tail|..] == tail;
    assert h[|h| - 1] == tail[|tail| - 1];
  }

  lemma {:induction false} ReadsBackIff(header: string, files: seq<File>, budget: int)
    requires Terminated(header) && PathsOk(files) && DistinctPaths(files)
    requires |header| + |Body(files)| <= budget
    ensures Snapshot(Built(header, files, budget)) == Expected(files)
            <==> ContentsOk(files) && Stray(header) <= Paths(files)
  {
    BuiltWhole(header, files, budget);
    if ContentsOk(files) {
      WholeReads(header, files);
      ReadKeys(PlainLines(header));
      OverlayIff(Closed(ReadAll(FRESH, PlainLines(header))), files);
    } else {
      var k :| 0 <= k < |files| && HasMarker(PlainLines(files[k].content + "\n"));
      MarkedContentLost(header, files, k);
    }
  }

  /** When all files fit, the node reads back from a code prompt every file, normalised,
      and nothing else: exactly when no line of a content looks like a marker, and no
      line of the header, where the user's own words stand, looks like the marker of a
      path that is not among the files. */
  lemma {:induction false} RoundTripIff(w: Wording, task: string, spec: Spec, budget: int, header: string)
    requires header == Header(w, task, spec) && PathsOk(spec.files) && DistinctPaths(spec.files)
    requires |header| + |Body(spec.files)| <= budget
    ensures Snapshot(Built(header, spec.files, budget)) == Expected(spec.files)
            <==> ContentsOk(spec.files) && Stray(header) <= Paths(spec.files)
  {
    HeaderTerminated(w, task, spec);
    ReadsBackIff(header, spec.files, budget);
  }
}
