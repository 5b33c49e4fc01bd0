/** Packing files into a code prompt on the server, and reading them back on the node. */
module CodePrompt {
  import opened Text

  // ------------------------------------------------------------------------- packing

  datatype File = File(path: string, content: string)

  datatype Spec = Spec(baseSha: string, files: seq<File>, testCmd: seq<string>, useTools: bool)

  function Spaced(words: seq<string>): string
  {
    if words == [] then "" else if |words| == 1 then words[0] else words[0] + " " + Spaced(words[1..])
  }

  /** The fixed sentences of the prompt: what to emit, and how to use tools. */
  datatype Wording = Wording(intro: string, tools: string)

  function Header(w: Wording, task: string, spec: Spec): string
  {
    w.intro + ("Task: " + task + "\n")
    + ("Base: " + (if spec.baseSha == "" then "(fresh snapshot)" else spec.baseSha) + "\n")
    + ("Tests: " + Spaced(spec.testCmd) + "\n")
    + (if spec.useTools then w.tools else "") + "\nFiles:\n"
  }

  const OPENING: string := "--- file: "
  const CLOSING: string := " ---"

  function Marker(path: string): string
  {
    OPENING + path + CLOSING
  }

  function Chunk(f: File): string
  {
    "\n" + (Marker(f.path) + "\n" + (f.content + "\n"))
  }

  /** The files, packed in order until the budget is used up. */
  function Packed(files: seq<File>, used: nat, budget: int): string
  {
    if files == [] then ""
    else
      var chunk := Chunk(files[0]);
      if used + |chunk| > budget then
        if budget - used > 200 then chunk[..budget - used] + "\n[truncated]\n" else ""
      else chunk + Packed(files[1..], used + |chunk|, budget)
  }

  /** The files, all of them. */
  function Body(files: seq<File>): string
  {
    if files == [] then "" else Chunk(files[0]) + Body(files[1..])
  }

  lemma {:induction false} PackedWhole(files: seq<File>, used: nat, budget: int)
    requires used + |Body(files)| <= budget
    ensures Packed(files, used, budget) == Body(files)
  {
    if files != [] {
      PackedWhole(files[1..], used + |Chunk(files[0])|, budget);
    }
  }

  /** However many files there are, the prompt keeps to the budget, but for the mark
      that it was cut. */
  lemma {:induction false} PackedWithin(files: seq<File>, used: nat, budget: int)
    requires used <= budget
    ensures used + |Packed(files, used, budget)| <= budget + |"\n[truncated]\n"|
  {
    if files != [] && used + |Chunk(files[0])| <= budget {
      PackedWithin(files[1..], used + |Chunk(files[0])|, budget);
    }
  }

  /** The first file that no longer fits whole is cut to what is left, if that is more
      than 200 characters, and marked; the files before it are whole, and none follows. */
  lemma {:induction false} PackedCut(before: seq<File>, f: File, after: seq<File>, used: nat, budget: int)
    requires used + |Body(before)| <= budget
    requires used + |Body(before)| + |"\n--- file: " + f.path + " ---\n" + f.content + "\n"| > budget
    ensures var left := budget - used - |Body(before)|;
            Packed(before + [f] + after, used, budget)
            == Body(before) + if left > 200 then
                                ("\n--- file: " + f.path + " ---\n" + f.content + "\n")[..left] + "\n[truncated]\n"
                              else ""
  {
    var all := before + [f] + after;
    if before == [] {
      assert all[0] == f;
      ChunkIs(f);
    } else {
      assert all[0] == before[0] && all[1..] == before[1..] + [f] + after;
      PackedCut(before[1..], f, after, used + |Chunk(before[0])|, budget);
    }
  }

  lemma {:induction false} ChunkIs(f: File)
    ensures Chunk(f) == "\n--- file: " + f.path + " ---\n" + f.content + "\n"
  {
    assert OPENING == "--- file: " && CLOSING == " ---";
    assert "\n" + OPENING == "\n--- file: ";
    assert CLOSING + "\n" == " ---\n";
  }

  /** Every file in a section of its own: a marker line with its path, and its content. */
  lemma {:induction false} BodyIs(f: File, more: seq<File>)
    ensures Body([]) == ""
    ensures Body([f] + more) == "\n--- file: " + f.path + " ---\n" + f.content + "\n" + Body(more)
  {
    ChunkIs(f);
    assert ([f] + more)[1..] == more;
  }

  lemma {:induction false} Associate(a: string, b: string, c: string)
    ensures (a + b) + c == a + (b + c)
  {
  }

  /** `build_code_prompt`. */
  method BuildCodePrompt(w: Wording, task: string, spec: Spec, budget: int) returns (prompt: string)
    ensures prompt == Built(Header(w, task, spec), spec.files, budget)
  {
    var header := Header(w, task, spec);
    var body := PackFiles(spec.files, |header|, budget);
    prompt := header + body;
  }

  function Built(header: string, files: seq<File>, budget: int): string
  {
    header + Packed(files, |header|, budget)
  }

  method PackFiles(files: seq<File>, start: nat, budget: int) returns (body: string)
    ensures body == Packed(files, start, budget)
  {
    body := "";
    var used: nat := start;
    var k := 0;
    ghost var todo := Packed(files, start, budget);
    ghost var whole := todo;
    assert files[0..] == files;
    while k < |files|
      invariant k <= |files|
      invariant todo == Packed(files[k..], used, budget)
      invariant body + todo == whole
    {
      assert files[k..][0] == files[k] && files[k..][1..] == files[k + 1..];
      var chunk := Chunk(files[k]);
      if used + |chunk| > budget {
        if budget - used > 200 {
          body := body + (chunk[..budget - used] + "\n[truncated]\n");
        }
        return;
      }
      ghost var more := Packed(files[k + 1..], used + |chunk|, budget);
      Associate(body, chunk, more);
      todo := more;
      body := body + chunk;
      used := used + |chunk|;
      k := k + 1;
    }
  }

  // ------------------------------------------------------------------------- reading

  /** `splitlines()`. */
  function PlainLines(s: string): seq<string>
  {
    if s == "" then []
    else if s[0] == '\n' then [""] + PlainLines(s[1..])
    else
      var rest := PlainLines(s[1..]);
      if rest == [] then [[s[0]]] else [[s[0]] + rest[0]] + rest[1..]
  }

  /** `"\n".join(lines)`. */
  function JoinedLines(lines: seq<string>): string
  {
    if lines == [] then ""
    else if |lines| == 1 then lines[0]
    else lines[0] + "\n" + JoinedLines(lines[1..])
  }

  predicate IsMarker(line: string)
  {
    OPENING <= line && |line| >= |CLOSING| && line[|line| - |CLOSING|..] == CLOSING
  }

  /** What stands between the two ends of a marker; they may overlap. */
  function PathIn(line: string): string
    requires IsMarker(line)
  {
    if |line| < |OPENING| + |CLOSING| then "" else line[|OPENING|..|line| - |CLOSING|]
  }

  /** `strip("\n")`, and one newline at the end. */
  function Normal(content: string): string
  {
    RStripBreaks(LStripBreaks(content)) + "\n"
  }

  /** The files read so far, the file being read, and its lines. */
  datatype Reader = Reader(files: map<string, string>, cur: Option<string>, buf: seq<string>)

  function Closed(r: Reader): map<string, string>
  {
    if r.cur.Some? then r.files[r.cur.value := Normal(JoinedLines(r.buf))] else r.files
  }

  function Read(r: Reader, line: string): Reader
  {
    if IsMarker(line) then Reader(Closed(r), Some(PathIn(line)), [])
    else if r.cur.Some? then r.(buf := r.buf + [line])
    else r
  }

  function ReadAll(r: Reader, lines: seq<string>): Reader
  {
    if lines == [] then r else Read(ReadAll(r, lines[..|lines| - 1]), lines[|lines| - 1])
  }

  const FRESH: Reader := Reader(map[], None, [])

  function Snapshot(prompt: string): map<string, string>
  {
    Closed(ReadAll(FRESH, PlainLines(prompt)))
  }

  /** `_snapshot_from_prompt`. */
  method SnapshotFromPrompt(prompt: string) returns (files: map<string, string>)
    ensures files == Snapshot(prompt)
  {
    files := map[];
    var cur: Option<string>, buf: seq<string> := None, [];
    var lines := PlainLines(prompt);
    for k := 0 to |lines|
      invariant Reader(files, cur, buf) == ReadAll(FRESH, lines[..k])
    {
      assert lines[..k + 1][..k] == lines[..k] && lines[..k + 1][k] == lines[k];
      var line := lines[k];
      if IsMarker(line) {
        if cur.Some? {
          files := files[cur.value := Normal(JoinedLines(buf))];
        }
        cur, buf := Some(PathIn(line)), [];
      } else if cur.Some? {
        buf := buf + [line];
      }
    }
    assert lines[..|lines|] == lines;
    if cur.Some? {
      files := files[cur.value := Normal(JoinedLines(buf))];
    }
  }
}
