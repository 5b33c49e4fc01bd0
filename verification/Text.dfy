/** Strings as the scheduler handles them: lines, the newline-stripping helpers,
    and substring search. The only line break modelled is '\n'. */
module Text {

  datatype Option<+T> = None | Some(value: T)

  // ---------------------------------------------------------------- lines

  /** `str.splitlines(keepends=True)`: every line keeps its newline; only the
      last one may lack it. */
  function SplitLines(s: string): (lines: seq<string>)
  {
    if s == "" then []
    else if s[0] == '\n' then ["\n"] + SplitLines(s[1..])
    else
      var rest := SplitLines(s[1..]);
      if rest == [] then [[s[0]]] else [[s[0]] + rest[0]] + rest[1..]
  }

  /** `"".join(lines)`. */
  function Join(lines: seq<string>): (s: string)
  {
    if lines == [] then "" else lines[0] + Join(lines[1..])
  }

  /** A complete line: no newline except the one that ends it. */
  predicate IsLine(l: string)
  {
    l != "" && l[|l| - 1] == '\n' && forall k :: 0 <= k < |l| - 1 ==> l[k] != '\n'
  }

  predicate AllLines(lines: seq<string>)
  {
    forall k :: 0 <= k < |lines| ==> IsLine(lines[k])
  }

  /** Every line of `s` is newline-terminated. */
  predicate Terminated(s: string)
  {
    s == "" || s[|s| - 1] == '\n'
  }

  lemma {:induction false} JoinSplit(s: string)
    ensures Join(SplitLines(s)) == s
  {
    if s != "" {
      JoinSplit(s[1..]);
      var rest := SplitLines(s[1..]);
      assert s == [s[0]] + s[1..];
      if s[0] != '\n' && rest != [] {
        assert SplitLines(s)[1..] == rest[1..];
      }
    }
  }

  lemma {:induction false} JoinAppend(a: seq<string>, b: seq<string>)
    ensures Join(a + b) == Join(a) + Join(b)
  {
    if a == [] {
      assert a + b == b;
    } else {
      JoinAppend(a[1..], b);
      assert (a + b)[1..] == a[1..] + b;
    }
  }

  lemma {:induction false} JoinMiddle(lines: seq<string>, l: string, added: seq<string>)
    ensures Join(lines + [l] + added) == Join(lines) + (l + Join(added))
  {
    assert lines + [l] + added == lines + ([l] + added);
    JoinAppend(lines, [l] + added);
    assert ([l] + added)[1..] == added;
  }

  lemma {:induction false} JoinLast(lines: seq<string>, last: string)
    ensures Join(lines + [last]) == Join(lines) + last
  {
    JoinAppend(lines, [last]);
    assert Join([last]) == last + Join([]) == last;
  }

  /** A complete line in front of a text is split off as it is. */
  lemma {:induction false} SplitCons(l: string, s: string)
    requires IsLine(l)
    ensures SplitLines(l + s) == [l] + SplitLines(s)
    decreases |l|
  {
    if |l| == 1 {
      assert l == "\n" && (l + s)[1..] == s;
    } else {
      var tail := l[1..];
      assert IsLine(tail);
      assert (l + s)[1..] == tail + s;
      SplitCons(tail, s);
      assert SplitLines(l + s) == [[l[0]] + tail] + SplitLines(s);
      assert [l[0]] + tail == l;
    }
  }

  lemma {:induction false} SplitJoin(lines: seq<string>)
    requires AllLines(lines)
    ensures SplitLines(Join(lines)) == lines
  {
    if lines != [] {
      SplitJoin(lines[1..]);
      SplitCons(lines[0], Join(lines[1..]));
    }
  }

  lemma {:induction false} SplitTerminated(s: string)
    requires Terminated(s)
    ensures AllLines(SplitLines(s))
  {
    if s != "" {
      if |s| > 1 { assert s[1..][|s[1..]| - 1] == s[|s| - 1]; }
      SplitTerminated(s[1..]);
    }
  }

  lemma {:induction false} JoinTerminated(lines: seq<string>)
    requires AllLines(lines)
    ensures Terminated(Join(lines))
  {
    if lines != [] { JoinTerminated(lines[1..]); }
  }

  predicate NoBreak(l: string)
  {
    l != "" && forall k :: 0 <= k < |l| ==> l[k] != '\n'
  }

  lemma {:induction false} SplitPlain(l: string)
    requires NoBreak(l)
    ensures SplitLines(l) == [l]
  {
    if |l| > 1 {
      SplitPlain(l[1..]);
      assert l == [l[0]] + l[1..];
    } else {
      assert l[1..] == "" && l == [l[0]];
    }
  }

  /** Complete lines followed by an unterminated one are split off as they are. */
  lemma {:induction false} SplitLoose(lines: seq<string>, l: string)
    requires AllLines(lines) && NoBreak(l)
    ensures SplitLines(Join(lines) + l) == lines + [l]
  {
    if lines == [] {
      assert Join(lines) + l == l;
      SplitPlain(l);
    } else {
      SplitLoose(lines[1..], l);
      SplitCons(lines[0], Join(lines[1..]) + l);
      assert Join(lines) + l == lines[0] + (Join(lines[1..]) + l);
    }
  }

  /** Whole lines, and a last one that lacks its newline. */
  predicate Loose(lines: seq<string>)
  {
    lines != [] && AllLines(lines[..|lines| - 1]) && NoBreak(lines[|lines| - 1])
  }

  lemma {:induction false} LooseCons(l: string, rest: seq<string>, lines: seq<string>)
    requires IsLine(l) && Loose(rest) && lines == [l] + rest
    ensures Loose(lines)
  {
    assert lines[..|lines| - 1] == [l] + rest[..|rest| - 1];
  }

  lemma {:induction false} LooseFirst(c: char, rest: seq<string>, lines: seq<string>)
    requires c != '\n' && Loose(rest) && lines == [[c] + rest[0]] + rest[1..]
    ensures Loose(lines)
  {
    var last := |rest| - 1;
    if last > 0 {
      assert rest[0] == rest[..last][0];
      assert lines[..last] == [[c] + rest[0]] + rest[..last][1..];
    }
  }

  /** The lines of a text whose last line lacks its newline. */
  lemma {:induction false} SplitUnterminated(s: string)
    requires !Terminated(s)
    ensures Loose(SplitLines(s))
  {
    var tail := s[1..];
    if tail == "" {
      assert SplitLines(tail) == [];
      assert SplitLines(s) == [[s[0]]];
    } else {
      assert tail[|tail| - 1] == s[|s| - 1];
      SplitUnterminated(tail);
      if s[0] == '\n' {
        LooseCons("\n", SplitLines(tail), SplitLines(s));
      } else {
        LooseFirst(s[0], SplitLines(tail), SplitLines(s));
      }
    }
  }

  /** An unterminated last line swallows the first line appended to it. */
  lemma {:induction false} SplitSwallows(lines: seq<string>, l: string, added: seq<string>)
    requires AllLines(lines) && NoBreak(l) && AllLines(added) && added != []
    ensures |SplitLines(Join(lines) + (l + Join(added)))| == |lines| + |added|
  {
    if lines == [] {
      var joint, rest := l + added[0], added[1..];
      assert IsLine(joint);
      assert Join(lines) + (l + Join(added)) == joint + Join(rest);
      SplitCons(joint, Join(rest));
      SplitJoin(rest);
    } else {
      var more := Join(lines[1..]) + (l + Join(added));
      assert Join(lines) + (l + Join(added)) == lines[0] + more;
      SplitCons(lines[0], more);
      SplitSwallows(lines[1..], l, added);
    }
  }

  // ------------------------------------------------------------ whitespace

  /** `str.isspace` for one character. */
  predicate IsSpace(c: char)
  {
    var n := c as int;
    9 <= n <= 13 || 28 <= n <= 32 || n == 0x85 || n == 0xA0 || n == 0x1680 || 0x2000 <= n <= 0x200A
    || n == 0x2028 || n == 0x2029 || n == 0x202F || n == 0x205F || n == 0x3000
  }

  /** `s.lstrip()`. */
  function LStrip(s: string): (r: string)
    ensures |r| <= |s|
  {
    if s != "" && IsSpace(s[0]) then LStrip(s[1..]) else s
  }

  function RStrip(s: string): (r: string)
    ensures |r| <= |s|
  {
    if s != "" && IsSpace(s[|s| - 1]) then RStrip(s[..|s| - 1]) else s
  }

  /** `s.lstrip("\n")`. */
  function LStripBreaks(s: string): (r: string)
    ensures |r| <= |s|
  {
    if s != "" && s[0] == '\n' then LStripBreaks(s[1..]) else s
  }

  function RStripBreaks(s: string): (r: string)
    ensures |r| <= |s|
  {
    if s != "" && s[|s| - 1] == '\n' then RStripBreaks(s[..|s| - 1]) else s
  }
}
