/** How far the streaming promises go: each bound of the splitter, shown to be exact. */
module ThinkLimits {
  import opened Text
  import opened TextSearch
  import opened Think
  import opened ThinkStreams

  // ------------------------------------------------------------ simple test texts

  function Filler(n: nat): (s: string)
    ensures |s| == n && forall k :: 0 <= k < n ==> s[k] == 'x'
  {
    seq(n, k => 'x')
  }

  lemma {:induction false} PlainHead(text: string)
    requires text != "" && !IsSpace(text[0])
    ensures LStrip(text) == text
  {
  }

  /** A tag is found after text that has no '<'. */
  lemma {:induction false} FoundAfter(head: string, tail: string)
    requires '<' !in head
    ensures Find(head + CLOSE + tail, CLOSE) == Some(|head|)
  {
    var text := head + CLOSE + tail;
    if head == "" {
      assert text == CLOSE + tail;
      assert CLOSE <= text;
    } else {
      assert text[1..] == head[1..] + CLOSE + tail;
      assert text[0] in head && CLOSE[0] == '<';
      FoundAfter(head[1..], tail);
    }
  }

  lemma {:induction false} NotOpening(text: string)
    requires text != "" && text[0] != '<' && !IsSpace(text[0])
    ensures !Opens(text) && LStrip(text) == text
  {
    assert OPEN[0] == '<';
  }

  /** A single feed, with no family named. */
  function Once(n: nat): seq<Feed>
  {
    [Feed("", n)]
  }

  lemma {:induction false} OneCut(hint: Option<bool>, text: string, n: nat, hold: nat)
    requires n <= |text|
    ensures Growing(text, Once(n))
    ensures Streaming(hint, text, Once(n), hold) == Feeding(Start(hint), "", text[..n], false, hold)
    ensures HintAfter(hint, Once(n)) == hint
  {
    assert Once(n)[..0] == [];
    assert HintAfter(hint, []) == hint;
  }

  /** No family is named between the feeds. */
  predicate Unnamed(feeds: seq<Feed>)
  {
    forall k :: 0 <= k < |feeds| ==> feeds[k].family == ""
  }

  lemma {:induction false} UnnamedHint(hint: Option<bool>, feeds: seq<Feed>)
    requires Unnamed(feeds)
    ensures HintAfter(hint, feeds) == hint
  {
    if feeds != [] {
      UnnamedHint(hint, feeds[..|feeds| - 1]);
    }
  }

  lemma {:induction false} UnnamedInTime(hint: Option<bool>, text: string, feeds: seq<Feed>)
    requires Unnamed(feeds) && InTime(hint, text)
    ensures AlwaysInTime(hint, text, feeds)
  {
    forall k | 0 < k <= |feeds| ensures InTime(HintAfter(hint, feeds[..k]), text) {
      UnnamedHint(hint, feeds[..k]);
    }
  }

  // ------------------------------------------------------------ how much to withhold

  /** Withholding this much, a reasoning stream never sends more than the reasoning. */
  ghost predicate HoldsEnough(hold: nat)
  {
    forall text: string, feeds: seq<Feed> ::
      Growing(text, feeds) && Find(text, CLOSE).Some? && !Opens(text)
      ==> Streamed(Some(true), text, feeds, "", hold).reasoning == AllReasoning(text)
  }

  lemma {:induction false} LeaksClose(hold: nat, text: string)
    requires hold < HOLD && text == "x" + CLOSE + ""
    ensures Growing(text, Once(8)) && Find(text, CLOSE).Some? && !Opens(text)
    ensures Streamed(Some(true), text, Once(8), "", hold).reasoning != AllReasoning(text)
  {
    FoundAfter("x", "");
    NotOpening(text);
    OneCut(Some(true), text, 8, hold);
    FindInPrefix(text, 8, CLOSE);
    NotOpening(text[..8]);
    var first := Fed(State(Some(true), Sniffing, 0, 0), text[..8], false, hold);
    NotOpening(Held(text[..8], hold));
    assert first.1.reasoning == Held(text[..8], hold);
    assert |first.1.reasoning| >= 2;
    NotOpening(text[..1]);
    assert AllReasoning(text) == text[..1];
  }

  /** The seven characters withheld are just enough. */
  lemma {:induction false} HoldIff(hold: nat)
    ensures HoldsEnough(hold) <==> hold >= 7
  {
    if hold >= HOLD {
      forall text: string, feeds: seq<Feed> | Growing(text, feeds) && Find(text, CLOSE).Some? && !Opens(text)
        ensures Streamed(Some(true), text, feeds, "", hold).reasoning == AllReasoning(text)
      {
        KnownInTime(text, feeds);
        TameUnopened(Some(true), text, feeds, hold);
        StreamedReasoning(Some(true), text, feeds, "", hold);
      }
    } else {
      LeaksClose(hold, "x" + CLOSE + "");
    }
  }

  // ------------------------------------------------- a leading tag, partly shown

  /** A sniffing splitter that is fed `n` characters of a text with `b` blanks and an
      opening tag in front takes to reasoning: the tag is all there, or there are only
      blanks yet and the model is known to reason. */
  predicate Locks(hint: Option<bool>, b: nat, n: nat)
  {
    b + 7 <= n || (hint == Some(true) && n <= b)
  }

  /** More than is withheld is in, but blanks and tag are not all beyond it. */
  predicate Shows(b: nat, n: nat)
  {
    7 < n < b + 14
  }

  predicate LockedBy(hint: Option<bool>, b: nat, feeds: seq<Feed>)
  {
    feeds != [] && (LockedBy(hint, b, feeds[..|feeds| - 1]) || Locks(hint, b, feeds[|feeds| - 1].upTo))
  }

  /** Some feed shows blanks or part of the tag, when it or an earlier one has locked
      the splitter. */
  predicate Leaky(hint: Option<bool>, b: nat, feeds: seq<Feed>)
  {
    feeds != []
    && (Leaky(hint, b, feeds[..|feeds| - 1])
        || (LockedBy(hint, b, feeds) && Shows(b, feeds[|feeds| - 1].upTo)))
  }

  /** Texts with `b` blanks and an opening tag in front, and a close tag in time. */
  predicate Fronted(hint: Option<bool>, text: string, b: nat)
  {
    Opens(text) && Blanks(text) == b && Find(text, CLOSE).Some? && InTime(hint, text)
  }

  /** Whatever such a text says, these feeds send its reasoning exactly. */
  ghost predicate SafeFeeds(hint: Option<bool>, b: nat, feeds: seq<Feed>)
  {
    forall text: string :: Growing(text, feeds) && Fronted(hint, text, b)
      ==> Streamed(hint, text, feeds, "", HOLD).reasoning == AllReasoning(text)
  }

  lemma {:induction false} LockIs(hint: Option<bool>, s: State, text: string, b: nat, n: nat)
    requires hint == Some(true) || hint.None?
    requires Fronted(hint, text, b) && n <= |text| && s.hint == hint && !s.mode.Content?
    ensures Lock(s, text[..n], false) == if s.mode.Reasoning? || Locks(hint, b, n) then Reasoning else Sniffing
  {
    OpensFor(text, n);
    CloseAfterOpen(text);
    FindInPrefix(text, n, CLOSE);
    LStripIs(text);
    if b < n < b + |OPEN| {
      assert text[..n][b..] == text[b..][..n - b];
    }
  }

  /** The mode of the stream is a matter of lengths alone. */
  lemma {:induction false} ModeIs(hint: Option<bool>, text: string, b: nat, feeds: seq<Feed>)
    requires hint == Some(true) || hint.None?
    requires Growing(text, feeds) && Unnamed(feeds) && Fronted(hint, text, b)
    ensures Streaming(hint, text, feeds, HOLD).state.hint == hint
    ensures Streaming(hint, text, feeds, HOLD).state.mode == if LockedBy(hint, b, feeds) then Reasoning else Sniffing
  {
    if feeds != [] {
      var init, last := feeds[..|feeds| - 1], feeds[|feeds| - 1];
      GrowingInit(text, feeds);
      ModeIs(hint, text, b, init);
      var s := Streaming(hint, text, init, HOLD).state;
      assert Named(s, "") == s;
      LockIs(hint, s, text, b, last.upTo);
    }
  }

  lemma {:induction false} LeakyPrefix(hint: Option<bool>, b: nat, feeds: seq<Feed>, k: nat)
    requires !Leaky(hint, b, feeds) && 0 < k <= |feeds|
    ensures !LockedBy(hint, b, feeds[..k]) || !Shows(b, feeds[k - 1].upTo)
  {
    if k == |feeds| {
      assert feeds[..k] == feeds;
    } else {
      LeakyPrefix(hint, b, feeds[..|feeds| - 1], k);
      assert feeds[..|feeds| - 1][..k] == feeds[..k];
    }
  }

  lemma {:induction false} SafeWhenTight(hint: Option<bool>, text: string, b: nat, feeds: seq<Feed>)
    requires hint == Some(true) || hint.None?
    requires Growing(text, feeds) && Unnamed(feeds) && Fronted(hint, text, b) && !Leaky(hint, b, feeds)
    ensures Streamed(hint, text, feeds, "", HOLD).reasoning == AllReasoning(text)
  {
    forall k | 0 <= k < |feeds|
      ensures Tame(text, feeds[k].upTo, HOLD)
              || (Growing(text, feeds[..k + 1]) && Streaming(hint, text, feeds[..k + 1], HOLD).state.mode.Sniffing?)
    {
      LeakyPrefix(hint, b, feeds, k + 1);
      ModeIs(hint, text, b, feeds[..k + 1]);
    }
    UnnamedInTime(hint, text, feeds);
    StreamedReasoning(hint, text, feeds, "", HOLD);
  }

  /** Until something leaks, and while too little is in for anything else, nothing is
      sent. */
  lemma {:induction false} SilentSoFar(hint: Option<bool>, text: string, b: nat, feeds: seq<Feed>)
    requires hint == Some(true) || hint.None?
    requires Growing(text, feeds) && Unnamed(feeds) && Fronted(hint, text, b) && !Leaky(hint, b, feeds)
    requires LastCut(feeds) < b + HOLD + |OPEN|
    ensures Streaming(hint, text, feeds, HOLD).parts.reasoning == ""
    ensures Streaming(hint, text, feeds, HOLD).state.rSent == 0
  {
    if feeds != [] {
      var init, last := feeds[..|feeds| - 1], feeds[|feeds| - 1];
      GrowingInit(text, feeds);
      SilentSoFar(hint, text, b, init);
      ModeIs(hint, text, b, init);
      var s := Streaming(hint, text, init, HOLD).state;
      assert Named(s, "") == s;
      LockIs(hint, s, text, b, last.upTo);
      if LockedBy(hint, b, feeds) {
        FedReasoning(s, text, last.upTo, HOLD);
        EarlyReasoning(text, b, last.upTo);
      } else {
        FedSniffing(s, text, last.upTo, HOLD);
      }
    }
  }

  /** As long as the tag is not all shown, what is shown counts as reasoning. */
  lemma {:induction false} EarlyReasoning(text: string, b: nat, n: nat)
    requires Opens(text) && Blanks(text) == b && Find(text, CLOSE).Some? && n <= |text| && n < b + HOLD + |OPEN|
    ensures ReasoningAt(text, n, HOLD) == text[..if n >= HOLD then n - HOLD else 0]
  {
    CloseAfterOpen(text);
    ReasoningShown(text, n, HOLD);
    OpensFor(text, Shown(text, n, HOLD));
  }

  lemma {:induction false} SendsWhenLeaky(hint: Option<bool>, text: string, b: nat, feeds: seq<Feed>)
    requires hint == Some(true) || hint.None?
    requires Growing(text, feeds) && Unnamed(feeds) && Fronted(hint, text, b) && Leaky(hint, b, feeds)
    ensures Streaming(hint, text, feeds, HOLD).parts.reasoning != ""
  {
    var init, last := feeds[..|feeds| - 1], feeds[|feeds| - 1];
    GrowingInit(text, feeds);
    if Leaky(hint, b, init) {
      SendsWhenLeaky(hint, text, b, init);
    } else {
      SilentSoFar(hint, text, b, init);
      ModeIs(hint, text, b, init);
      var s := Streaming(hint, text, init, HOLD).state;
      assert Named(s, "") == s;
      LockIs(hint, s, text, b, last.upTo);
      FedReasoning(s, text, last.upTo, HOLD);
      EarlyReasoning(text, b, last.upTo);
    }
  }

  function Spaces(n: nat): (s: string)
    ensures |s| == n && forall k :: 0 <= k < n ==> s[k] == ' '
  {
    seq(n, k => ' ')
  }

  lemma {:induction false} BlanksOf(b: nat, rest: string)
    requires rest != "" && !IsSpace(rest[0])
    ensures Blanks(Spaces(b) + rest) == b && LStrip(Spaces(b) + rest) == rest
  {
    if b == 0 {
      assert Spaces(b) + rest == rest;
    } else {
      assert (Spaces(b) + rest)[1..] == Spaces(b - 1) + rest;
      BlanksOf(b - 1, rest);
    }
  }

  lemma {:induction false} FoundLater(c: char, tail: string, text: string, k: nat)
    requires c != '<' && text == [c] + tail && Find(tail, CLOSE) == Some(k)
    ensures Find(text, CLOSE) == Some(k + 1)
  {
    assert text[1..] == tail;
    assert CLOSE[0] == '<';
  }

  lemma {:induction false} FoundBehind(blanks: string, tail: string, text: string, k: nat)
    requires '<' !in blanks && text == blanks + tail && Find(tail, CLOSE) == Some(k)
    ensures Find(text, CLOSE) == Some(|blanks| + k)
  {
    if blanks == "" {
      assert text == tail;
    } else {
      FoundBehind(blanks[1..], tail, blanks[1..] + tail, k);
      assert text == [blanks[0]] + (blanks[1..] + tail);
      FoundLater(blanks[0], blanks[1..] + tail, text, |blanks| - 1 + k);
    }
  }

  lemma {:induction false} FoundInside(rest: string, tail: string)
    requires tail == OPEN + CLOSE + rest
    ensures Find(tail, CLOSE) == Some(|OPEN|)
  {
    FoundAfter(OPEN[1..], rest);
    assert tail[1..] == OPEN[1..] + CLOSE + rest;
    assert tail[1] != CLOSE[1];
    assert !(CLOSE <= tail);
  }

  /** Blanks, both tags with nothing between them, and `n` characters of an answer. */
  lemma {:induction false} Thoughtless(b: nat, n: nat) returns (text: string)
    ensures |text| >= n && Opens(text) && Blanks(text) == b
    ensures Find(text, CLOSE) == Some(b + |OPEN|) && AllReasoning(text) == ""
  {
    var tail := OPEN + CLOSE + Filler(n);
    text := Spaces(b) + tail;
    BlanksOf(b, tail);
    FoundInside(Filler(n), tail);
    FoundBehind(Spaces(b), tail, text, |OPEN|);
    StripClear(text, b + |OPEN|);
    assert text[b + |OPEN|..b + |OPEN|] == "";
  }

  /** The lengths of the feeds alone decide whether blanks before an opening tag, or
      part of the tag, are ever sent as reasoning: exactly when some feed shows them
      while the splitter has been locked by it or before. Without blanks, and for a
      model that is known to reason, that is a feed of eight to thirteen characters. */
  lemma {:induction false} SafeFeedsIff(hint: Option<bool>, b: nat, feeds: seq<Feed>)
    requires hint == Some(true) || (hint.None? && b + 15 <= 256)
    requires Unnamed(feeds) && forall j, k :: 0 <= j < k < |feeds| ==> feeds[j].upTo <= feeds[k].upTo
    ensures SafeFeeds(hint, b, feeds) <==> !Leaky(hint, b, feeds)
  {
    if Leaky(hint, b, feeds) {
      var text := Thoughtless(b, LastCut(feeds));
      assert Growing(text, feeds) && Fronted(hint, text, b);
      SendsWhenLeaky(hint, text, b, feeds);
      assert Streamed(hint, text, feeds, "", HOLD).reasoning != "";
    } else {
      forall text: string | Growing(text, feeds) && Fronted(hint, text, b)
        ensures Streamed(hint, text, feeds, "", HOLD).reasoning == AllReasoning(text)
      {
        SafeWhenTight(hint, text, b, feeds);
      }
    }
  }

  /** So a single feed is unsafe when it has more than seven blanks and nothing else, or
      the tag and less than seven characters behind it. */
  lemma {:induction false} SafeLengthIff(b: nat, n: nat)
    ensures SafeFeeds(Some(true), b, Once(n)) <==> !(7 < n && (n <= b || b + 7 <= n < b + 14))
  {
    SafeFeedsIff(Some(true), b, Once(n));
    assert Once(n)[..0] == [];
    assert !Leaky(Some(true), b, []) && !LockedBy(Some(true), b, []);
  }

  // ---------------------------------------------------------- how long to sniff

  /** With this hint, a close tag that ends here keeps streams and batch in agreement. */
  ghost predicate Agrees(hint: Option<bool>, end: nat)
  {
    forall text: string, feeds: seq<Feed> ::
      Growing(text, feeds) && Unnamed(feeds) && Find(text, CLOSE).Some? && Find(text, CLOSE).value + |CLOSE| == end
      ==> Streamed(hint, text, feeds, "", HOLD).content == SplitThink(text).content
  }

  lemma {:induction false} StripTagsKeepsEnd(text: string)
    requires text != "" && text[|text| - 1] == '\n'
    ensures StripTags(text, true, HOLD) != ""
  {
    RemoveKeepsLast(text, OPEN, '\n');
    RemoveKeepsLast(RemoveAll(text, OPEN), CLOSE, '\n');
  }

  lemma {:induction false} DeltaCovers(sent: string, total: string)
    ensures |sent + Delta(total, |sent|)| >= |total|
  {
  }

  /** Locked to content by a first feed, a stream sends at least what is left of the
      text without its tags. */
  lemma {:induction false} ContentLocked(hint: Option<bool>, text: string, n: nat)
    requires n <= |text| && Lock(State(hint, Sniffing, 0, 0), text[..n], false).Content?
    requires text != "" && text[|text| - 1] == '\n'
    ensures Growing(text, Once(n)) && Unnamed(Once(n)) && Streamed(hint, text, Once(n), "", HOLD).content != ""
  {
    OneCut(hint, text, n, HOLD);
    var sent := Streaming(hint, text, Once(n), HOLD);
    assert sent.state.mode.Content?;
    assert sent.parts.content == "" + Delta(StripTags(text[..n], false, HOLD), 0);
    assert |sent.parts.content| == sent.state.cSent;
    DeltaCovers(sent.parts.content, StripTags(text, true, HOLD));
    StripTagsKeepsEnd(text);
  }

  lemma {:induction false} LateText(end: nat) returns (text: string)
    requires end >= |CLOSE|
    ensures |text| == end + 1 && text[end] == '\n' && Find(text, CLOSE) == Some(end - |CLOSE|)
    ensures end > |CLOSE| ==> text[0] == 'x'
    ensures end == |CLOSE| ==> text[0] == '<' && text[1] == '/'
    ensures SplitThink(text).content == ""
  {
    text := Filler(end - |CLOSE|) + CLOSE + "\n";
    FoundAfter(Filler(end - |CLOSE|), "\n");
    assert text[end..] == "\n";
    assert LStripBreaks("\n") == LStripBreaks("\n"[1..]);
  }

  lemma {:induction false} LateUnhinted(end: nat)
    requires end > SNIFF_CHARS
    ensures !Agrees(None, end)
  {
    var text := LateText(end);
    var part := text[..SNIFF_CHARS];
    FindInPrefix(text, SNIFF_CHARS, CLOSE);
    NotOpening(part);
    assert Lock(State(None, Sniffing, 0, 0), part, false).Content?;
    ContentLocked(None, text, SNIFF_CHARS);
  }

  lemma {:induction false} LocksHinted(part: string)
    requires |part| == 2 && (part[0] == 'x' || (part[0] == '<' && part[1] == '/'))
    requires Find(part, CLOSE).None?
    ensures Lock(State(Some(false), Sniffing, 0, 0), part, false).Content?
  {
    PlainHead(part);
    assert OPEN[0] != 'x' && OPEN[1] != '/';
  }

  lemma {:induction false} HintedContent(end: nat)
    requires end >= |CLOSE|
    ensures !Agrees(Some(false), end)
  {
    var text := LateText(end);
    FindInPrefix(text, 2, CLOSE);
    LocksHinted(text[..2]);
    ContentLocked(Some(false), text, 2);
  }

  /** Streamed and batch content agree on every text and every cutting exactly when
      the model is known to reason, or is not known and the close tag ends within the
      sniffing window. */
  lemma {:induction false} AgreesIff(hint: Option<bool>, end: nat)
    requires end >= 8
    ensures Agrees(hint, end) <==> hint == Some(true) || (hint.None? && end <= 256)
  {
    if hint == Some(true) || (hint.None? && end <= SNIFF_CHARS) {
      forall text: string, feeds: seq<Feed> |
        Growing(text, feeds) && Unnamed(feeds) && Find(text, CLOSE).Some? && Find(text, CLOSE).value + |CLOSE| == end
        ensures Streamed(hint, text, feeds, "", HOLD).content == SplitThink(text).content
      {
        UnnamedInTime(hint, text, feeds);
        StreamedContent(hint, text, feeds, "", HOLD);
      }
    } else if hint.None? {
      LateUnhinted(end);
    } else {
      assert hint == Some(hint.value) && !hint.value;
      HintedContent(end);
    }
  }

  // ------------------------------------------------------------------ plain answers

  predicate TagFree(text: string)
  {
    Find(text, OPEN).None? && Find(text, CLOSE).None?
  }

  /** However it is cut up, the text is streamed as it is. */
  ghost predicate StreamsAsIs(hint: Option<bool>, text: string)
  {
    forall feeds: seq<Feed> :: Growing(text, feeds) && Unnamed(feeds)
      ==> Streamed(hint, text, feeds, "", HOLD) == Parts("", text)
  }

  lemma {:induction false} TagFreePrefix(text: string, n: nat)
    requires n <= |text| && TagFree(text)
    ensures TagFree(text[..n]) && !Opens(text[..n])
  {
    FindInPrefix(text, n, OPEN);
    FindInPrefix(text, n, CLOSE);
    if Opens(text[..n]) {
      LeadingFound(text[..n], OPEN);
    }
  }

  lemma {:induction false} TagFreeStrips(text: string)
    requires TagFree(text)
    ensures RemoveAll(RemoveAll(text, OPEN), CLOSE) == text
  {
    RemoveNone(text, OPEN);
    RemoveNone(text, CLOSE);
  }

  predicate PlainInv(sent: Sent, hint: Option<bool>, text: string, n: nat)
    requires n <= |text|
  {
    && !sent.state.mode.Reasoning? && sent.state.hint == hint
    && sent.parts == Parts("", if sent.state.mode.Sniffing? then "" else Held(text[..n], HOLD))
    && sent.state.cSent == |sent.parts.content|
  }

  lemma {:induction false} PlainFeed(s: State, text: string, done: bool)
    requires TagFree(text) && !Opens(text) && !s.mode.Reasoning? && s.hint != Some(true)
    ensures !Lock(s, text, done).Reasoning?
    ensures s.mode.Content? ==> Lock(s, text, done).Content?
    ensures done ==> Lock(s, text, done).Content?
    ensures Lock(s, text, done).Content? ==>
              var total := if done then text else Held(text, HOLD);
              Fed(s, text, done, HOLD) == (s.(mode := Content, cSent := |total|), Parts("", Delta(total, s.cSent)))
    ensures Lock(s, text, done).Sniffing? ==> Fed(s, text, done, HOLD) == (s, Parts("", ""))
  {
    if Lock(s, text, done).Content? {
      var total := if done then text else Held(text, HOLD);
      TagFreePrefix(text, |total|);
      assert text[..|total|] == total;
      TagFreeStrips(total);
      assert StripTags(text, done, HOLD) == total;
    }
  }

  lemma {:induction false} PlainStep(sent: Sent, hint: Option<bool>, text: string, m: nat, n: nat)
    requires m <= n <= |text| && TagFree(text) && hint != Some(true) && PlainInv(sent, hint, text, m)
    ensures PlainInv(Feeding(sent, "", text[..n], false, HOLD), hint, text, n)
  {
    TagFreePrefix(text, n);
    PlainFeed(sent.state, text[..n], false);
    HeldGrows(text[..m], text[..n], HOLD);
    DeltaAdds(sent.parts.content, Held(text[..n], HOLD));
  }

  lemma {:induction false} PlainKept(hint: Option<bool>, text: string, feeds: seq<Feed>)
    requires Growing(text, feeds) && Unnamed(feeds) && TagFree(text) && hint != Some(true)
    ensures LastCut(feeds) <= |text| && PlainInv(Streaming(hint, text, feeds, HOLD), hint, text, LastCut(feeds))
  {
    if feeds != [] {
      var init := feeds[..|feeds| - 1];
      GrowingInit(text, feeds);
      PlainKept(hint, text, init);
      PlainStep(Streaming(hint, text, init, HOLD), hint, text, LastCut(init), LastCut(feeds));
    }
  }

  lemma {:induction false} PlainStreams(hint: Option<bool>, text: string, feeds: seq<Feed>)
    requires Growing(text, feeds) && Unnamed(feeds) && TagFree(text) && hint != Some(true)
    ensures Streamed(hint, text, feeds, "", HOLD) == Parts("", text)
  {
    PlainKept(hint, text, feeds);
    TagFreePrefix(text, |text|);
    WholeText(text);
    var sent := Streaming(hint, text, feeds, HOLD);
    PlainFeed(sent.state, text, true);
    DeltaAdds(sent.parts.content, text);
  }

  /** A text with a tag is not streamed as it is, not even in one piece. */
  lemma {:induction false} TaggedChanges(hint: Option<bool>, text: string)
    requires hint != Some(true) && !TagFree(text)
    ensures Growing(text, []) && Unnamed([]) && |Streamed(hint, text, [], "", HOLD).content| < |text|
  {
    var s := State(hint, Sniffing, 0, 0);
    if Lock(s, text, true).Content? {
      RemoveShortens(text, OPEN);
      RemoveShortens(RemoveAll(text, OPEN), CLOSE);
      RemoveNoneOr(text);
    } else if Find(text, CLOSE).Some? {
      var tail := text[Find(text, CLOSE).value + |CLOSE|..];
      assert |LStripBreaks(tail)| <= |tail| < |text|;
    } else {
      assert Opens(text);
      assert |text| >= |OPEN|;
    }
  }

  lemma {:induction false} RemoveNoneOr(text: string)
    ensures Find(text, OPEN).None? ==> RemoveAll(text, OPEN) == text
  {
    if Find(text, OPEN).None? {
      RemoveNone(text, OPEN);
    }
  }

  /** Unless the model is known to reason, a text comes through unchanged under every
      cutting exactly when it has no tag; and that is what the batch form makes of it. */
  lemma {:induction false} StreamsAsIsIff(hint: Option<bool>, text: string)
    requires hint != Some(true)
    ensures StreamsAsIs(hint, text) <==> TagFree(text)
    ensures TagFree(text) ==> SplitThink(text) == Parts("", text)
  {
    if TagFree(text) {
      forall feeds: seq<Feed> | Growing(text, feeds) && Unnamed(feeds)
        ensures Streamed(hint, text, feeds, "", HOLD) == Parts("", text)
      {
        PlainStreams(hint, text, feeds);
      }
      TagFreePrefix(text, |text|);
      WholeText(text);
    } else {
      TaggedChanges(hint, text);
    }
  }
}
