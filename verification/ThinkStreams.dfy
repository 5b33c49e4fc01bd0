/** Streaming in any pieces against splitting at once. */
module ThinkStreams {
  import opened Text
  import opened TextSearch
  import opened Think

  /** A splitter on its way, and all that it has sent. */
  datatype Sent = Sent(state: State, parts: Parts)

  function Append(a: Parts, b: Parts): Parts
  {
    Parts(a.reasoning + b.reasoning, a.content + b.content)
  }

  /** A step of the stream: the family of the node, if it has one by now, and the text
      so far. */
  datatype Feed = Feed(family: string, upTo: nat)

  function Feeding(sent: Sent, family: string, text: string, done: bool, hold: nat): Sent
  {
    var (state, parts) := Fed(Named(sent.state, family), text, done, hold);
    Sent(state, Append(sent.parts, parts))
  }

  function Start(hint: Option<bool>): Sent
  {
    Sent(State(hint, Sniffing, 0, 0), Parts("", ""))
  }

  predicate Growing(text: string, feeds: seq<Feed>)
  {
    && (forall k :: 0 <= k < |feeds| ==> feeds[k].upTo <= |text|)
    && (forall j, k :: 0 <= j < k < |feeds| ==> feeds[j].upTo <= feeds[k].upTo)
  }

  /** One feed after the other. */
  function Streaming(hint: Option<bool>, text: string, feeds: seq<Feed>, hold: nat): Sent
    requires Growing(text, feeds)
  {
    if feeds == [] then Start(hint)
    else
      var last := feeds[|feeds| - 1];
      Feeding(Streaming(hint, text, feeds[..|feeds| - 1], hold), last.family, text[..last.upTo], false, hold)
  }

  /** All that is sent of a text that was fed in pieces and then ended. */
  function Streamed(hint: Option<bool>, text: string, feeds: seq<Feed>, family: string, hold: nat): Parts
    requires Growing(text, feeds)
  {
    Feeding(Streaming(hint, text, feeds, hold), family, text, true, hold).parts
  }

  function LastCut(feeds: seq<Feed>): nat
  {
    if feeds == [] then 0 else feeds[|feeds| - 1].upTo
  }

  /** The hint that has come together by the end of `feeds`. */
  function HintAfter(hint: Option<bool>, feeds: seq<Feed>): Option<bool>
  {
    if feeds == [] then hint
    else Hinted(HintAfter(hint, feeds[..|feeds| - 1]), feeds[|feeds| - 1].family)
  }

  lemma {:induction false} GrowingInit(text: string, feeds: seq<Feed>)
    requires Growing(text, feeds) && feeds != []
    ensures Growing(text, feeds[..|feeds| - 1])
    ensures LastCut(feeds[..|feeds| - 1]) <= feeds[|feeds| - 1].upTo <= |text|
  {
  }

  // ------------------------------------------------------------------- the family

  /** Once the hints are the same, so is everything that follows. */
  lemma {:induction false} SameFeeding(a: Sent, b: Sent, family: string, text: string, done: bool, hold: nat)
    requires a.parts == b.parts && Named(a.state, family) == Named(b.state, family)
    ensures Feeding(a, family, text, done, hold) == Feeding(b, family, text, done, hold)
  {
  }

  /** A family that is named with the first feed counts as if it had been known from
      the start. */
  lemma {:induction false} NamedStreaming(text: string, feeds: seq<Feed>, hold: nat, f: string)
    requires Growing(text, feeds) && feeds != [] && feeds[0].family == f && f != ""
    ensures Streaming(None, text, feeds, hold) == Streaming(Some(IsReasoningFamily(f)), text, feeds, hold)
  {
    GrowingInit(text, feeds);
    var init, last := feeds[..|feeds| - 1], feeds[|feeds| - 1];
    var hint := Some(IsReasoningFamily(f));
    if init == [] {
      assert last == feeds[0];
      SameFeeding(Start(None), Start(hint), f, text[..last.upTo], false, hold);
    } else {
      NamedStreaming(text, init, hold, f);
    }
  }

  lemma {:induction false} NamedIsAssumed(text: string, feeds: seq<Feed>, family: string, hold: nat, f: string)
    requires Growing(text, feeds) && feeds != [] && feeds[0].family == f && f != ""
    ensures Streamed(None, text, feeds, family, hold) == Streamed(Some(IsReasoningFamily(f)), text, feeds, family, hold)
  {
    NamedStreaming(text, feeds, hold, f);
  }

  /** The same feeds, with no family named. */
  function Anonymous(feeds: seq<Feed>): (r: seq<Feed>)
    ensures |r| == |feeds|
  {
    if feeds == [] then [] else Anonymous(feeds[..|feeds| - 1]) + [Feed("", feeds[|feeds| - 1].upTo)]
  }

  lemma {:induction false} AnonymousGrows(text: string, feeds: seq<Feed>)
    requires Growing(text, feeds)
    ensures Growing(text, Anonymous(feeds))
    ensures forall k :: 0 <= k < |feeds| ==> Anonymous(feeds)[k].upTo == feeds[k].upTo
  {
    if feeds != [] {
      AnonymousGrows(text, feeds[..|feeds| - 1]);
    }
  }

  lemma {:induction false} KnownFeeding(b: bool, sent: Sent, family: string, text: string, hold: nat)
    requires sent.state.hint == Some(b)
    ensures Feeding(sent, family, text, false, hold) == Feeding(sent, "", text, false, hold)
    ensures Feeding(sent, family, text, false, hold).state.hint == Some(b)
  {
    assert Named(sent.state, family) == Named(sent.state, "") == sent.state;
  }

  /** Where the hint is known, what is named later changes nothing. */
  lemma {:induction false} KnownStreaming(b: bool, text: string, feeds: seq<Feed>, hold: nat)
    requires Growing(text, feeds)
    ensures Growing(text, Anonymous(feeds))
    ensures Streaming(Some(b), text, feeds, hold) == Streaming(Some(b), text, Anonymous(feeds), hold)
    ensures Streaming(Some(b), text, feeds, hold).state.hint == Some(b)
  {
    AnonymousGrows(text, feeds);
    if feeds != [] {
      var init, last := feeds[..|feeds| - 1], feeds[|feeds| - 1];
      GrowingInit(text, feeds);
      KnownStreaming(b, text, init, hold);
      var known := Anonymous(feeds);
      assert known[..|feeds| - 1] == Anonymous(init) && known[|feeds| - 1] == Feed("", last.upTo);
      KnownFeeding(b, Streaming(Some(b), text, init, hold), last.family, text[..last.upTo], hold);
    }
  }

  lemma {:induction false} LaterNamesIgnored(b: bool, text: string, feeds: seq<Feed>, family: string, hold: nat)
    requires Growing(text, feeds)
    ensures Growing(text, Anonymous(feeds))
    ensures Streamed(Some(b), text, feeds, family, hold) == Streamed(Some(b), text, Anonymous(feeds), "", hold)
  {
    KnownStreaming(b, text, feeds, hold);
  }

  // --------------------------------------------------------------------- the mode

  lemma {:induction false} ShortHasNoClose(text: string)
    requires |LStrip(text)| < |OPEN|
    ensures Find(text, CLOSE).None?
  {
    if Find(text, CLOSE).Some? {
      LStripKeeps(text, Find(text, CLOSE).value, CLOSE);
    }
  }

  /** The close tag comes early enough for the hint. */
  predicate InTime(hint: Option<bool>, text: string)
  {
    hint == Some(true)
    || (hint.None? && Find(text, CLOSE).Some? && Find(text, CLOSE).value + |CLOSE| <= SNIFF_CHARS)
  }

  /** So it does for every hint that a feed goes by. */
  ghost predicate AlwaysInTime(hint: Option<bool>, text: string, feeds: seq<Feed>)
  {
    forall k :: 0 < k <= |feeds| ==> InTime(HintAfter(hint, feeds[..k]), text)
  }

  lemma {:induction false} InTimeInit(hint: Option<bool>, text: string, feeds: seq<Feed>)
    requires AlwaysInTime(hint, text, feeds) && feeds != []
    ensures AlwaysInTime(hint, text, feeds[..|feeds| - 1])
    ensures InTime(Hinted(HintAfter(hint, feeds[..|feeds| - 1]), feeds[|feeds| - 1].family), text)
  {
    var init := feeds[..|feeds| - 1];
    assert feeds[..|feeds|] == feeds;
    forall k | 0 < k <= |init| ensures InTime(HintAfter(hint, init[..k]), text) {
      assert init[..k] == feeds[..k];
    }
  }

  /** Sniffing ends in reasoning, and no later than the close tag. */
  lemma {:induction false} LocksReasoning(s: State, text: string, n: nat)
    requires n <= |text| && !s.mode.Content? && (s.mode.Sniffing? ==> InTime(s.hint, text))
    ensures !Lock(s, text[..n], false).Content?
    ensures s.mode.Sniffing? && Lock(s, text[..n], false).Sniffing? ==> Find(text[..n], CLOSE).None?
    ensures s.mode.Reasoning? ==> Lock(s, text[..n], false).Reasoning?
  {
    var part := text[..n];
    FindInPrefix(text, n, CLOSE);
    if s.mode.Sniffing? && |LStrip(part)| < |OPEN| {
      ShortHasNoClose(part);
    }
  }

  // ------------------------------------------------------------------ the content

  /** The content there is to send once `n` characters are in. */
  function ContentAt(text: string, n: nat, hold: nat): string
    requires n <= |text|
  {
    match Find(text[..n], CLOSE)
    case None => ""
    case Some(i) => Held(LStripBreaks(text[..n][i + |CLOSE|..]), hold)
  }

  lemma {:induction false} TailGrows(text: string, m: nat, n: nat, from: nat)
    requires from <= m <= n <= |text|
    ensures text[..m][from..] <= text[..n][from..]
  {
  }

  lemma {:induction false} ContentGrows(text: string, m: nat, n: nat, hold: nat)
    requires m <= n <= |text|
    ensures ContentAt(text, m, hold) <= ContentAt(text, n, hold)
  {
    FindInPrefix(text, m, CLOSE);
    FindInPrefix(text, n, CLOSE);
    if Find(text[..m], CLOSE).Some? {
      var from := Find(text, CLOSE).value + |CLOSE|;
      TailGrows(text, m, n, from);
      LStripBreaksGrows(text[..m][from..], text[..n][from..]);
      HeldGrows(LStripBreaks(text[..m][from..]), LStripBreaks(text[..n][from..]), hold);
    }
  }

  lemma {:induction false} DeltaAdds(sent: string, total: string)
    requires sent <= total
    ensures sent + Delta(total, |sent|) == total
  {
  }

  /** What a feed in reasoning mode sends, and the state it leaves. */
  lemma {:induction false} FedReasoning(s: State, text: string, n: nat, hold: nat)
    requires n <= |text| && Lock(s, text[..n], false).Reasoning?
    ensures Fed(s, text[..n], false, hold).1.content == Delta(ContentAt(text, n, hold), s.cSent)
            || (Find(text[..n], CLOSE).None? && Fed(s, text[..n], false, hold).1.content == "")
    ensures Find(text[..n], CLOSE).Some? ==> Fed(s, text[..n], false, hold).0.cSent == |ContentAt(text, n, hold)|
    ensures Find(text[..n], CLOSE).None? ==> Fed(s, text[..n], false, hold).0.cSent == s.cSent
    ensures Fed(s, text[..n], false, hold).0.mode.Reasoning? && Fed(s, text[..n], false, hold).0.hint == s.hint
    ensures Fed(s, text[..n], false, hold).1.reasoning == Delta(ReasoningAt(text, n, hold), s.rSent)
    ensures Fed(s, text[..n], false, hold).0.rSent == |ReasoningAt(text, n, hold)|
  {
  }

  lemma {:induction false} FedSniffing(s: State, text: string, n: nat, hold: nat)
    requires n <= |text| && Lock(s, text[..n], false).Sniffing? && s.mode.Sniffing?
    ensures Fed(s, text[..n], false, hold) == (s, Parts("", ""))
  {
  }

  /** What of the content was sent is all there was to send. */
  predicate ContentInv(sent: Sent, hint: Option<bool>, text: string, n: nat, hold: nat)
    requires n <= |text|
  {
    && !sent.state.mode.Content? && (sent.state.mode.Sniffing? ==> sent.state.hint == hint)
    && sent.parts.content == ContentAt(text, n, hold) && sent.state.cSent == |sent.parts.content|
  }

  lemma {:induction false} ContentStep(sent: Sent, hint: Option<bool>, text: string, m: nat, feed: Feed, hold: nat)
    requires m <= feed.upTo <= |text| && ContentInv(sent, hint, text, m, hold)
    requires InTime(Hinted(hint, feed.family), text)
    ensures ContentInv(Feeding(sent, feed.family, text[..feed.upTo], false, hold), Hinted(hint, feed.family), text,
                       feed.upTo, hold)
  {
    var s, n := Named(sent.state, feed.family), feed.upTo;
    LocksReasoning(s, text, n);
    ContentGrows(text, m, n, hold);
    if Lock(s, text[..n], false).Sniffing? {
      FedSniffing(s, text, n, hold);
    } else {
      FedReasoning(s, text, n, hold);
      DeltaAdds(ContentAt(text, m, hold), ContentAt(text, n, hold));
    }
  }

  lemma {:induction false} ContentKept(hint: Option<bool>, text: string, feeds: seq<Feed>, hold: nat)
    requires Growing(text, feeds) && AlwaysInTime(hint, text, feeds)
    ensures LastCut(feeds) <= |text|
    ensures ContentInv(Streaming(hint, text, feeds, hold), HintAfter(hint, feeds), text, LastCut(feeds), hold)
  {
    if feeds == [] {
      assert text[..0] == "";
    } else {
      var init, last := feeds[..|feeds| - 1], feeds[|feeds| - 1];
      GrowingInit(text, feeds);
      InTimeInit(hint, text, feeds);
      ContentKept(hint, text, init, hold);
      ContentStep(Streaming(hint, text, init, hold), HintAfter(hint, init), text, LastCut(init), last, hold);
    }
  }

  lemma {:induction false} WholeText(text: string)
    ensures text[..|text|] == text
  {
  }

  lemma {:induction false} ContentAtEnd(text: string, n: nat, hold: nat, i: nat)
    requires n <= |text| && Find(text, CLOSE) == Some(i)
    ensures ContentAt(text, n, hold) <= LStripBreaks(text[i + |CLOSE|..])
  {
    FindInPrefix(text, n, CLOSE);
    if Find(text[..n], CLOSE).Some? {
      var from := i + |CLOSE|;
      assert text[..n][from..] <= text[from..];
      LStripBreaksGrows(text[..n][from..], text[from..]);
    }
  }

  lemma {:induction false} LastFeed(s: State, text: string, hold: nat, i: nat)
    requires Find(text, CLOSE) == Some(i) && !s.mode.Content?
    ensures Fed(s, text, true, hold).1
            == Parts(Delta(StripOpen(text[..i]), s.rSent), Delta(LStripBreaks(text[i + |CLOSE|..]), s.cSent))
  {
  }

  lemma {:induction false} EndContent(sent: Sent, hint: Option<bool>, family: string, text: string, n: nat,
                                      hold: nat, i: nat)
    requires n <= |text| && Find(text, CLOSE) == Some(i) && ContentInv(sent, hint, text, n, hold)
    ensures Feeding(sent, family, text, true, hold).parts.content == LStripBreaks(text[i + |CLOSE|..])
  {
    ContentAtEnd(text, n, hold, i);
    LastFeed(Named(sent.state, family), text, hold, i);
    DeltaAdds(sent.parts.content, LStripBreaks(text[i + |CLOSE|..]));
  }

  /** However a text with a close tag is cut up, and whenever the family is named, the
      streamed content is the batch content, if the tag comes in time for the hints.
      How much is withheld only matters for the reasoning. */
  lemma {:induction false} StreamedContent(hint: Option<bool>, text: string, feeds: seq<Feed>, family: string,
                                           hold: nat)
    requires Growing(text, feeds) && Find(text, CLOSE).Some? && AlwaysInTime(hint, text, feeds)
    ensures Streamed(hint, text, feeds, family, hold).content == SplitThink(text).content
  {
    ContentKept(hint, text, feeds, hold);
    EndContent(Streaming(hint, text, feeds, hold), HintAfter(hint, feeds), family, text, LastCut(feeds), hold,
               Find(text, CLOSE).value);
  }

  // ---------------------------------------------------------------- the reasoning

  /** The reasoning there is to send once `n` characters are in. */
  function ReasoningAt(text: string, n: nat, hold: nat): string
    requires n <= |text|
  {
    match Find(text[..n], CLOSE)
    case None => StripOpen(Held(text[..n], hold))
    case Some(i) => StripOpen(text[..n][..i])
  }

  /** All the reasoning of the text. */
  function AllReasoning(text: string): string
  {
    match Find(text, CLOSE)
    case None => StripOpen(text)
    case Some(i) => StripOpen(text[..i])
  }

  /** A feed of this length shows no blanks before an opening tag, and no part of it. */
  predicate Tame(text: string, n: nat, hold: nat)
  {
    !Opens(text) || !(hold < n < hold + Blanks(text) + |OPEN|)
  }

  /** What of the text shows when `n` characters are in: all up to the close tag, or
      all but what is withheld. */
  function Shown(text: string, n: nat, hold: nat): nat
    requires n <= |text|
  {
    if Find(text, CLOSE).Some? && Find(text, CLOSE).value + |CLOSE| <= n then Find(text, CLOSE).value
    else if n >= hold then n - hold else 0
  }

  lemma {:induction false} ReasoningShown(text: string, n: nat, hold: nat)
    requires n <= |text|
    ensures Shown(text, n, hold) <= n && ReasoningAt(text, n, hold) == StripOpen(text[..Shown(text, n, hold)])
  {
    FindInPrefix(text, n, CLOSE);
    var k := Shown(text, n, hold);
    assert text[..n][..k] == text[..k];
  }

  /** The withheld characters are enough for any part of a close tag. */
  lemma {:induction false} ShownGrows(text: string, m: nat, n: nat, hold: nat)
    requires hold >= HOLD
    requires m <= n <= |text|
    ensures Shown(text, m, hold) <= Shown(text, n, hold)
    ensures Find(text, CLOSE).Some? ==> Shown(text, m, hold) <= Find(text, CLOSE).value
  {
  }

  lemma {:induction false} OpensFor(text: string, k: nat)
    requires k <= |text|
    ensures LStrip(text[..k]) == text[..k][if k <= Blanks(text) then k else Blanks(text)..]
    ensures Opens(text[..k]) <==> Opens(text) && Blanks(text) + |OPEN| <= k
  {
    LStripIs(text);
    LStripIs(text[..k]);
    BlanksInPrefix(text, k);
    var b := Blanks(text);
    if b + |OPEN| <= k {
      assert text[..k][b..][..|OPEN|] == text[b..][..|OPEN|];
    }
  }

  /** Blanks and opening tag are shown whole or not at all. */
  predicate Clear(text: string, k: nat)
  {
    !Opens(text) || k == 0 || k >= Blanks(text) + |OPEN|
  }

  lemma {:induction false} StripClear(text: string, k: nat)
    requires k <= |text| && Clear(text, k)
    ensures StripOpen(text[..k])
            == if !Opens(text) then text[..k] else if k == 0 then "" else LStripBreaks(text[Blanks(text) + |OPEN|..k])
  {
    OpensFor(text, k);
    if Opens(text) && k > 0 {
      var b := Blanks(text);
      assert text[..k][b..][|OPEN|..] == text[b + |OPEN|..k];
    }
  }

  lemma {:induction false} StripGrows(text: string, j: nat, k: nat)
    requires j <= k <= |text| && Clear(text, j) && Clear(text, k)
    ensures StripOpen(text[..j]) <= StripOpen(text[..k])
  {
    StripClear(text, j);
    StripClear(text, k);
    if Opens(text) && j > 0 {
      var from := Blanks(text) + |OPEN|;
      assert text[from..j] <= text[from..k];
      LStripBreaksGrows(text[from..j], text[from..k]);
    }
  }

  lemma {:induction false} CharOf(text: string, at: nat, tag: string, d: nat)
    requires StartsAt(text, at, tag) && d < |tag|
    ensures text[at + d] == tag[d]
  {
    assert text[at + d] == text[at..at + |tag|][d];
  }

  /** An opening tag has no close tag inside. */
  lemma {:induction false} NotInside(text: string, b: nat, d: nat)
    requires StartsAt(text, b, OPEN) && d < |OPEN|
    ensures !StartsAt(text, b + d, CLOSE)
  {
    CharOf(text, b, OPEN, d);
    CharOf(text, b, OPEN, 1);
    if StartsAt(text, b + d, CLOSE) {
      CharOf(text, b + d, CLOSE, 0);
      CharOf(text, b + d, CLOSE, 1);
    }
  }

  lemma {:induction false} CloseAfterOpen(text: string)
    requires Opens(text) && Find(text, CLOSE).Some?
    ensures Find(text, CLOSE).value >= Blanks(text) + |OPEN|
  {
    var i, b := Find(text, CLOSE).value, Blanks(text);
    LStripIs(text);
    assert text[b..b + |OPEN|] == text[b..][..|OPEN|];
    assert text[i] == text[i..i + |CLOSE|][0] == CLOSE[0];
    if b <= i < b + |OPEN| {
      NotInside(text, b, i - b);
    }
  }

  lemma {:induction false} TameClear(text: string, n: nat, hold: nat)
    requires n <= |text| && Tame(text, n, hold)
    ensures Clear(text, Shown(text, n, hold))
  {
    if Opens(text) && Find(text, CLOSE).Some? {
      CloseAfterOpen(text);
    }
  }

  /** No feed shows part of an opening tag, unless the splitter is still sniffing. */
  predicate AllTame(hint: Option<bool>, text: string, feeds: seq<Feed>, hold: nat)
    requires Growing(text, feeds)
  {
    forall k :: 0 <= k < |feeds| ==>
      Tame(text, feeds[k].upTo, hold) || (Growing(text, feeds[..k + 1])
                                          && Streaming(hint, text, feeds[..k + 1], hold).state.mode.Sniffing?)
  }

  lemma {:induction false} AllTameInit(hint: Option<bool>, text: string, feeds: seq<Feed>, hold: nat)
    requires Growing(text, feeds) && AllTame(hint, text, feeds, hold) && feeds != []
    ensures Growing(text, feeds[..|feeds| - 1]) && AllTame(hint, text, feeds[..|feeds| - 1], hold)
    ensures Tame(text, feeds[|feeds| - 1].upTo, hold) || Streaming(hint, text, feeds, hold).state.mode.Sniffing?
  {
    var init := feeds[..|feeds| - 1];
    forall k | 0 <= k < |init|
      ensures Tame(text, init[k].upTo, hold) || (Growing(text, init[..k + 1])
                                                 && Streaming(hint, text, init[..k + 1], hold).state.mode.Sniffing?)
    {
      assert init[..k + 1] == feeds[..k + 1] && init[k] == feeds[k];
    }
    assert feeds[..|feeds| - 1 + 1] == feeds;
  }

  /** What of the reasoning was sent is all there was to send. */
  predicate ReasoningInv(sent: Sent, hint: Option<bool>, text: string, n: nat, hold: nat)
    requires n <= |text|
  {
    && !sent.state.mode.Content? && sent.state.rSent == |sent.parts.reasoning|
    && (sent.state.mode.Sniffing? ==> sent.state.hint == hint && sent.parts.reasoning == "")
    && (sent.state.mode.Reasoning? ==>
          Clear(text, Shown(text, n, hold)) && sent.parts.reasoning == ReasoningAt(text, n, hold))
  }

  lemma {:induction false} ReasoningGrows(text: string, m: nat, n: nat, hold: nat)
    requires hold >= HOLD
    requires m <= n <= |text| && Clear(text, Shown(text, m, hold)) && Clear(text, Shown(text, n, hold))
    ensures ReasoningAt(text, m, hold) <= ReasoningAt(text, n, hold)
  {
    ReasoningShown(text, m, hold);
    ReasoningShown(text, n, hold);
    ShownGrows(text, m, n, hold);
    StripGrows(text, Shown(text, m, hold), Shown(text, n, hold));
  }

  lemma {:induction false} ReasoningStep(sent: Sent, hint: Option<bool>, text: string, m: nat, feed: Feed, hold: nat)
    requires hold >= HOLD
    requires m <= feed.upTo <= |text| && ReasoningInv(sent, hint, text, m, hold)
    requires InTime(Hinted(hint, feed.family), text)
    requires Tame(text, feed.upTo, hold)
             || Feeding(sent, feed.family, text[..feed.upTo], false, hold).state.mode.Sniffing?
    ensures ReasoningInv(Feeding(sent, feed.family, text[..feed.upTo], false, hold), Hinted(hint, feed.family), text,
                         feed.upTo, hold)
  {
    var s, n := Named(sent.state, feed.family), feed.upTo;
    LocksReasoning(s, text, n);
    if Lock(s, text[..n], false).Sniffing? {
      FedSniffing(s, text, n, hold);
    } else {
      FedReasoning(s, text, n, hold);
      TameClear(text, n, hold);
      if s.mode.Reasoning? {
        ReasoningGrows(text, m, n, hold);
      }
      DeltaAdds(sent.parts.reasoning, ReasoningAt(text, n, hold));
    }
  }

  lemma {:induction false} ReasoningKept(hint: Option<bool>, text: string, feeds: seq<Feed>, hold: nat)
    requires hold >= HOLD
    requires Growing(text, feeds) && AlwaysInTime(hint, text, feeds) && AllTame(hint, text, feeds, hold)
    ensures LastCut(feeds) <= |text|
    ensures ReasoningInv(Streaming(hint, text, feeds, hold), HintAfter(hint, feeds), text, LastCut(feeds), hold)
  {
    if feeds != [] {
      var init, last := feeds[..|feeds| - 1], feeds[|feeds| - 1];
      GrowingInit(text, feeds);
      InTimeInit(hint, text, feeds);
      AllTameInit(hint, text, feeds, hold);
      ReasoningKept(hint, text, init, hold);
      ReasoningStep(Streaming(hint, text, init, hold), HintAfter(hint, init), text, LastCut(init), last, hold);
    }
  }

  lemma {:induction false} ReasoningAtEnd(text: string, n: nat, hold: nat)
    requires hold >= HOLD
    requires n <= |text| && Clear(text, Shown(text, n, hold))
    ensures ReasoningAt(text, n, hold) <= AllReasoning(text)
  {
    ReasoningShown(text, n, hold);
    ShownGrows(text, n, n, hold);
    if Find(text, CLOSE).Some? {
      if Opens(text) {
        CloseAfterOpen(text);
      }
      StripGrows(text, Shown(text, n, hold), Find(text, CLOSE).value);
    } else {
      WholeText(text);
      OpensFor(text, |text|);
      StripGrows(text, Shown(text, n, hold), |text|);
    }
  }

  lemma {:induction false} EndReasoning(sent: Sent, hint: Option<bool>, family: string, text: string, n: nat, hold: nat)
    requires hold >= HOLD && n <= |text| && Find(text, CLOSE).Some? && ReasoningInv(sent, hint, text, n, hold)
    ensures Feeding(sent, family, text, true, hold).parts.reasoning == AllReasoning(text)
  {
    if sent.state.mode.Reasoning? {
      ReasoningAtEnd(text, n, hold);
    }
    LastFeed(Named(sent.state, family), text, hold, Find(text, CLOSE).value);
    DeltaAdds(sent.parts.reasoning, AllReasoning(text));
  }

  /** With a close tag in time: however the text is cut up, the reasoning is sent
      exactly, as long as no feed shows part of an opening tag. */
  lemma {:induction false} StreamedReasoning(hint: Option<bool>, text: string, feeds: seq<Feed>, family: string,
                                             hold: nat)
    requires hold >= HOLD
    requires Growing(text, feeds) && Find(text, CLOSE).Some? && AlwaysInTime(hint, text, feeds)
    requires AllTame(hint, text, feeds, hold)
    ensures Streamed(hint, text, feeds, family, hold).reasoning == AllReasoning(text)
  {
    ReasoningKept(hint, text, feeds, hold);
    EndReasoning(Streaming(hint, text, feeds, hold), HintAfter(hint, feeds), family, text, LastCut(feeds), hold);
  }

  /** And the batch form is the streamed reasoning without the blanks around it. */
  lemma {:induction false} BatchReasoning(text: string)
    requires Find(text, CLOSE).Some?
    ensures var opens := Opens(text[..Find(text, CLOSE).value]);
            SplitThink(text).reasoning
            == RStripBreaks(LStripBreaks(if opens then AllReasoning(text) else LStrip(AllReasoning(text))))
  {
    BreaksTwice(LStrip(text[..Find(text, CLOSE).value]));
  }

  lemma {:induction false} BreaksTwice(head: string)
    ensures OPEN <= head ==> LStripBreaks(LStripBreaks(head[|OPEN|..])) == LStripBreaks(head[|OPEN|..])
  {
    if OPEN <= head {
      Stripped(head[|OPEN|..]);
    }
  }

  lemma {:induction false} Stripped(s: string)
    ensures LStripBreaks(LStripBreaks(s)) == LStripBreaks(s)
  {
    if s != "" && s[0] == '\n' {
      Stripped(s[1..]);
    }
  }

  // --------------------------------------------------------- nothing is ever lost

  lemma {:induction false} CutAtClose(text: string, i: nat, breaks: string, content: string)
    requires StartsAt(text, i, CLOSE) && text[i + |CLOSE|..] == breaks + content
    ensures text == text[..i] + CLOSE + breaks + content
  {
    assert text == text[..i] + text[i..i + |CLOSE|] + text[i + |CLOSE|..];
  }

  lemma {:induction false} TameUnopened(hint: Option<bool>, text: string, feeds: seq<Feed>, hold: nat)
    requires Growing(text, feeds) && !Opens(text)
    ensures AllTame(hint, text, feeds, hold)
  {
  }

  /** A model that is known to reason stays so, whatever families are named. */
  lemma {:induction false} KnownInTime(text: string, feeds: seq<Feed>)
    ensures HintAfter(Some(true), feeds) == Some(true)
    ensures AlwaysInTime(Some(true), text, feeds)
  {
    forall k | 0 < k <= |feeds| ensures InTime(HintAfter(Some(true), feeds[..k]), text) {
      KnownStays(feeds[..k]);
    }
    KnownStays(feeds);
  }

  lemma {:induction false} KnownStays(feeds: seq<Feed>)
    ensures HintAfter(Some(true), feeds) == Some(true)
  {
    if feeds != [] {
      KnownStays(feeds[..|feeds| - 1]);
    }
  }

  lemma {:induction false} ClosedWhole(text: string, i: nat, r: string, c: string) returns (breaks: string)
    requires Find(text, CLOSE) == Some(i) && !Opens(text)
    requires r == AllReasoning(text) && c == SplitThink(text).content
    ensures AllBreaks(breaks) && text == r + CLOSE + breaks + c
  {
    breaks := LStripBreaksSplits(text[i + |CLOSE|..]);
    OpensFor(text, i);
    CutAtClose(text, i, breaks, LStripBreaks(text[i + |CLOSE|..]));
  }

  /** In reasoning mode no character of a text is lost or repeated: it is the reasoning,
      the close tag, line breaks and the content. */
  lemma {:induction false} NothingLostClosed(text: string, feeds: seq<Feed>, family: string, parts: Parts)
      returns (breaks: string)
    requires Growing(text, feeds) && Find(text, CLOSE).Some? && !Opens(text)
    requires parts == Streamed(Some(true), text, feeds, family, HOLD)
    ensures AllBreaks(breaks) && text == parts.reasoning + CLOSE + breaks + parts.content
  {
    KnownInTime(text, feeds);
    TameUnopened(Some(true), text, feeds, HOLD);
    StreamedReasoning(Some(true), text, feeds, family, HOLD);
    StreamedContent(Some(true), text, feeds, family, HOLD);
    breaks := ClosedWhole(text, Find(text, CLOSE).value, parts.reasoning, parts.content);
  }

  lemma {:induction false} LastOpen(s: State, text: string)
    requires Find(text, CLOSE).None? && !Opens(text) && s.mode.Reasoning?
    ensures s.rSent == 0 ==> Fed(s, text, true, HOLD).1 == Parts("", Delta(text, s.cSent))
    ensures s.rSent > 0 ==> Fed(s, text, true, HOLD).1 == Parts(Delta(text, s.rSent), "")
  {
  }

  lemma {:induction false} LockAtEnd(s: State, text: string)
    requires s.mode.Sniffing? && s.hint == Some(true) && s.rSent == 0 && Find(text, CLOSE).None? && !Opens(text)
    ensures Fed(s, text, true, HOLD).1 == Parts("", Delta(text, s.cSent))
  {
  }

  lemma {:induction false} EndOpen(sent: Sent, family: string, text: string, n: nat)
    requires n <= |text| && Find(text, CLOSE).None? && !Opens(text)
    requires ReasoningInv(sent, Some(true), text, n, HOLD) && ContentInv(sent, Some(true), text, n, HOLD)
    ensures Feeding(sent, family, text, true, HOLD).parts
            == if sent.parts.reasoning == "" then Parts("", text) else Parts(text, "")
  {
    FindInPrefix(text, n, CLOSE);
    if sent.state.mode.Reasoning? {
      ReasoningAtEnd(text, n, HOLD);
      LastOpen(Named(sent.state, family), text);
      DeltaAdds(sent.parts.reasoning, text);
    } else {
      LockAtEnd(Named(sent.state, family), text);
      DeltaAdds("", text);
    }
  }

  /** With no close tag, it is the content, whole, if nothing was sent before it was done,
      and the reasoning, whole, if something was. */
  lemma {:induction false} NothingLostOpen(text: string, feeds: seq<Feed>, family: string)
    requires Growing(text, feeds) && Find(text, CLOSE).None? && !Opens(text)
    ensures Streamed(Some(true), text, feeds, family, HOLD)
            == if Streaming(Some(true), text, feeds, HOLD).parts == Parts("", "") then Parts("", text)
               else Parts(text, "")
  {
    KnownInTime(text, feeds);
    TameUnopened(Some(true), text, feeds, HOLD);
    ReasoningKept(Some(true), text, feeds, HOLD);
    ContentKept(Some(true), text, feeds, HOLD);
    FindInPrefix(text, LastCut(feeds), CLOSE);
    EndOpen(Streaming(Some(true), text, feeds, HOLD), family, text, LastCut(feeds));
  }
}
