/** What splitting makes of a text, by the shape of the text; and of reasoning that is
    cut off before it is closed. */
module ThinkShapes {
  import opened Text
  import opened TextSearch
  import opened Think
  import opened ThinkStreams

  predicate AllSpace(s: string)
  {
    forall k :: 0 <= k < |s| ==> IsSpace(s[k])
  }

  /** `whole` is `core` with line breaks around it. */
  predicate Within(whole: string, before: string, core: string, after: string)
  {
    && whole == before + core + after && AllBreaks(before) && AllBreaks(after)
    && (core != "" ==> core[0] != '\n' && core[|core| - 1] != '\n')
  }

  lemma {:induction false} LStripBreaksIs(breaks: string, rest: string)
    requires AllBreaks(breaks) && (rest != "" ==> rest[0] != '\n')
    ensures LStripBreaks(breaks + rest) == rest
  {
    if breaks == "" {
      assert breaks + rest == rest;
    } else {
      assert (breaks + rest)[1..] == breaks[1..] + rest;
      LStripBreaksIs(breaks[1..], rest);
    }
  }

  lemma {:induction false} RStripBreaksIs(rest: string, breaks: string)
    requires AllBreaks(breaks) && (rest != "" ==> rest[|rest| - 1] != '\n')
    ensures RStripBreaks(rest + breaks) == rest
  {
    if breaks == "" {
      assert rest + breaks == rest;
    } else {
      assert (rest + breaks)[..|rest + breaks| - 1] == rest + breaks[..|breaks| - 1];
      RStripBreaksIs(rest, breaks[..|breaks| - 1]);
    }
  }

  lemma {:induction false} StripBreaksIs(whole: string, before: string, core: string, after: string)
    requires Within(whole, before, core, after)
    ensures RStripBreaks(LStripBreaks(whole)) == core
  {
    if core == "" {
      assert whole == (before + after) + "";
      LStripBreaksIs(before + after, "");
    } else {
      assert whole == before + (core + after);
      LStripBreaksIs(before, core + after);
      RStripBreaksIs(core, after);
    }
  }

  lemma {:induction false} LStripIs(front: string, mid: string)
    requires AllSpace(front) && (mid != "" ==> !IsSpace(mid[0]))
    ensures LStrip(front + mid) == mid
  {
    if front == "" {
      assert front + mid == mid;
    } else {
      assert (front + mid)[1..] == front[1..] + mid;
      LStripIs(front[1..], mid);
    }
  }

  lemma {:induction false} FoundAt(head: string, tail: string)
    requires forall k :: 0 <= k < |head| ==> !StartsAt(head + "</think>" + tail, k, "</think>")
    ensures Find(head + "</think>" + tail, CLOSE) == Some(|head|)
  {
    var text := head + "</think>" + tail;
    assert text[|head|..|head| + 8] == "</think>";
    FindFirst(text, CLOSE, |head|);
  }

  /** What follows an opening tag at the start, or all of it. */
  function Inside(mid: string): string
  {
    if "<think>" <= mid then mid[7..] else mid
  }

  /** A text with a close tag: what is before its first one is the reasoning, without
      blanks in front, an opening tag, and line breaks around it; what is behind is the
      content, without line breaks in front. */
  lemma {:induction false} SplitClosed(head: string, tail: string, front: string, mid: string, before: string,
                                       reasoning: string, after: string, breaks: string, content: string)
    requires forall k :: 0 <= k < |head| ==> !StartsAt(head + "</think>" + tail, k, "</think>")
    requires head == front + mid && AllSpace(front) && (mid != "" ==> !IsSpace(mid[0]))
    requires Within(Inside(mid), before, reasoning, after)
    requires tail == breaks + content && AllBreaks(breaks) && (content != "" ==> content[0] != '\n')
    ensures SplitThink(head + "</think>" + tail) == Parts(reasoning, content)
  {
    var text := head + "</think>" + tail;
    FoundAt(head, tail);
    assert text[..|head|] == head && text[|head| + |CLOSE|..] == tail;
    LStripIs(front, mid);
    StripBreaksIs(Inside(mid), before, reasoning, after);
    LStripBreaksIs(breaks, content);
  }

  /** A text without one: reasoning that was cut off, if it opens with an opening tag, and
      content just as it is, if it does not. */
  lemma {:induction false} SplitOpen(text: string, front: string, mid: string, before: string, reasoning: string,
                                     after: string)
    requires Find(text, "</think>").None?
    requires text == front + mid && AllSpace(front) && (mid != "" ==> !IsSpace(mid[0]))
    requires "<think>" <= mid ==> Within(mid[7..], before, reasoning, after)
    ensures SplitThink(text) == if "<think>" <= mid then Parts(reasoning, "") else Parts("", text)
  {
    LStripIs(front, mid);
    if "<think>" <= mid {
      StripBreaksIs(mid[7..], before, reasoning, after);
    }
  }

  /** The reasoning that is streamed from a text with a close tag: all before the tag, or,
      where that opens with an opening tag, all between the two but for line breaks in
      front. What the batch form strips at its end is sent. */
  lemma {:induction false} StreamShape(head: string, tail: string, front: string, mid: string, breaks: string,
                                       reasoning: string)
    requires forall k :: 0 <= k < |head| ==> !StartsAt(head + "</think>" + tail, k, "</think>")
    requires head == front + mid && AllSpace(front) && (mid != "" ==> !IsSpace(mid[0]))
    requires "<think>" <= mid ==>
               mid[7..] == breaks + reasoning && AllBreaks(breaks) && (reasoning != "" ==> reasoning[0] != '\n')
    ensures AllReasoning(head + "</think>" + tail) == if "<think>" <= mid then reasoning else head
  {
    var text := head + "</think>" + tail;
    FoundAt(head, tail);
    assert text[..|head|] == head;
    LStripIs(front, mid);
    if "<think>" <= mid {
      LStripBreaksIs(breaks, reasoning);
    }
  }

  /** All but the last seven characters. */
  function Safe(s: string): string
  {
    if |s| >= 7 then s[..|s| - 7] else ""
  }

  /** What has been sent on the way, from a model that is known to reason: once the close
      tag is in, the content so far but for its last seven characters; before that, no
      content. */
  lemma {:induction false} ContentSoFar(text: string, feeds: seq<Feed>, i: nat, n: nat)
    requires Growing(text, feeds) && Find(text, "</think>") == Some(i) && n == LastCut(feeds)
    ensures n <= |text|
    ensures Streaming(Some(true), text, feeds, HOLD).parts.content
            == if i + 8 <= n then Safe(LStripBreaks(text[i + 8..n])) else ""
  {
    KnownInTime(text, feeds);
    ContentKept(Some(true), text, feeds, HOLD);
    ContentAtIs(text, n, i);
  }

  lemma {:induction false} ContentAtIs(text: string, n: nat, i: nat)
    requires n <= |text| && Find(text, "</think>") == Some(i)
    ensures ContentAt(text, n, HOLD) == if i + 8 <= n then Safe(LStripBreaks(text[i + 8..n])) else ""
  {
    FindInPrefix(text, n, CLOSE);
    if i + 8 <= n {
      assert text[..n][i + 8..] == text[i + 8..n];
    }
  }

  /** And of a text without an opening tag, while the close tag is not in, nothing, or all
      but its last seven characters as reasoning. */
  lemma {:induction false} ReasoningSoFar(text: string, feeds: seq<Feed>, n: nat)
    requires Growing(text, feeds) && !Opens(text) && n == LastCut(feeds)
    ensures n <= |text|
    ensures Find(text[..n], "</think>").None? ==>
              Streaming(Some(true), text, feeds, HOLD).parts.reasoning
              == if Streaming(Some(true), text, feeds, HOLD).state.mode.Sniffing? then "" else Safe(text[..n])
  {
    KnownInTime(text, feeds);
    TameUnopened(Some(true), text, feeds, HOLD);
    ReasoningKept(Some(true), text, feeds, HOLD);
    StripClear(text, Shown(text, n, HOLD));
    ReasoningShown(text, n, HOLD);
    FindInPrefix(text, n, CLOSE);
    assert n >= 7 ==> text[..n][..n - 7] == text[..n - 7];
  }

  // ------------------------------------------------------------- reasoning cut off

  lemma {:induction false} CutOffEnd(sent: Sent, family: string, text: string, n: nat)
    requires n <= |text| && Opens(text) && Find(text, CLOSE).None?
    requires ReasoningInv(sent, Some(true), text, n, HOLD) && sent.state.hint == Some(true)
    ensures Feeding(sent, family, text, true, HOLD).parts.reasoning == StripOpen(text)
    ensures Feeding(sent, family, text, true, HOLD).parts.content == sent.parts.content
  {
    var s := Named(sent.state, family);
    if sent.state.mode.Reasoning? {
      ReasoningAtEnd(text, n, HOLD);
    }
    DeltaAdds(sent.parts.reasoning, StripOpen(text));
  }

  /** Reasoning that opens with its tag and is never closed, from a model that is known
      to reason: it is streamed as reasoning, without the tag, and nothing as content;
      and that is what the batch form makes of it, but for the line breaks at its end. */
  lemma {:induction false} StreamedCutOff(text: string, feeds: seq<Feed>, family: string)
    requires Growing(text, feeds) && Opens(text) && Find(text, CLOSE).None?
    requires AllTame(Some(true), text, feeds, HOLD)
    ensures Streamed(Some(true), text, feeds, family, HOLD) == Parts(StripOpen(text), "")
    ensures SplitThink(text) == Parts(RStripBreaks(StripOpen(text)), "")
  {
    KnownInTime(text, feeds);
    KnownStreaming(true, text, feeds, HOLD);
    ReasoningKept(Some(true), text, feeds, HOLD);
    ContentKept(Some(true), text, feeds, HOLD);
    FindInPrefix(text, LastCut(feeds), CLOSE);
    CutOffEnd(Streaming(Some(true), text, feeds, HOLD), family, text, LastCut(feeds));
  }

  // ------------------------------------------------------------------------ the tags

  /** Content is sent without its tags: what is up to the first one stays, and so on
      behind it; without one, all of it stays. */
  lemma {:induction false} RemovedIs(text: string, tag: string)
    requires tag != ""
    ensures RemoveAll(text, tag)
            == match Find(text, tag) case None => text case Some(k) => text[..k] + RemoveAll(text[k + |tag|..], tag)
  {
    if Find(text, tag).None? {
      RemoveNone(text, tag);
    } else {
      RemovedAt(text, tag, Find(text, tag).value);
    }
  }

  lemma {:induction false} RemovedAt(text: string, tag: string, k: nat)
    requires tag != "" && Find(text, tag) == Some(k)
    ensures RemoveAll(text, tag) == text[..k] + RemoveAll(text[k + |tag|..], tag)
  {
    FoundHow(text, tag, k);
    if k > 0 {
      var rest := text[1..];
      RemovedAt(rest, tag, k - 1);
      JoinFront(text, rest, tag, k);
      RemovedLater(text, tag, rest, rest[..k - 1], RemoveAll(rest[k - 1 + |tag|..], tag));
    } else {
      RemovedFirst(text, tag);
    }
  }

  lemma {:induction false} FoundHow(text: string, tag: string, k: nat)
    requires tag != "" && Find(text, tag) == Some(k)
    ensures k == 0 <==> tag <= text
    ensures k > 0 ==> text != "" && Find(text[1..], tag) == Some(k - 1)
  {
    StartsFirst(text, tag);
  }

  lemma {:induction false} RemovedFirst(text: string, tag: string)
    requires tag != "" && tag <= text
    ensures RemoveAll(text, tag) == text[..0] + RemoveAll(text[|tag|..], tag)
  {
  }

  lemma {:induction false} RemovedLater(text: string, tag: string, rest: string, front: string, tail: string)
    requires tag != "" && text != "" && !(tag <= text) && rest == text[1..] && RemoveAll(rest, tag) == front + tail
    ensures RemoveAll(text, tag) == [text[0]] + front + tail
  {
  }

  lemma {:induction false} JoinFront(text: string, rest: string, tag: string, k: nat)
    requires 0 < k && k + |tag| <= |text| && rest == text[1..]
    ensures rest[k - 1 + |tag|..] == text[k + |tag|..] && text[..k] == [text[0]] + rest[..k - 1]
  {
  }

  /** A splitter that has settled for content sends the text without its tags, all but
      seven characters of it until the text is done. */
  lemma {:induction false} ContentSent(s: State, text: string, done: bool)
    requires s.mode.Content? && s.cSent == 0
    ensures Fed(s, text, done, HOLD).1
            == Parts("", RemoveAll(RemoveAll(if done then text else if |text| >= 7 then text[..|text| - 7] else "",
                                             "<think>"), "</think>"))
  {
  }

  // ------------------------------------------------------------------- the families

  /** Names are compared in lower case: capital letters become small, the rest stays. */
  lemma {:induction false} LowerIs(name: string, k: nat)
    requires k < |name|
    ensures |Lower(name)| == |name|
    ensures 'A' <= name[k] <= 'Z' ==> Lower(name)[k] as int == name[k] as int - 'A' as int + 'a' as int
    ensures !('A' <= name[k] <= 'Z') ==> Lower(name)[k] == name[k]
  {
  }

  /** The families that are taken to reason: those whose name, in lower case, has one of
      eight words in it. */
  lemma {:induction false} FamilyIff(family: string)
    ensures IsReasoningFamily(family) <==>
              var name := Lower(family);
              || Find(name, "nemotron").Some? || Find(name, "qwen3").Some? || Find(name, "r1").Some?
              || Find(name, "gpt-oss").Some? || Find(name, "reason").Some? || Find(name, "think").Some?
              || Find(name, "o1").Some? || Find(name, "o3").Some?
  {
    var name := Lower(family);
    assert MARKERS[0] == "nemotron" && MARKERS[1] == "qwen3" && MARKERS[2] == "r1" && MARKERS[3] == "gpt-oss";
    assert MARKERS[4] == "reason" && MARKERS[5] == "think" && MARKERS[6] == "o1" && MARKERS[7] == "o3";
    assert |MARKERS| == 8;
    if IsReasoningFamily(family) {
      var k :| 0 <= k < |MARKERS| && Find(Lower(family), MARKERS[k]).Some?;
      assert k == 0 || k == 1 || k == 2 || k == 3 || k == 4 || k == 5 || k == 6 || k == 7;
    }
  }
}
