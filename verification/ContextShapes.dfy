/** What a compiled context holds: which turns, how much of them, and in which words. */
module ContextShapes {
  import opened Text
  import opened Contexts
  import opened ContextFit
  import opened Compaction

  /** `part` is how `whole` ends. */
  predicate EndsWith(whole: string, part: string)
  {
    |part| <= |whole| && whole[|whole| - |part|..] == part
  }

  /** A text cut down to so many tokens keeps its latest characters, four for each token,
      and all of them if it has no more. */
  lemma {:induction false} TailIs(content: string, tokens: int)
    ensures EndsWith(content, Tail(content, tokens))
    ensures var most := 4 * (if tokens >= 1 then tokens else 1);
            |Tail(content, tokens)| == if |content| <= most then |content| else most
  {
  }

  /** `ms` shows `items` in order: each under its role, or as the user's if the role is
      none of the three, with the end of its content. */
  predicate Shows(ms: seq<Message>, items: seq<Item>)
  {
    |ms| == |items| && forall k :: 0 <= k < |ms| ==>
      && EndsWith(items[k].turn.content, ms[k].content)
      && ms[k].role == (if items[k].turn.role in ["system", "user", "assistant"] then items[k].turn.role else "user")
  }

  predicate ShowsWhole(ms: seq<Message>, items: seq<Item>)
  {
    Shows(ms, items) && forall k :: 0 <= k < |ms| ==> ms[k].content == items[k].turn.content
  }

  lemma {:induction false} AsMessageShows(turn: Turn, content: string)
    ensures AsMessage(turn, content)
            == Message(if turn.role in ["system", "user", "assistant"] then turn.role else "user", content)
  {
    assert turn.role in ["system", "user", "assistant"] <==>
      turn.role == "system" || turn.role == "user" || turn.role == "assistant";
  }

  lemma {:induction false} WholeShown(items: seq<Item>)
    ensures ShowsWhole(AsMessages(items), items)
  {
    forall k | 0 <= k < |items|
      ensures AsMessages(items)[k].content == items[k].turn.content
      ensures AsMessages(items)[k].role
              == if items[k].turn.role in ["system", "user", "assistant"] then items[k].turn.role else "user"
    {
      AsMessageShows(items[k].turn, items[k].turn.content);
    }
  }

  // ------------------------------------------------------------------------ the floor

  /** The last live turn of its role. */
  predicate LastOfRole(live: seq<Item>, x: Item, role: string)
  {
    x in live && x.turn.role == role
    && forall y :: y in live && y.turn.role == role ==> y.version <= x.version
  }

  lemma {:induction false} LastOfIs(live: seq<Item>, role: string, x: Item)
    requires Sorted(live)
    ensures LastOf(live, role) == Some(x) <==> LastOfRole(live, x, role)
  {
    LastOfIn(live, role);
    LastOfNewest(live, role);
    if LastOfRole(live, x, role) {
      SameVersion(live, x, LastOf(live, role).value);
    }
  }

  lemma {:induction false} LastOfNewest(live: seq<Item>, role: string)
    requires Sorted(live)
    ensures forall y :: y in live && y.turn.role == role ==>
              LastOf(live, role).Some? && y.version <= LastOf(live, role).value.version
  {
    if live != [] {
      var init, last := live[..|live| - 1], live[|live| - 1];
      assert live == init + [last];
      LastOfNewest(init, role);
      forall y | y in live ensures y.version <= last.version {
        NoneBeyond(live, y);
      }
    }
  }

  /** The floor is the last user turn and the last assistant turn, in log order. */
  lemma {:induction false} FloorIs(live: seq<Item>, x: Item)
    requires Sorted(live)
    ensures x in Floor(live) <==> LastOfRole(live, x, "user") || LastOfRole(live, x, "assistant")
    ensures |Floor(live)| == 2 ==> Floor(live)[0].version < Floor(live)[1].version
  {
    LastOfIs(live, "user", x);
    LastOfIs(live, "assistant", x);
    FloorIn(live);
  }

  /** Two turns in a budget: whole when both fit; when not, the newer one is cut to what
      the older leaves; and when the older takes it all, each to half. */
  function TwoShown(a: string, b: string, budget: nat): (string, string)
  {
    if EstTokens(a) + EstTokens(b) <= budget then (a, b)
    else if EstTokens(a) < budget then (a, Tail(b, budget - EstTokens(a)))
    else if budget == 1 then (Tail(a, 1), Tail(b, 1))
    else (Tail(a, budget / 2), Tail(b, budget - budget / 2))
  }

  lemma {:induction false} TwoFit(items: seq<Item>, budget: nat, a: Turn, b: Turn)
    requires |items| == 2 && budget >= 1 && a == items[0].turn && b == items[1].turn
    ensures FitFloor(items, budget)
            == [AsMessage(a, TwoShown(a.content, b.content, budget).0),
                AsMessage(b, TwoShown(a.content, b.content, budget).1)]
  {
    assert budget >= 2 ==> Max(1, budget / 2) == budget / 2 && Max(1, budget - budget / 2) == budget - budget / 2;
  }

  lemma {:induction false} TwoEnds(a: string, b: string, budget: nat)
    requires budget >= 1
    ensures EndsWith(a, TwoShown(a, b, budget).0) && EndsWith(b, TwoShown(a, b, budget).1)
  {
    TailIs(b, budget - EstTokens(a));
    TailIs(a, 1);
    TailIs(b, 1);
    TailIs(a, budget / 2);
    TailIs(b, budget - budget / 2);
  }

  lemma {:induction false} OneShown(x: Item, budget: nat, shown: string)
    requires budget >= 1
    requires shown == if EstTokens(x.turn.content) <= budget then x.turn.content else Tail(x.turn.content, budget)
    ensures FitFloor([x], budget) == [AsMessage(x.turn, shown)] && Shows(FitFloor([x], budget), [x])
  {
    TailIs(x.turn.content, budget);
    AsMessageShows(x.turn, shown);
  }

  lemma {:induction false} BothShown(x: Item, y: Item, budget: nat, shown: (string, string))
    requires budget >= 1 && shown == TwoShown(x.turn.content, y.turn.content, budget)
    ensures FitFloor([x, y], budget) == [AsMessage(x.turn, shown.0), AsMessage(y.turn, shown.1)]
    ensures Shows(FitFloor([x, y], budget), [x, y])
  {
    TwoFit([x, y], budget, x.turn, y.turn);
    TwoEnds(x.turn.content, y.turn.content, budget);
    AsMessageShows(x.turn, shown.0);
    AsMessageShows(y.turn, shown.1);
  }

  /** The floor turns in a budget: one alone is cut to it, two share it. */
  lemma {:induction false} FloorShown(items: seq<Item>, budget: nat)
    requires |items| <= 2 && budget >= 1
    ensures Shows(FitFloor(items, budget), items)
    ensures |items| == 1 ==>
              FitFloor(items, budget)[0].content
              == (if EstTokens(items[0].turn.content) <= budget then items[0].turn.content
                  else Tail(items[0].turn.content, budget))
    ensures |items| == 2 ==>
              (FitFloor(items, budget)[0].content, FitFloor(items, budget)[1].content)
              == TwoShown(items[0].turn.content, items[1].turn.content, budget)
  {
    if |items| == 1 {
      assert items == [items[0]];
      OneShown(items[0], budget, if EstTokens(items[0].turn.content) <= budget then items[0].turn.content
                                 else Tail(items[0].turn.content, budget));
    } else if |items| == 2 {
      assert items == [items[0], items[1]];
      BothShown(items[0], items[1], budget, TwoShown(items[0].turn.content, items[1].turn.content, budget));
    }
  }

  // ------------------------------------------------------------------- the older turns

  /** What these turns are estimated at together. */
  function Tokens(items: seq<Item>): nat
  {
    if items == [] then 0 else EstTokens(items[0].turn.content) + Tokens(items[1..])
  }

  lemma {:induction false} TokensLast(items: seq<Item>, x: Item)
    ensures Tokens(items + [x]) == Tokens(items) + EstTokens(x.turn.content)
  {
    if items == [] {
      assert [] + [x] == [x] && [x][1..] == [];
    } else {
      assert (items + [x])[1..] == items[1..] + [x];
      TokensLast(items[1..], x);
    }
  }

  /** `kept` is the longest end of `older` that fits. */
  predicate LongestEnd(older: seq<Item>, kept: seq<Item>, leftover: nat)
  {
    && |kept| <= |older| && older[|older| - |kept|..] == kept && Tokens(kept) <= leftover
    && (|kept| < |older| ==>
          Tokens(kept) + EstTokens(older[|older| - |kept| - 1].turn.content) > leftover)
  }

  lemma {:induction false} KeptIs(older: seq<Item>, leftover: nat)
    ensures LongestEnd(older, KeepNewest(older, leftover), leftover)
  {
    if older == [] || EstTokens(older[|older| - 1].turn.content) > leftover {
      EmptyEnd(older, leftover);
    } else {
      var init, last := older[..|older| - 1], older[|older| - 1];
      var left := leftover - EstTokens(last.turn.content);
      var kept := KeepNewest(init, left);
      KeptIs(init, left);
      EndMore(init, last, kept, left);
      assert older == init + [last];
      assert KeepNewest(older, leftover) == kept + [last];
    }
  }

  lemma {:induction false} EmptyEnd(older: seq<Item>, leftover: nat)
    requires older == [] || EstTokens(older[|older| - 1].turn.content) > leftover
    ensures LongestEnd(older, [], leftover)
  {
  }

  lemma {:induction false} EndMore(init: seq<Item>, last: Item, kept: seq<Item>, left: nat)
    requires LongestEnd(init, kept, left)
    ensures LongestEnd(init + [last], kept + [last], left + EstTokens(last.turn.content))
  {
    TokensLast(kept, last);
  }

  // ------------------------------------------------------------------- the whole of it

  /** How much the window leaves: all but the output and 256 tokens, or at least one. */
  function Left(window: int, maxOutput: int): (b: nat)
  {
    if window - maxOutput - 256 >= 1 then window - maxOutput - 256 else 1
  }

  /** The newest summary of the log. */
  predicate IsLatest(items: seq<Item>, x: Item)
  {
    x in items && x.turn.kind.Compaction?
    && forall y :: y in items && y.turn.kind.Compaction? ==> y.version <= x.version
  }

  lemma {:induction false} LatestIs(items: seq<Item>)
    requires Sorted(items)
    ensures LatestCompaction(items).None? <==> forall y :: y in items ==> y.turn.kind.Plain?
    ensures LatestCompaction(items).Some? ==> IsLatest(items, LatestCompaction(items).value)
  {
    if items != [] {
      var init, last := items[..|items| - 1], items[|items| - 1];
      assert items == init + [last];
      LatestIs(init);
      forall y | y in items ensures y.version <= last.version {
        NoneBeyond(items, y);
      }
    }
  }

  /** The live turns: those that no summary covers, up to the second of the versions that
      the newest summary names. */
  lemma {:induction false} LiveIs(items: seq<Item>, x: Item, covered: int)
    requires Sorted(items)
    requires covered == match LatestCompaction(items)
                        case None => 0
                        case Some(c) => if |c.turn.kind.covers| >= 2 then c.turn.kind.covers[1] else 0
    ensures x in Live(items) <==> x in items && x.turn.kind.Plain? && x.version > covered
    ensures Sorted(Live(items))
  {
    LiveSorted(items, covered);
  }

  /** The summary message, of at most 15 percent of what the window leaves. */
  predicate SummaryShown(c: Option<Item>, room: nat, prefix: seq<Message>)
  {
    match c
    case None => prefix == []
    case Some(x) =>
      var share := if room * 15 / 100 >= 1 then room * 15 / 100 else 1;
      prefix == [Message("system", if EstTokens(x.turn.content) <= share then x.turn.content
                                   else Tail(x.turn.content, share))]
  }

  /** A compiled context: the summary; then the longest end of the older turns that fits,
      whole; then the floor turns, cut to what the summary leaves. */
  lemma {:induction false} CompiledShows(items: seq<Item>, window: int, maxOutput: int, c: Compiled, room: nat,
                                         verbatim: nat)
    requires items != [] && c == Compile(items, window, maxOutput) && room == Left(window, maxOutput)
    requires verbatim == (if c.prefix == [] then room
                          else if room - EstTokens(c.prefix[0].content) >= 1 then room - EstTokens(c.prefix[0].content)
                          else 1)
    ensures SummaryShown(LatestCompaction(items), room, c.prefix)
    ensures c.floor == Floor(Live(items)) && c.floorMessages == FitFloor(c.floor, verbatim)
    ensures c.overflow + c.kept == Without(Live(items), c.floor)
    ensures var used := Total(c.floorMessages);
            LongestEnd(c.overflow + c.kept, c.kept, if verbatim >= used then verbatim - used else 0)
    ensures exists shown :: ShowsWhole(shown, c.kept) && c.Messages() == c.prefix + shown + c.floorMessages
  {
    var prefix := Prefix(LatestCompaction(items), SummaryBudget(room));
    assert room == Budget(window, maxOutput);
    PrefixShown(LatestCompaction(items), room, prefix);
    VerbatimIs(prefix, room, verbatim);
    SelectShows(prefix, Live(items), verbatim, c);
  }

  lemma {:induction false} PrefixShown(c: Option<Item>, room: nat, prefix: seq<Message>)
    requires prefix == Prefix(c, SummaryBudget(room))
    ensures SummaryShown(c, room, prefix)
  {
  }

  lemma {:induction false} VerbatimIs(prefix: seq<Message>, room: nat, verbatim: nat)
    requires |prefix| <= 1 && room >= 1
    requires verbatim == (if prefix == [] then room
                          else if room - EstTokens(prefix[0].content) >= 1 then room - EstTokens(prefix[0].content)
                          else 1)
    ensures verbatim == VerbatimBudget(room, prefix)
  {
    if prefix != [] {
      assert prefix == [prefix[0]];
      TotalOne(prefix[0]);
    }
  }

  lemma {:induction false} SelectShows(prefix: seq<Message>, live: seq<Item>, verbatim: nat, c: Compiled)
    requires verbatim >= 1 && c == Select(prefix, live, verbatim)
    ensures c.floor == Floor(live) && c.floorMessages == FitFloor(c.floor, verbatim)
    ensures c.overflow + c.kept == Without(live, c.floor)
    ensures var used := Total(c.floorMessages);
            LongestEnd(c.overflow + c.kept, c.kept, if verbatim >= used then verbatim - used else 0)
    ensures exists shown :: ShowsWhole(shown, c.kept) && c.Messages() == c.prefix + shown + c.floorMessages
  {
    SelectParts(prefix, live, verbatim);
    KeptIs(Without(live, Floor(live)), Max(0, verbatim - Total(FitFloor(Floor(live), verbatim))));
    WholeShown(c.kept);
  }

  /** And the prompt for the worker: each message on a line of its own behind its role. */
  lemma {:induction false} JoinedIs(ms: seq<Message>, m: Message)
    ensures Joined([]) == "" && Joined([m]) == m.role + ": " + m.content
    ensures ms != [] ==> Joined(ms + [m]) == Joined(ms) + "\n" + m.role + ": " + m.content
  {
    assert (ms + [m])[..|ms|] == ms;
    assert ms != [] ==> Joined(ms + [m]) == Joined(ms) + "\n" + ContextFit.Line(m);
  }
}
