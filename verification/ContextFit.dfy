/** Compiled contexts fit: the token budget, and the router's test of the prompt. */
module ContextFit {
  import opened Text
  import opened Contexts

  // ------------------------------------------------------------ the token budget

  lemma {:induction false} TailTokens(content: string, k: int)
    ensures EstTokens(Tail(content, k)) <= Max(1, k)
  {
  }

  lemma {:induction false} TotalAppend(a: seq<Message>, b: seq<Message>)
    ensures Total(a + b) == Total(a) + Total(b)
  {
    if b == [] {
      assert a + b == a;
    } else {
      TotalAppend(a, b[..|b| - 1]);
      assert (a + b)[..|a + b| - 1] == a + b[..|b| - 1];
    }
  }

  lemma {:induction false} TotalOne(m: Message)
    ensures Total([m]) == EstTokens(m.content)
  {
    assert [m][..0] == [];
  }

  lemma {:induction false} TotalTwo(m: Message, n: Message)
    ensures Total([m, n]) == EstTokens(m.content) + EstTokens(n.content)
  {
    assert [m, n] == [m] + [n];
    TotalAppend([m], [n]);
    TotalOne(m);
    TotalOne(n);
  }

  /** The floor is cut to its budget; two turns need at least two tokens. */
  lemma {:induction false} FloorFits(items: seq<Item>, budget: nat)
    requires |items| <= 2 && budget >= 1 && (|items| == 2 ==> budget >= 2)
    ensures Total(FitFloor(items, budget)) <= budget
  {
    if |items| == 1 {
      TailTokens(items[0].turn.content, budget);
      TotalOne(FitFloor(items, budget)[0]);
    } else if |items| == 2 {
      var older, newer := items[0].turn, items[1].turn;
      TailTokens(newer.content, budget - EstTokens(older.content));
      TailTokens(older.content, budget / 2);
      TailTokens(newer.content, budget - budget / 2);
      var ms := FitFloor(items, budget);
      assert ms == [ms[0], ms[1]];
      TotalTwo(ms[0], ms[1]);
    }
  }

  lemma {:induction false} AsMessagesAppend(a: seq<Item>, b: seq<Item>)
    ensures AsMessages(a + b) == AsMessages(a) + AsMessages(b)
  {
  }

  lemma {:induction false} KeptFits(older: seq<Item>, leftover: nat)
    ensures Total(AsMessages(KeepNewest(older, leftover))) <= leftover
  {
    if older != [] && EstTokens(older[|older| - 1].turn.content) <= leftover {
      var init, last := older[..|older| - 1], older[|older| - 1];
      var tok := EstTokens(last.turn.content);
      KeptFits(init, leftover - tok);
      AsMessagesAppend(KeepNewest(init, leftover - tok), [last]);
      assert AsMessages([last]) == [AsMessage(last.turn, last.turn.content)];
      TotalAppend(AsMessages(KeepNewest(init, leftover - tok)), AsMessages([last]));
      TotalOne(AsMessages([last])[0]);
    } else {
      assert AsMessages([]) == [];
    }
  }

  lemma {:induction false} TotalThree(a: seq<Message>, b: seq<Message>, c: seq<Message>)
    ensures Total(a + b + c) == Total(a) + Total(b) + Total(c)
  {
    TotalAppend(a + b, c);
    TotalAppend(a, b);
  }

  lemma {:induction false} KeptAndFloorFit(live: seq<Item>, verbatim: nat)
    requires verbatim >= 1 && (|Floor(live)| == 2 ==> verbatim >= 2)
    ensures var c := Select([], live, verbatim);
            Total(AsMessages(c.kept)) + Total(c.floorMessages) <= verbatim
  {
    var fm := FitFloor(Floor(live), verbatim);
    FloorFits(Floor(live), verbatim);
    KeptFits(Without(live, Floor(live)), Max(0, verbatim - Total(fm)));
  }

  lemma {:induction false} SelectFits(prefix: seq<Message>, live: seq<Item>, verbatim: nat)
    requires verbatim >= 1 && (|Floor(live)| == 2 ==> verbatim >= 2)
    ensures Total(Select(prefix, live, verbatim).Messages()) <= Total(prefix) + verbatim
  {
    KeptAndFloorFit(live, verbatim);
    var c := Select(prefix, live, verbatim);
    TotalThree(prefix, AsMessages(c.kept), c.floorMessages);
  }

  lemma {:induction false} PrefixFits(c: Option<Item>, summaryBudget: nat)
    requires summaryBudget >= 1
    ensures Total(Prefix(c, summaryBudget)) <= summaryBudget
  {
    if c.Some? {
      TailTokens(c.value.turn.content, summaryBudget);
      TotalOne(Prefix(c, summaryBudget)[0]);
    }
  }

  /** What is left of the window for the compiled messages. */
  function Room(window: int, maxOutput: int): int
  {
    window - maxOutput - 256
  }

  lemma {:induction false} CompiledWithin(items: seq<Item>, window: int, maxOutput: int)
    requires Room(window, maxOutput) >= 3
    ensures Total(Compile(items, window, maxOutput).Messages()) <= Room(window, maxOutput)
  {
    var budget := Budget(window, maxOutput);
    if items == [] {
      assert AsMessages([]) == [];
    } else {
      var prefix := Prefix(LatestCompaction(items), SummaryBudget(budget));
      PrefixFits(LatestCompaction(items), SummaryBudget(budget));
      SelectFits(prefix, Live(items), VerbatimBudget(budget, prefix));
    }
  }

  ghost predicate AlwaysWithin(window: int, maxOutput: int)
  {
    forall items :: Sorted(items) ==> Total(Compile(items, window, maxOutput).Messages()) <= Room(window, maxOutput)
  }

  /** A summary, a question and an answer, all empty: three tokens. */
  function Smallest(): seq<Item>
  {
    [Item(1, Turn("system", "", Compaction([0, 0]))),
     Item(2, Turn("user", "", Plain)), Item(3, Turn("assistant", "", Plain))]
  }

  lemma {:induction false} SmallestLive()
    ensures Sorted(Smallest())
    ensures LatestCompaction(Smallest()) == Some(Smallest()[0])
    ensures Live(Smallest()) == Smallest()[1..]
    ensures Floor(Live(Smallest())) == Smallest()[1..]
  {
    var s := Smallest();
    assert s[..2] == [s[0], s[1]] && s[..2][..1] == [s[0]] && s[..2][..1][..0] == [];
    assert LatestCompaction(s[..2]) == LatestCompaction(s[..2][..1]);
    assert LiveTurns(s[..2][..1], 0) == [];
    assert LiveTurns(s[..2], 0) == [s[1]];
    var live := s[1..];
    assert live == [s[1], s[2]] && live[..1] == [s[1]];
    assert LiveTurns(s, 0) == LiveTurns(s[..2], 0) + [s[2]];
    assert LastOf(live[..1], "user") == Some(s[1]);
  }

  lemma {:induction false} SmallestTakesThree(window: int, maxOutput: int)
    ensures Total(Compile(Smallest(), window, maxOutput).Messages()) >= 3
  {
    SmallestLive();
    var c := Compile(Smallest(), window, maxOutput);
    TotalAppend(c.prefix + AsMessages(c.kept), c.floorMessages);
    TotalAppend(c.prefix, AsMessages(c.kept));
    TotalOne(c.prefix[0]);
    var f := c.floorMessages;
    assert f == [f[0], f[1]];
    TotalTwo(f[0], f[1]);
  }

  /** The compiled messages are always within what the window leaves for them exactly
      when it leaves at least three tokens. */
  lemma {:induction false} CompiledFitsIff(window: int, maxOutput: int)
    ensures AlwaysWithin(window, maxOutput) <==> Room(window, maxOutput) >= 3
  {
    if Room(window, maxOutput) >= 3 {
      forall items | Sorted(items)
        ensures Total(Compile(items, window, maxOutput).Messages()) <= Room(window, maxOutput)
      {
        CompiledWithin(items, window, maxOutput);
      }
    } else {
      SmallestLive();
      SmallestTakesThree(window, maxOutput);
    }
  }

  // ---------------------------------------------------------- the router's test

  function Line(m: Message): string
  {
    m.role + ": " + m.content
  }

  /** The prompt the router scores: role-prefixed lines. */
  function Joined(ms: seq<Message>): string
  {
    if ms == [] then ""
    else if |ms| == 1 then Line(ms[0])
    else Joined(ms[..|ms| - 1]) + "\n" + Line(ms[|ms| - 1])
  }

  /** `est_prompt_tokens` of a prompt. */
  function PromptTokens(prompt: string): nat
  {
    Max(1, |prompt| / 4)
  }

  /** The hard fit of the router's score. */
  predicate FitsWindow(prompt: string, window: int, maxOutput: int)
  {
    PromptTokens(prompt) + maxOutput <= window
  }

  predicate ShortRoles(ms: seq<Message>)
  {
    forall k :: 0 <= k < |ms| ==> |ms[k].role| <= |"assistant"|
  }

  lemma {:induction false} JoinedLength(ms: seq<Message>)
    requires ShortRoles(ms)
    ensures |Joined(ms)| <= 4 * Total(ms) + (if ms == [] then 0 else 15 * |ms| - 1)
  {
    if ms != [] {
      var last := ms[|ms| - 1];
      assert |Line(last)| <= 9 + 2 + |last.content| && |last.content| <= 4 * EstTokens(last.content) + 3;
      if |ms| == 1 {
        assert ms[..0] == [];
      } else {
        JoinedLength(ms[..|ms| - 1]);
      }
    }
  }

  lemma {:induction false} RolesAppend(a: seq<Message>, b: seq<Message>)
    requires ShortRoles(a) && ShortRoles(b)
    ensures ShortRoles(a + b)
  {
  }

  lemma {:induction false} FloorRoles(items: seq<Item>, budget: nat)
    requires |items| <= 2 && budget >= 1
    ensures ShortRoles(FitFloor(items, budget))
  {
  }

  lemma {:induction false} ItemRoles(items: seq<Item>)
    ensures ShortRoles(AsMessages(items))
  {
  }

  lemma {:induction false} SelectRoles(prefix: seq<Message>, live: seq<Item>, verbatim: nat)
    requires verbatim >= 1 && ShortRoles(prefix)
    ensures ShortRoles(Select(prefix, live, verbatim).Messages())
  {
    var c := Select(prefix, live, verbatim);
    FloorRoles(c.floor, verbatim);
    ItemRoles(c.kept);
    RolesAppend(prefix, AsMessages(c.kept));
    RolesAppend(prefix + AsMessages(c.kept), c.floorMessages);
  }

  lemma {:induction false} CompiledRoles(items: seq<Item>, window: int, maxOutput: int)
    ensures ShortRoles(Compile(items, window, maxOutput).Messages())
  {
    if items == [] {
      assert AsMessages([]) == [];
    } else {
      var budget := Budget(window, maxOutput);
      var prefix := Prefix(LatestCompaction(items), SummaryBudget(budget));
      SelectRoles(prefix, Live(items), VerbatimBudget(budget, prefix));
    }
  }

  /** A session prompt of at most 68 messages passes the router's test. */
  lemma {:induction false} CompiledPasses(items: seq<Item>, window: int, maxOutput: int)
    requires Room(window, maxOutput) >= 3
    requires |Compile(items, window, maxOutput).Messages()| <= 68
    ensures FitsWindow(Joined(Compile(items, window, maxOutput).Messages()), window, maxOutput)
  {
    CompiledWithin(items, window, maxOutput);
    CompiledRoles(items, window, maxOutput);
    JoinedLength(Compile(items, window, maxOutput).Messages());
  }

  /** A log of `n` equal answers. */
  function Answers(n: nat, text: string): (items: seq<Item>)
    ensures |items| == n
  {
    if n == 0 then [] else Answers(n - 1, text) + [Item(n, Turn("assistant", text, Plain))]
  }

  lemma {:induction false} AnswersInit(n: nat, text: string)
    requires n > 0
    ensures Answers(n, text)[..n - 1] == Answers(n - 1, text)
    ensures Answers(n, text)[n - 1] == Item(n, Turn("assistant", text, Plain))
  {
  }

  lemma {:induction false} AnswersSorted(n: nat, text: string)
    ensures Sorted(Answers(n, text))
    ensures forall k :: 0 <= k < n ==> Answers(n, text)[k].version == k + 1
  {
    if n > 0 { AnswersSorted(n - 1, text); }
  }

  lemma {:induction false} AnswersLive(n: nat, text: string)
    ensures LatestCompaction(Answers(n, text)) == None
    ensures LiveTurns(Answers(n, text), 0) == Answers(n, text)
    ensures LastOf(Answers(n, text), "user") == None
  {
    if n > 0 {
      AnswersInit(n, text);
      AnswersLive(n - 1, text);
    }
  }

  /** All but the floor, which is the last one. */
  lemma {:induction false} AnswersOlder(floor: seq<Item>, k: nat, text: string)
    requires |floor| == 1 && k < floor[0].version
    ensures Without(Answers(k, text), floor) == Answers(k, text)
  {
    if k > 0 {
      AnswersInit(k, text);
      AnswersOlder(floor, k - 1, text);
    }
  }

  lemma {:induction false} AnswersKept(k: nat, leftover: nat, text: string)
    requires k <= leftover && EstTokens(text) == 1
    ensures KeepNewest(Answers(k, text), leftover) == Answers(k, text)
  {
    if k > 0 {
      AnswersInit(k, text);
      AnswersKept(k - 1, leftover - 1, text);
    }
  }

  lemma {:induction false} AnswersFloor(n: nat, text: string, last: Item)
    requires n >= 1 && last == Item(n, Turn("assistant", text, Plain))
    ensures Floor(Answers(n, text)) == [last]
    ensures Without(Answers(n, text), [last]) == Answers(n - 1, text)
    ensures Answers(n, text) == Answers(n - 1, text) + [last]
  {
    AnswersLive(n, text);
    AnswersInit(n, text);
    assert HasVersion([last], n) by { assert [last][0].version == n; }
    AnswersOlder([last], n - 1, text);
  }

  lemma {:induction false} OneFits(last: Item, budget: nat)
    requires budget >= 1 && EstTokens(last.turn.content) == 1
    ensures FitFloor([last], budget) == AsMessages([last])
    ensures Total(AsMessages([last])) == 1
  {
    TotalOne(AsMessage(last.turn, last.turn.content));
    assert AsMessages([last]) == [AsMessage(last.turn, last.turn.content)];
  }

  lemma {:induction false} AnswersChosen(n: nat, text: string, last: Item)
    requires n >= 1 && EstTokens(text) == 1 && last == Item(n, Turn("assistant", text, Plain))
    ensures Select([], Answers(n, text), n)
            == Compiled([], Answers(n - 1, text), [last], AsMessages([last]), [])
  {
    AnswersFloor(n, text, last);
    OneFits(last, n);
    AnswersKept(n - 1, n - 1, text);
  }

  lemma {:induction false} AnswersSelected(n: nat, text: string)
    requires n >= 1 && EstTokens(text) == 1
    ensures Select([], Answers(n, text), n).Messages() == AsMessages(Answers(n, text))
  {
    var last := Item(n, Turn("assistant", text, Plain));
    AnswersChosen(n, text, last);
    SelectedIs(Compiled([], Answers(n - 1, text), [last], AsMessages([last]), []), Answers(n - 1, text), last);
  }

  lemma {:induction false} SelectedIs(c: Compiled, kept: seq<Item>, last: Item)
    requires c.prefix == [] && c.kept == kept && c.floorMessages == AsMessages([last])
    ensures c.Messages() == AsMessages(kept + [last])
  {
    AsMessagesAppend(kept, [last]);
  }

  lemma {:induction false} AnswersCompiled(n: nat, window: int, maxOutput: int, text: string)
    requires n >= 1 && Room(window, maxOutput) == n && EstTokens(text) == 1
    ensures Compile(Answers(n, text), window, maxOutput).Messages() == AsMessages(Answers(n, text))
  {
    AnswersLive(n, text);
    AnswersSelected(n, text);
  }

  lemma {:induction false} AnswersLength(n: nat, text: string)
    requires n >= 1 && |text| == 7
    ensures |Joined(AsMessages(Answers(n, text)))| == 19 * n - 1
  {
    var ms := AsMessages(Answers(n, text));
    assert ms[n - 1] == Message("assistant", text);
    if n > 1 {
      AnswersInit(n, text);
      assert ms[..n - 1] == AsMessages(Answers(n - 1, text));
      AnswersLength(n - 1, text);
    }
  }

  /** The logs whose compilation has `n` messages pass on every window. */
  ghost predicate PassesWith(n: nat)
  {
    forall items, window, maxOutput ::
      Sorted(items) && Room(window, maxOutput) >= 3 && |Compile(items, window, maxOutput).Messages()| == n
      ==> FitsWindow(Joined(Compile(items, window, maxOutput).Messages()), window, maxOutput)
  }

  /** And 68 is the limit: a number of messages is safe on every window exactly when
      it is at most 68, because the estimate of each message leaves out its role and
      up to three characters. */
  lemma {:induction false} PassesIff(n: nat)
    ensures PassesWith(n) <==> n <= 68
  {
    if n <= 68 {
      forall items, window, maxOutput |
        Sorted(items) && Room(window, maxOutput) >= 3 && |Compile(items, window, maxOutput).Messages()| == n
        ensures FitsWindow(Joined(Compile(items, window, maxOutput).Messages()), window, maxOutput)
      {
        CompiledPasses(items, window, maxOutput);
      }
    } else {
      var window, text := n + 256, "1234567";
      AnswersSorted(n, text);
      AnswersCompiled(n, window, 0, text);
      AnswersLength(n, text);
      assert !FitsWindow(Joined(Compile(Answers(n, text), window, 0).Messages()), window, 0);
    }
  }
}
