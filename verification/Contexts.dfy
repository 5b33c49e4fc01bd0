/** The session context compiler: a log of turns, compiled into the messages that fit
    a model's window, with a rolling summary for what does not. */
module Contexts {
  import opened Text

  const SAFETY_TOKENS: int := 256

  datatype Kind = Plain | Compaction(covers: seq<int>)

  datatype Turn = Turn(role: string, content: string, kind: Kind)

  /** A turn with the context version it was appended as. */
  datatype Item = Item(version: int, turn: Turn)

  datatype Message = Message(role: string, content: string)

  function Max(a: int, b: int): int
  {
    if a >= b then a else b
  }

  // ---------------------------------------------------------------- estimates

  /** Four characters a token, and never less than one. */
  function EstTokens(text: string): (n: nat)
    ensures n >= 1
  {
    Max(1, |text| / 4)
  }

  /** The latest characters of `content` that are estimated at `maxTokens`. */
  function Tail(content: string, maxTokens: int): string
  {
    var maxChars := Max(1, maxTokens) * 4;
    if |content| <= maxChars then content else content[|content| - maxChars..]
  }

  /** Tokens for the compiled messages. */
  function Budget(window: int, maxOutput: int): (b: nat)
    ensures b >= 1
  {
    Max(1, window - maxOutput - SAFETY_TOKENS)
  }

  /** Tokens for the summary: 15 percent. */
  function SummaryBudget(budget: nat): (b: nat)
    ensures b >= 1
  {
    Max(1, budget * 15 / 100)
  }

  // ---------------------------------------------------------------- selection

  function LatestCompaction(items: seq<Item>): (c: Option<Item>)
    ensures c.Some? ==> c.value.turn.kind.Compaction?
  {
    if items == [] then None
    else if items[|items| - 1].turn.kind.Compaction? then Some(items[|items| - 1])
    else LatestCompaction(items[..|items| - 1])
  }

  function CoveredThrough(c: Option<Item>): int
  {
    if c.Some? && c.value.turn.kind.Compaction? && |c.value.turn.kind.covers| >= 2
    then c.value.turn.kind.covers[1] else 0
  }

  function IsLive(item: Item, covered: int): bool
  {
    item.version > covered && item.turn.kind.Plain?
  }

  function LiveTurns(items: seq<Item>, covered: int): seq<Item>
  {
    if items == [] then []
    else LiveTurns(items[..|items| - 1], covered)
         + if IsLive(items[|items| - 1], covered) then [items[|items| - 1]] else []
  }

  /** The turns that a compilation starts from. */
  function Live(items: seq<Item>): seq<Item>
  {
    LiveTurns(items, CoveredThrough(LatestCompaction(items)))
  }

  function LastOf(live: seq<Item>, role: string): Option<Item>
  {
    if live == [] then None
    else if live[|live| - 1].turn.role == role then Some(live[|live| - 1])
    else LastOf(live[..|live| - 1], role)
  }

  /** The last user turn and the last assistant turn, in log order. */
  function Floor(live: seq<Item>): (floor: seq<Item>)
    ensures |floor| <= 2
  {
    match (LastOf(live, "user"), LastOf(live, "assistant"))
    case (None, None) => []
    case (Some(u), None) => [u]
    case (None, Some(a)) => [a]
    case (Some(u), Some(a)) => if u.version <= a.version then [u, a] else [a, u]
  }

  function Without(live: seq<Item>, floor: seq<Item>): seq<Item>
  {
    if live == [] then []
    else Without(live[..|live| - 1], floor)
         + if HasVersion(floor, live[|live| - 1].version) then [] else [live[|live| - 1]]
  }

  predicate HasVersion(items: seq<Item>, version: int)
  {
    exists k :: 0 <= k < |items| && items[k].version == version
  }

  /** As many of the newest turns as fit in `leftover`, stopping at the first that
      does not. */
  function KeepNewest(older: seq<Item>, leftover: nat): (kept: seq<Item>)
    ensures |kept| <= |older|
  {
    if older == [] || EstTokens(older[|older| - 1].turn.content) > leftover then []
    else
      var last := older[|older| - 1];
      KeepNewest(older[..|older| - 1], leftover - EstTokens(last.turn.content)) + [last]
  }

  // --------------------------------------------------------------- compilation

  function AsMessage(turn: Turn, content: string): Message
  {
    Message(if turn.role == "system" || turn.role == "assistant" then turn.role else "user", content)
  }

  /** The floor turns, truncated from the front of the newest first. */
  function FitFloor(items: seq<Item>, budget: nat): (ms: seq<Message>)
    requires |items| <= 2 && budget >= 1
    ensures |ms| == |items|
  {
    if items == [] then []
    else if |items| == 1 then
      var turn := items[0].turn;
      [AsMessage(turn, if EstTokens(turn.content) > budget then Tail(turn.content, budget) else turn.content)]
    else
      var older, newer := items[0].turn, items[1].turn;
      var olderTok, newerTok := EstTokens(older.content), EstTokens(newer.content);
      if olderTok + newerTok <= budget then
        [AsMessage(older, older.content), AsMessage(newer, newer.content)]
      else if olderTok < budget then
        [AsMessage(older, older.content), AsMessage(newer, Tail(newer.content, Max(1, budget - olderTok)))]
      else
        var olderRoom := Max(1, budget / 2);
        var newerRoom := Max(1, budget - olderRoom);
        [AsMessage(older, Tail(older.content, olderRoom)), AsMessage(newer, Tail(newer.content, newerRoom))]
  }

  function AsMessages(items: seq<Item>): (ms: seq<Message>)
    ensures |ms| == |items|
  {
    seq(|items|, k requires 0 <= k < |items| => AsMessage(items[k].turn, items[k].turn.content))
  }

  function Total(ms: seq<Message>): nat
  {
    if ms == [] then 0 else Total(ms[..|ms| - 1]) + EstTokens(ms[|ms| - 1].content)
  }

  /** The summary message of the latest compaction, cut to its budget. */
  function Prefix(c: Option<Item>, summaryBudget: nat): (ms: seq<Message>)
    ensures |ms| <= 1
  {
    if c.None? then []
    else
      var content := c.value.turn.content;
      [Message("system", if EstTokens(content) > summaryBudget then Tail(content, summaryBudget) else content)]
  }

  /** A compilation: the summary if there is one, the kept turns, the floor, and the
      turns that did not fit. */
  datatype Compiled = Compiled(prefix: seq<Message>, kept: seq<Item>, floor: seq<Item>,
                               floorMessages: seq<Message>, overflow: seq<Item>)
  {
    function Messages(): seq<Message>
    {
      prefix + AsMessages(kept) + floorMessages
    }
  }

  /** Tokens left for turns once the summary is in. */
  function VerbatimBudget(budget: nat, prefix: seq<Message>): (b: nat)
    ensures b >= 1
  {
    if prefix == [] then Max(1, budget) else Max(1, budget - Total(prefix))
  }

  /** The floor first, then as many of the newest other turns as still fit. */
  function Select(prefix: seq<Message>, live: seq<Item>, verbatim: nat): Compiled
    requires verbatim >= 1
  {
    var floor := Floor(live);
    var floorMessages := FitFloor(floor, verbatim);
    var older := Without(live, floor);
    var kept := KeepNewest(older, Max(0, verbatim - Total(floorMessages)));
    Compiled(prefix, kept, floor, floorMessages, older[..|older| - |kept|])
  }

  function Compile(items: seq<Item>, window: int, maxOutput: int): Compiled
  {
    if items == [] then Compiled([], [], [], [], [])
    else
      var budget := Budget(window, maxOutput);
      var prefix := Prefix(LatestCompaction(items), SummaryBudget(budget));
      Select(prefix, Live(items), VerbatimBudget(budget, prefix))
  }

  // ------------------------------------------------------------ implementation

  /** Versions increase along the log, from one on. */
  ghost predicate Sorted(items: seq<Item>)
  {
    && (forall k :: 0 <= k < |items| ==> items[k].version >= 1)
    && (forall j, k :: 0 <= j < k < |items| ==> items[j].version < items[k].version)
  }

  lemma {:induction false} LiveSorted(items: seq<Item>, covered: int)
    requires Sorted(items)
    ensures Sorted(LiveTurns(items, covered))
    ensures forall x :: x in LiveTurns(items, covered) <==> x in items && IsLive(x, covered)
  {
    if items != [] {
      var init, last := items[..|items| - 1], items[|items| - 1];
      LiveSorted(init, covered);
      assert items == init + [last];
      forall x | x in LiveTurns(init, covered) ensures x.version < last.version {
        var k :| 0 <= k < |init| && init[k] == x;
      }
    }
  }

  lemma {:induction false} WithoutSorted(live: seq<Item>, floor: seq<Item>)
    requires Sorted(live)
    ensures Sorted(Without(live, floor))
    ensures forall x :: x in Without(live, floor) <==> x in live && !HasVersion(floor, x.version)
  {
    if live != [] {
      var init, last := live[..|live| - 1], live[|live| - 1];
      WithoutSorted(init, floor);
      assert live == init + [last];
      forall x | x in Without(init, floor) ensures x.version < last.version {
        var k :| 0 <= k < |init| && init[k] == x;
      }
    }
  }

  lemma {:induction false} WithoutPrefix(live: seq<Item>, floor: seq<Item>, k: nat)
    requires k <= |live|
    ensures Without(live[..k], floor) <= Without(live, floor)
  {
    if k < |live| {
      WithoutPrefix(live[..|live| - 1], floor, k);
      assert live[..|live| - 1][..k] == live[..k];
    } else {
      assert live[..k] == live;
    }
  }

  method FindFloor(live: seq<Item>) returns (floor: seq<Item>)
    ensures floor == Floor(live)
  {
    var lastUser: Option<Item>, lastAssistant: Option<Item> := None, None;
    for k := 0 to |live|
      invariant lastUser == LastOf(live[..k], "user") && lastAssistant == LastOf(live[..k], "assistant")
    {
      assert live[..k + 1][..k] == live[..k] && live[..k + 1][k] == live[k];
      if live[k].turn.role == "user" {
        lastUser := Some(live[k]);
      } else if live[k].turn.role == "assistant" {
        lastAssistant := Some(live[k]);
      }
    }
    assert live[..|live|] == live;
    match (lastUser, lastAssistant)
    case (None, None) => floor := [];
    case (Some(u), None) => floor := [u];
    case (None, Some(a)) => floor := [a];
    case (Some(u), Some(a)) => floor := if u.version <= a.version then [u, a] else [a, u];
  }

  method DropFloor(live: seq<Item>, floor: seq<Item>) returns (older: seq<Item>)
    ensures older == Without(live, floor)
  {
    older := [];
    for k := 0 to |live|
      invariant older == Without(live[..k], floor)
    {
      assert live[..k + 1][..k] == live[..k];
      if !HasVersion(floor, live[k].version) {
        older := older + [live[k]];
      }
    }
    assert live[..|live|] == live;
  }

  /** What the backwards loop over the older turns makes of its variables. */
  function PackFrom(older: seq<Item>, k: nat, leftover: nat, kept: seq<Item>): seq<Item>
    requires k <= |older|
    decreases k
  {
    if k == 0 || EstTokens(older[k - 1].turn.content) > leftover then kept
    else PackFrom(older, k - 1, leftover - EstTokens(older[k - 1].turn.content), [older[k - 1]] + kept)
  }

  lemma {:induction false} PackFromIs(older: seq<Item>, k: nat, leftover: nat, kept: seq<Item>)
    requires k <= |older|
    ensures PackFrom(older, k, leftover, kept) == KeepNewest(older[..k], leftover) + kept
    decreases k
  {
    if k > 0 {
      assert older[..k][..k - 1] == older[..k - 1] && older[..k][k - 1] == older[k - 1];
      var tok := EstTokens(older[k - 1].turn.content);
      if tok <= leftover {
        PackFromIs(older, k - 1, leftover - tok, [older[k - 1]] + kept);
      }
    }
  }

  method PackNewest(older: seq<Item>, budget: nat) returns (kept: seq<Item>)
    ensures kept == KeepNewest(older, budget)
  {
    kept := [];
    var leftover := budget;
    var k := |older|;
    PackFromIs(older, k, leftover, kept);
    assert older[..k] == older;
    while k > 0
      invariant 0 <= k <= |older|
      invariant PackFrom(older, k, leftover, kept) == KeepNewest(older, budget)
    {
      var tok := EstTokens(older[k - 1].turn.content);
      if tok > leftover { return; }
      kept := [older[k - 1]] + kept;
      leftover := leftover - tok;
      k := k - 1;
    }
  }

  lemma {:induction false} KeptByVersion(older: seq<Item>, cut: nat, at: nat)
    requires Sorted(older) && cut <= |older| && at < |older|
    ensures HasVersion(older[cut..], older[at].version) <==> at >= cut
  {
    if at >= cut {
      assert older[cut..][at - cut] == older[at];
    } else {
      forall j | 0 <= j < |older[cut..]| ensures older[cut..][j].version != older[at].version {
        assert older[cut..][j] == older[cut + j];
      }
    }
  }

  /** What is kept is the end of the older turns. */
  lemma {:induction false} KeptSuffix(older: seq<Item>, leftover: nat)
    ensures KeepNewest(older, leftover) == older[|older| - |KeepNewest(older, leftover)|..]
  {
    if older != [] && EstTokens(older[|older| - 1].turn.content) <= leftover {
      var init, last := older[..|older| - 1], older[|older| - 1];
      KeptSuffix(init, leftover - EstTokens(last.turn.content));
      assert older == init + [last];
    }
  }

  /** The overflow is what is neither in the floor nor kept, found by version. */
  method FindOverflow(live: seq<Item>, floor: seq<Item>, kept: seq<Item>, ghost older: seq<Item>)
      returns (overflow: seq<Item>)
    requires Sorted(live) && older == Without(live, floor)
    requires |kept| <= |older| && kept == older[|older| - |kept|..]
    ensures overflow == older[..|older| - |kept|]
  {
    ghost var cut := |older| - |kept|;
    OlderSorted(live, floor);
    overflow := [];
    ghost var seen := 0;
    for k := 0 to |live|
      invariant seen <= |older| && Without(live[..k], floor) == older[..seen]
      invariant overflow == Taken(older, seen, cut)
    {
      WithoutNext(live, floor, k, older, seen);
      if !HasVersion(floor, live[k].version) {
        KeptByVersion(older, cut, seen);
        TakenNext(older, seen, cut);
        if !HasVersion(kept, live[k].version) {
          overflow := overflow + [live[k]];
        }
        seen := seen + 1;
      }
    }
    assert live[..|live|] == live;
    TakenAll(older, seen, cut);
  }

  /** The first `seen` items, but no more than `cut`. */
  function Taken(older: seq<Item>, seen: nat, cut: nat): seq<Item>
    requires seen <= |older|
  {
    older[..if seen <= cut then seen else cut]
  }

  lemma {:induction false} TakenNext(older: seq<Item>, seen: nat, cut: nat)
    requires seen < |older|
    ensures Taken(older, seen + 1, cut)
            == if seen < cut then Taken(older, seen, cut) + [older[seen]] else Taken(older, seen, cut)
  {
  }

  lemma {:induction false} TakenAll(older: seq<Item>, seen: nat, cut: nat)
    requires seen <= |older| && older == older[..seen] && cut <= |older|
    ensures Taken(older, seen, cut) == older[..cut]
  {
    assert |older[..seen]| == seen;
  }

  lemma {:induction false} OlderSorted(live: seq<Item>, floor: seq<Item>)
    requires Sorted(live)
    ensures Sorted(Without(live, floor))
  {
    WithoutSorted(live, floor);
  }

  lemma {:induction false} WithoutNext(live: seq<Item>, floor: seq<Item>, k: nat, older: seq<Item>, seen: nat)
    requires k < |live| && older == Without(live, floor) && seen <= |older|
    requires Without(live[..k], floor) == older[..seen]
    ensures HasVersion(floor, live[k].version) ==> Without(live[..k + 1], floor) == older[..seen]
    ensures !HasVersion(floor, live[k].version) ==>
              seen < |older| && older[seen] == live[k] && Without(live[..k + 1], floor) == older[..seen + 1]
  {
    assert live[..k + 1][..k] == live[..k] && live[..k + 1][k] == live[k];
    WithoutPrefix(live, floor, k + 1);
  }

  method SelectTurns(prefix: seq<Message>, live: seq<Item>, verbatim: nat)
      returns (messages: seq<Message>, overflow: seq<Item>)
    requires Sorted(live) && verbatim >= 1
    ensures messages == Select(prefix, live, verbatim).Messages()
    ensures overflow == Select(prefix, live, verbatim).overflow
  {
    var floor := FindFloor(live);
    var floorMessages := FitFloor(floor, verbatim);
    var leftover := Max(0, verbatim - Total(floorMessages));
    var older := DropFloor(live, floor);
    var kept := PackNewest(older, leftover);
    KeptSuffix(older, leftover);
    overflow := FindOverflow(live, floor, kept, older);
    messages := prefix + AsMessages(kept) + floorMessages;
  }

  /** `_compile`. */
  method CompileTurns(items: seq<Item>, window: int, maxOutput: int)
      returns (messages: seq<Message>, overflow: seq<Item>)
    requires Sorted(items)
    ensures messages == Compile(items, window, maxOutput).Messages()
    ensures overflow == Compile(items, window, maxOutput).overflow
  {
    if items == [] {
      assert AsMessages([]) == [];
      return [], [];
    }
    var compaction := LatestCompaction(items);
    var live := LiveTurns(items, CoveredThrough(compaction));
    LiveSorted(items, CoveredThrough(compaction));
    var budget := Budget(window, maxOutput);
    var prefix := Prefix(compaction, SummaryBudget(budget));
    messages, overflow := SelectTurns(prefix, live, VerbatimBudget(budget, prefix));
  }

  // --------------------------------------------------------------- the log itself

  /** `ContextStore`: one log per session, appended with optimistic concurrency. */
  class ContextStore {
    var logs: map<string, seq<Item>>

    ghost predicate Valid()
      reads this
    {
      forall s :: s in logs ==> Sorted(logs[s])
    }

    constructor ()
      ensures Valid() && logs == map[]
    {
      logs := map[];
    }

    function Log(session: string): seq<Item>
      reads this
    {
      if session in logs then logs[session] else []
    }

    function LatestVersion(session: string): int
      reads this
    {
      LastVersion(Log(session))
    }

    /** Appends a turn as the next version, unless `expected` is stale. */
    method AppendTurn(session: string, expected: int, turn: Turn) returns (version: Option<int>)
      requires Valid()
      modifies this
      ensures Valid()
      ensures version.Some? <==> expected == old(LatestVersion(session))
      ensures version.None? ==> logs == old(logs)
      ensures version.Some? ==> version.value == expected + 1
      ensures version.Some? ==> logs == old(logs)[session := old(Log(session)) + [Item(expected + 1, turn)]]
    {
      var current := LatestVersion(session);
      if expected != current { return None; }
      NextSorted(Log(session), turn);
      logs := logs[session := Log(session) + [Item(current + 1, turn)]];
      version := Some(current + 1);
    }

    /** `_append_latest`: append against the current version. Nothing runs between
        the read and the write, so the first attempt succeeds. */
    method AppendLatest(session: string, turn: Turn) returns (version: int)
      requires Valid()
      modifies this
      ensures Valid()
      ensures version == old(LatestVersion(session)) + 1
      ensures logs == old(logs)[session := old(Log(session)) + [Item(version, turn)]]
    {
      var current := LatestVersion(session);
      var appended := AppendTurn(session, current, turn);
      version := appended.value;
    }
  }

  function LastVersion(items: seq<Item>): int
  {
    if items == [] then 0 else items[|items| - 1].version
  }

  lemma {:induction false} NextSorted(items: seq<Item>, turn: Turn)
    requires Sorted(items)
    ensures LastVersion(items) >= 0
    ensures Sorted(items + [Item(LastVersion(items) + 1, turn)])
  {
  }
}
