/** Splitting a model's reasoning from its answer, at once or while it streams. */
module Think {
  import opened Text
  import opened TextSearch

  const OPEN: string := "<think>"
  const CLOSE: string := "</think>"
  const HOLD: nat := |CLOSE| - 1
  const SNIFF_CHARS: nat := 256

  datatype Parts = Parts(reasoning: string, content: string)

  predicate Opens(text: string)
  {
    OPEN <= LStrip(text)
  }

  /** `split_think`. */
  function SplitThink(text: string): Parts
  {
    match Find(text, CLOSE)
    case None =>
      if Opens(text) then Parts(RStripBreaks(LStripBreaks(LStrip(text)[|OPEN|..])), "") else Parts("", text)
    case Some(i) =>
      var head := LStrip(text[..i]);
      Parts(RStripBreaks(LStripBreaks(if OPEN <= head then head[|OPEN|..] else head)),
            LStripBreaks(text[i + |CLOSE|..]))
  }

  // ---------------------------------------------------------------- the splitter

  datatype Mode = Sniffing | Reasoning | Content

  /** The state: the hint, the mode, and how much of each part was sent. */
  datatype State = State(hint: Option<bool>, mode: Mode, rSent: nat, cSent: nat)

  /** The mode that a feed goes by. */
  function Lock(s: State, text: string, done: bool): Mode
  {
    var stripped := LStrip(text);
    if !s.mode.Sniffing? then s.mode
    else if !done && stripped != "" && |stripped| < |OPEN| && stripped <= OPEN then Sniffing
    else if OPEN <= stripped || Find(text, CLOSE).Some? then Reasoning
    else if s.hint == Some(true) then Reasoning
    else if done || s.hint == Some(false) || |text| >= SNIFF_CHARS then Content
    else Sniffing
  }

  function StripOpen(head: string): string
  {
    if Opens(head) then LStripBreaks(LStrip(head)[|OPEN|..]) else head
  }

  function StripTags(text: string, done: bool, hold: nat): string
  {
    RemoveAll(RemoveAll(if done then text else Held(text, hold), OPEN), CLOSE)
  }

  /** The rest of `total` beyond what was sent. */
  function Delta(total: string, sent: nat): string
  {
    if sent <= |total| then total[sent..] else ""
  }

  function EmitReasoning(s: State, total: string): (State, Parts)
  {
    (s.(rSent := |total|), Parts(Delta(total, s.rSent), ""))
  }

  function EmitContent(s: State, total: string): (State, Parts)
  {
    (s.(cSent := |total|), Parts("", Delta(total, s.cSent)))
  }

  /** One feed, with `hold` characters withheld; the program withholds `HOLD`. */
  function Fed(s: State, text: string, done: bool, hold: nat): (State, Parts)
  {
    var mode := Lock(s, text, done);
    var t := s.(mode := mode);
    match mode
    case Sniffing => (t, Parts("", ""))
    case Content => EmitContent(t, StripTags(text, done, hold))
    case Reasoning =>
      match Find(text, CLOSE)
      case Some(i) =>
        var content := LStripBreaks(text[i + |CLOSE|..]);
        var shown := if done then content else Held(content, hold);
        var reasoning := StripOpen(text[..i]);
        (t.(rSent := |reasoning|, cSent := |shown|), Parts(Delta(reasoning, t.rSent), Delta(shown, t.cSent)))
      case None =>
        if !done then EmitReasoning(t, StripOpen(Held(text, hold)))
        else if Opens(text) then EmitReasoning(t, StripOpen(text))
        else if t.rSent == 0 then EmitContent(t.(mode := Content), text)
        else EmitReasoning(t, StripOpen(text))
  }

  // -------------------------------------------------------------------- the class

  /** ASCII letters in lower case. */
  function Lower(s: string): string
  {
    seq(|s|, k requires 0 <= k < |s| => if 'A' <= s[k] <= 'Z' then (s[k] as int + 32) as char else s[k])
  }

  const MARKERS: seq<string> := ["nemotron", "qwen3", "r1", "gpt-oss", "reason", "think", "o1", "o3"]

  predicate IsReasoningFamily(family: string)
  {
    exists k :: 0 <= k < |MARKERS| && Find(Lower(family), MARKERS[k]).Some?
  }

  /** The hint, once a family has been named; an empty name is none. */
  function Hinted(hint: Option<bool>, family: string): Option<bool>
  {
    if hint.None? && family != "" then Some(IsReasoningFamily(family)) else hint
  }

  /** `set_family`. */
  function Named(s: State, family: string): State
  {
    if s.mode.Sniffing? then s.(hint := Hinted(s.hint, family)) else s
  }

  class StreamSplitter {
    var hint: Option<bool>
    var mode: Mode
    var rSent: nat
    var cSent: nat

    function Value(): State
      reads this
    {
      State(hint, mode, rSent, cSent)
    }

    constructor (assumed: Option<bool>)
      ensures Value() == State(assumed, Sniffing, 0, 0)
    {
      hint, mode, rSent, cSent := assumed, Sniffing, 0, 0;
    }

    method SetFamily(family: string)
      modifies this`hint
      ensures Value() == Named(old(Value()), family)
    {
      if mode.Sniffing? && hint.None? && family != "" {
        hint := Some(IsReasoningFamily(family));
      }
    }

    method Feed(text: string, done: bool) returns (r: string, c: string)
      modifies this`mode, this`rSent, this`cSent
      ensures (Value(), Parts(r, c)) == Fed(old(Value()), text, done, HOLD)
    {
      r, c := "", "";
      if mode.Sniffing? {
        var stripped := LStrip(text);
        if !done && stripped != "" && |stripped| < |OPEN| && stripped <= OPEN { return; }
        if OPEN <= stripped || Find(text, CLOSE).Some? {
          mode := Reasoning;
        } else if hint == Some(true) {
          mode := Reasoning;
        } else if done || hint == Some(false) || |text| >= SNIFF_CHARS {
          mode := Content;
        } else {
          return;
        }
      }
      if mode.Content? {
        c := SendContent(StripTags(text, done, HOLD));
      } else {
        r, c := FeedReasoning(text, done);
      }
    }

    /** A feed in reasoning mode. */
    method FeedReasoning(text: string, done: bool) returns (r: string, c: string)
      requires mode.Reasoning?
      modifies this`mode, this`rSent, this`cSent
      ensures (Value(), Parts(r, c)) == Fed(old(Value()), text, done, HOLD)
    {
      r, c := "", "";
      var found := Find(text, CLOSE);
      if found.Some? {
        r := SendReasoning(StripOpen(text[..found.value]));
        var content := LStripBreaks(text[found.value + |CLOSE|..]);
        if !done {
          content := Held(content, HOLD);
        }
        c := SendContent(content);
      } else if !done {
        r := SendReasoning(StripOpen(Held(text, HOLD)));
      } else if Opens(text) {
        r := SendReasoning(StripOpen(text));
      } else if rSent == 0 {
        mode := Content;
        c := SendContent(text);
      } else {
        r := SendReasoning(StripOpen(text));
      }
    }

    method SendReasoning(total: string) returns (delta: string)
      modifies this`rSent
      ensures delta == Delta(total, old(rSent)) && rSent == |total|
    {
      delta := if rSent <= |total| then total[rSent..] else "";
      rSent := |total|;
    }

    method SendContent(total: string) returns (delta: string)
      modifies this`cSent
      ensures delta == Delta(total, old(cSent)) && cSent == |total|
    {
      delta := if cSent <= |total| then total[cSent..] else "";
      cSent := |total|;
    }
  }
}
