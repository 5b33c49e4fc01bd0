/** Finding and stripping in texts that are still growing. */
module TextSearch {
  import opened Text

  predicate StartsAt(text: string, k: nat, tag: string)
  {
    k + |tag| <= |text| && text[k..k + |tag|] == tag
  }

  /** `text.find(tag)`. */
  function Find(text: string, tag: string): (at: Option<nat>)
    ensures at.Some? ==> StartsAt(text, at.value, tag)
  {
    if tag <= text then Some(0)
    else if text == "" then None
    else
      var rest := Find(text[1..], tag);
      assert rest.Some? ==> text[1..][rest.value..rest.value + |tag|] == text[rest.value + 1..rest.value + 1 + |tag|];
      if rest.Some? then Some(rest.value + 1) else None
  }

  lemma {:induction false} StartsLater(text: string, k: nat, tag: string)
    requires text != ""
    ensures StartsAt(text[1..], k, tag) <==> StartsAt(text, k + 1, tag)
  {
    if k + 1 + |tag| <= |text| {
      assert text[1..][k..k + |tag|] == text[k + 1..k + 1 + |tag|];
    }
  }

  lemma {:induction false} StartsFirst(text: string, tag: string)
    ensures StartsAt(text, 0, tag) <==> tag <= text
  {
  }

  /** The first occurrence, and only if there is none, nothing. */
  lemma {:induction false} FindFirst(text: string, tag: string, k: nat)
    requires StartsAt(text, k, tag)
    ensures Find(text, tag).Some? && Find(text, tag).value <= k
  {
    StartsFirst(text, tag);
    if !(tag <= text) {
      assert text != "" by { assert text == "" && k == 0 ==> tag <= text; }
      StartsLater(text, k - 1, tag);
      FindFirst(text[1..], tag, k - 1);
    }
  }

  lemma {:induction false} StartsInPrefix(text: string, n: nat, k: nat, tag: string)
    requires n <= |text|
    ensures StartsAt(text[..n], k, tag) <==> StartsAt(text, k, tag) && k + |tag| <= n
  {
    if k + |tag| <= n {
      assert text[..n][k..k + |tag|] == text[k..k + |tag|];
    }
  }

  /** In a growing text, a tag is found once it is all there, and then for good. */
  lemma {:induction false} FindInPrefix(text: string, n: nat, tag: string)
    requires n <= |text|
    ensures Find(text[..n], tag) ==
            if Find(text, tag).Some? && Find(text, tag).value + |tag| <= n then Find(text, tag) else None
  {
    var part, whole := Find(text[..n], tag), Find(text, tag);
    if whole.Some? && whole.value + |tag| <= n {
      StartsInPrefix(text, n, whole.value, tag);
      FindFirst(text[..n], tag, whole.value);
    }
    if part.Some? {
      StartsInPrefix(text, n, part.value, tag);
      FindFirst(text, tag, part.value);
    }
  }

  /** `text.replace(tag, "")`. */
  function RemoveAll(text: string, tag: string): string
    requires tag != ""
  {
    if text == "" then ""
    else if tag <= text then RemoveAll(text[|tag|..], tag)
    else [text[0]] + RemoveAll(text[1..], tag)
  }

  lemma {:induction false} RemoveNone(text: string, tag: string)
    requires tag != "" && Find(text, tag).None?
    ensures RemoveAll(text, tag) == text
  {
    if text != "" {
      RemoveNone(text[1..], tag);
    }
  }

  /** A character that no tag ends with survives at the end. */
  lemma {:induction false} RemoveKeepsLast(text: string, tag: string, c: char)
    requires tag != "" && c !in tag && text != "" && text[|text| - 1] == c
    ensures RemoveAll(text, tag) != "" && RemoveAll(text, tag)[|RemoveAll(text, tag)| - 1] == c
  {
    assert tag[|tag| - 1] in tag;
    if tag <= text {
      RemoveKeepsLast(text[|tag|..], tag, c);
    } else if |text| > 1 {
      RemoveKeepsLast(text[1..], tag, c);
    } else {
      assert RemoveAll(text[1..], tag) == "";
    }
  }

  // ---------------------------------------------------------------- growing texts

  lemma {:induction false} LStripBreaksGrows(a: string, b: string)
    requires a <= b
    ensures LStripBreaks(a) <= LStripBreaks(b)
  {
    if a != "" && a[0] == '\n' {
      LStripBreaksGrows(a[1..], b[1..]);
    }
  }

  predicate AllBreaks(s: string)
  {
    forall k :: 0 <= k < |s| ==> s[k] == '\n'
  }

  /** What is stripped is line breaks. */
  lemma {:induction false} LStripBreaksSplits(s: string) returns (breaks: string)
    ensures AllBreaks(breaks) && s == breaks + LStripBreaks(s)
  {
    if s != "" && s[0] == '\n' {
      var more := LStripBreaksSplits(s[1..]);
      breaks := [s[0]] + more;
    } else {
      breaks := "";
    }
  }

  /** All but the last `hold` characters. */
  function Held(s: string, hold: nat): (r: string)
    ensures r <= s
  {
    s[..if |s| >= hold then |s| - hold else 0]
  }

  lemma {:induction false} HeldGrows(a: string, b: string, hold: nat)
    requires a <= b
    ensures Held(a, hold) <= Held(b, hold)
  {
  }

  lemma {:induction false} RemoveShortens(text: string, tag: string)
    requires tag != ""
    ensures |RemoveAll(text, tag)| <= |text|
    ensures Find(text, tag).Some? ==> |RemoveAll(text, tag)| < |text|
  {
    if text != "" {
      if tag <= text {
        RemoveShortens(text[|tag|..], tag);
      } else {
        RemoveShortens(text[1..], tag);
      }
    }
  }

  /** A tag that does not start with a space outlives the stripping before it. */
  lemma {:induction false} LStripKeeps(text: string, k: nat, tag: string)
    requires tag != "" && !IsSpace(tag[0]) && StartsAt(text, k, tag)
    ensures |LStrip(text)| >= |text| - k
  {
    assert text[k] == text[k..k + |tag|][0];
    if IsSpace(text[0]) {
      StartsLater(text, k - 1, tag);
      LStripKeeps(text[1..], k - 1, tag);
    }
  }

  /** How many spaces a text begins with. */
  function Blanks(text: string): (n: nat)
    ensures n <= |text|
  {
    if text != "" && IsSpace(text[0]) then 1 + Blanks(text[1..]) else 0
  }

  lemma {:induction false} LStripIs(text: string)
    ensures LStrip(text) == text[Blanks(text)..]
    ensures forall k :: 0 <= k < Blanks(text) ==> IsSpace(text[k])
  {
    if text != "" && IsSpace(text[0]) {
      LStripIs(text[1..]);
    }
  }

  lemma {:induction false} BlanksInPrefix(text: string, n: nat)
    requires n <= |text|
    ensures Blanks(text[..n]) == if n <= Blanks(text) then n else Blanks(text)
  {
    if n > 0 && IsSpace(text[0]) {
      assert text[..n][1..] == text[1..][..n - 1];
      BlanksInPrefix(text[1..], n - 1);
    }
  }

  /** A text that begins with a tag once stripped holds the tag. */
  lemma {:induction false} LeadingFound(text: string, tag: string)
    requires tag <= LStrip(text)
    ensures Find(text, tag).Some?
  {
    var at := Blanks(text);
    LStripIs(text);
    assert text[at..at + |tag|] == text[at..][..|tag|] == tag;
    FindFirst(text, tag, at);
  }
}
