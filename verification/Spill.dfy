/** Replacing a payload too big to carry by its two ends and a note of where the rest is. */
module Spill {
  import opened Utf8
  import opened Wrappers
  import Decimal

  /** Where an artifact went, and how many bytes it holds. */
  datatype Ref = Ref(locator: seq<byte>, bytes: nat)

  datatype Spilled = Spilled(replacement: seq<byte>, ref: Ref)

  // ----- the note -----

  function Bytes(s: string): (b: seq<byte>)
    requires forall i :: 0 <= i < |s| ==> s[i] as int <= 0x7F
    ensures IsAscii(b) && |b| == |s|
  {
    seq(|s|, i requires 0 <= i < |s| => s[i] as int as byte)
  }

  /** The words of a note, around the count of what is omitted and the locator. */
  datatype RawWording = RawWording(lead: seq<byte>, middle: seq<byte>, close: seq<byte>)

  type Wording = w: RawWording | IsAscii(w.lead) && IsAscii(w.middle) && IsAscii(w.close)
    witness RawWording([], [], [])

  /** The words the policy uses. Nothing below depends on which they are. */
  const STORED_AT: Wording :=
    RawWording(
      Bytes("("),
      Bytes(" bytes omitted. ") + Bytes("The full result is stored at: "),
      Bytes(". Read that path to see it.)"))

  const GAP: seq<byte> := [10, 10]

  function Notice(w: Wording, omitted: nat, locator: seq<byte>): seq<byte> {
    w.lead + Bytes(Decimal.Show(omitted)) + w.middle + locator + w.close
  }

  /** A note of a smaller omission is never longer. */
  lemma NoticeMonotone(w: Wording, m: nat, n: nat, locator: seq<byte>)
    requires m <= n
    ensures |Notice(w, m, locator)| <= |Notice(w, n, locator)|
  {
    Decimal.WidthMonotone(m, n);
  }

  lemma NoticeIsText(w: Wording, omitted: nat, locator: seq<byte>)
    requires IsText(locator)
    ensures IsText(Notice(w, omitted, locator))
  {
    var count := Bytes(Decimal.Show(omitted));
    AsciiIsText(w.lead);
    AsciiIsText(count);
    AsciiIsText(w.middle);
    AsciiIsText(w.close);
    JoinIsText(w.lead, count);
    JoinIsText(w.lead + count, w.middle);
    JoinIsText(w.lead + count + w.middle, locator);
    JoinIsText(w.lead + count + w.middle + locator, w.close);
  }

  /** A note tells how much is omitted: of two that read alike for one locator the counts are
      the same. It names the locator, between its own words. */
  lemma NoticeTells(w: Wording, m: nat, n: nat, locator: seq<byte>)
    ensures Notice(w, m, locator) == Notice(w, n, locator) ==> m == n
    ensures Notice(w, m, locator) == (w.lead + Bytes(Decimal.Show(m)) + w.middle) + (locator + w.close)
  {
    assert w.lead + Bytes(Decimal.Show(m)) + w.middle + locator + w.close ==
           (w.lead + Bytes(Decimal.Show(m)) + w.middle) + (locator + w.close);
    if Notice(w, m, locator) == Notice(w, n, locator) {
      var a, b := Decimal.Show(m), Decimal.Show(n);
      NoticeLength(w, m, locator);
      NoticeLength(w, n, locator);
      forall i | 0 <= i < |a| ensures a[i] == b[i] {
        assert Notice(w, m, locator)[|w.lead| + i] == Bytes(a)[i] && Notice(w, n, locator)[|w.lead| + i] == Bytes(b)[i];
      }
      assert a == b;
      Decimal.ShowInjective(m, n);
    }
  }

  // ----- the two ends -----

  /** Step down to a boundary. */
  method FloorAt(text: seq<byte>, at: nat) returns (r: nat)
    ensures r == Floor(text, if at <= |text| then at else |text|)
  {
    r := if at <= |text| then at else |text|;
    while r > 0 && !Boundary(text, r)
      invariant r <= |text|
      invariant Floor(text, r) == Floor(text, if at <= |text| then at else |text|)
    {
      r := r - 1;
    }
  }

  function HeadCut(text: seq<byte>, budget: nat): nat
    requires budget < |text|
  {
    Floor(text, (budget + 1) / 2)
  }

  function TailCut(text: seq<byte>, budget: nat): nat
    requires budget < |text|
  {
    Floor(text, |text| - budget / 2)
  }

  function HeadTail(text: seq<byte>, budget: nat): (ends: seq<byte>)
    ensures |ends| <= |text|
  {
    if |text| <= budget then text
    else
      var head, tail := HeadCut(text, budget), TailCut(text, budget);
      if tail <= head then text else text[..head] + text[tail..]
  }

  /** How far the two cuts moved down: the head loses what it moves, the tail gains it. */
  function HeadLoss(text: seq<byte>, budget: nat): (n: nat)
    requires budget < |text|
  {
    (budget + 1) / 2 - HeadCut(text, budget)
  }

  function TailGain(text: seq<byte>, budget: nat): (n: nat)
    requires budget < |text|
  {
    |text| - budget / 2 - TailCut(text, budget)
  }

  /** The greatest place at or below `at` where the text can be cut. */
  ghost predicate IsCut(text: seq<byte>, at: nat, cut: nat) {
    && cut <= at && Boundary(text, cut)
    && forall k :: cut < k <= at ==> !Boundary(text, k)
  }

  /** `ends` is all of a text that fits the budget; of any other it is the front up to half
      the budget and the back from the other half on, each cut at the nearest place before,
      unless the two meet. The odd byte is the front's. */
  ghost predicate AreEnds(text: seq<byte>, budget: nat, ends: seq<byte>) {
    if |text| <= budget then ends == text
    else
      exists h: nat, t: nat :: EndsAt(text, budget, h, t)
        && ends == if h < t then text[..h] + text[t..] else text
  }

  /** The front ends at `h` and the back begins at `t`. */
  ghost predicate EndsAt(text: seq<byte>, budget: nat, h: nat, t: nat) {
    && budget < |text| && h <= |text| && t <= |text|
    && IsCut(text, (budget + 1) / 2, h) && IsCut(text, |text| - budget / 2, t)
  }

  /** What is left of a text is text, and it is the text's own two ends. */
  lemma HeadTailIsText(text: seq<byte>, budget: nat)
    requires IsText(text)
    ensures IsText(HeadTail(text, budget)) && AreEnds(text, budget, HeadTail(text, budget))
  {
    if budget < |text| {
      var head, tail := HeadCut(text, budget), TailCut(text, budget);
      assert EndsAt(text, budget, head, tail);
      if head < tail {
        CutIsText(text, head);
        CutIsText(text, tail);
        JoinIsText(text[..head], text[tail..]);
      }
    }
  }

  /** Text of one byte to a character is cut at just those two places. */
  lemma AsciiEnds(text: seq<byte>, budget: nat)
    requires IsAscii(text) && budget < |text|
    ensures HeadTail(text, budget) == text[..(budget + 1) / 2] + text[|text| - budget / 2..]
  {
    AsciiIsText(text);
    assert HeadCut(text, budget) == (budget + 1) / 2 && TailCut(text, budget) == |text| - budget / 2;
  }

  /** The two ends run over the budget by three bytes at most, and they run over it at all
      exactly when the tail's cut moves further than the head's. */
  lemma HeadTailOverrun(text: seq<byte>, budget: nat)
    requires IsText(text)
    ensures |HeadTail(text, budget)| <= budget + 3
    ensures |HeadTail(text, budget)| > budget <==> budget < |text| && TailGain(text, budget) > HeadLoss(text, budget)
  {
    if budget < |text| {
      FloorIsNear(text, (budget + 1) / 2);
      FloorIsNear(text, |text| - budget / 2);
    }
  }

  /** The same character of four bytes, `n` times. */
  function Smiles(n: nat): (t: seq<byte>)
    ensures |t| == 4 * n
  {
    if n == 0 then [] else Smiles(n - 1) + [0xF0, 0x9F, 0x98, 0x80]
  }

  lemma {:induction false} SmilesAreText(n: nat)
    ensures IsText(Smiles(n))
    ensures n > 0 ==> Continues(Smiles(n)[1]) && Continues(Smiles(n)[2])
  {
    if n > 0 {
      SmilesAreText(n - 1);
      var smile: seq<byte> := [0xF0, 0x9F, 0x98, 0x80];
      assert smile[4..] == [] && StartsWell(smile);
      JoinIsText(Smiles(n - 1), smile);
    }
  }

  /** Against a budget of three bytes such text keeps its last character, all four bytes of
      it. */
  lemma HeadTailOverruns(n: nat)
    requires n > 0
    ensures IsText(Smiles(n)) && |HeadTail(Smiles(n), 3)| == 4
  {
    var t := Smiles(n);
    SmilesAreText(n);
    assert Floor(t, 2) == Floor(t, 1) == 0;
    assert t[4 * n - 4..] == [0xF0, 0x9F, 0x98, 0x80];
    assert t[4 * n - 4] == 0xF0 && Continues(t[4 * n - 3]) && Continues(t[4 * n - 2]) && Continues(t[4 * n - 1]);
    assert Floor(t, 4 * n - 1) == Floor(t, 4 * n - 2) == Floor(t, 4 * n - 3) == 4 * n - 4;
    if n == 1 {
      assert HeadTail(t, 3) == t;
    }
  }

  // ----- the decision -----

  /** The preview's share of the cap, once the longest note there can be is paid for. */
  function Budget(w: Wording, cap: nat, content: seq<byte>, locator: seq<byte>): nat {
    var reserve := |Notice(w, |content|, locator)| + 2;
    if reserve <= cap then cap - reserve else 0
  }

  function Preview(w: Wording, cap: nat, content: seq<byte>, locator: seq<byte>): seq<byte> {
    HeadTail(content, Budget(w, cap, content, locator))
  }

  /** The note that goes with the preview. */
  function Note(w: Wording, cap: nat, content: seq<byte>, locator: seq<byte>): seq<byte> {
    Notice(w, |content| - |Preview(w, cap, content, locator)|, locator)
  }

  function Replacement(preview: seq<byte>, note: seq<byte>): seq<byte> {
    if preview == [] then note else preview + GAP + note
  }

  /** `saved` is what the store answers for this payload; a store that fails keeps it
      inline. */
  function Apply(w: Wording, cap: nat, content: seq<byte>, saved: Option<Ref>): Option<Spilled> {
    if |content| <= cap then None
    else
      match saved
      case None => None
      case Some(ref) =>
        var preview := Preview(w, cap, content, ref.locator);
        var replacement := Replacement(preview, Note(w, cap, content, ref.locator));
        if |replacement| <= cap then Some(Spilled(replacement, ref)) else None
  }

  /** A replacement is only ever made for a payload over the cap that was saved; it is
      text, it fits the cap, so it is smaller than what it replaces; what it omits and what
      it shows are together the whole payload. */
  lemma ReplacementFits(w: Wording, cap: nat, content: seq<byte>, saved: Option<Ref>)
    requires IsText(content) && (saved.Some? ==> IsText(saved.value.locator))
    ensures match Apply(w, cap, content, saved)
            case None => true
            case Some(spilled) =>
              && saved == Some(spilled.ref)
              && |spilled.replacement| <= cap < |content|
              && IsText(spilled.replacement)
              && exists preview :: Shows(w, cap, content, preview, spilled)
  {
    if |content| > cap && saved.Some? {
      var preview := Preview(w, cap, content, saved.value.locator);
      HeadTailIsText(content, Budget(w, cap, content, saved.value.locator));
      ShowsEnds(w, cap, content, preview, saved.value);
      ApplyIs(w, cap, content, saved.value);
    }
  }

  lemma ShowsEnds(w: Wording, cap: nat, content: seq<byte>, preview: seq<byte>, ref: Ref)
    requires IsText(preview) && |preview| <= |content| && IsText(ref.locator)
    requires AreEnds(content, Room(cap, |Notice(w, |content|, ref.locator)|), preview)
    ensures var replacement := Replacement(preview, Notice(w, |content| - |preview|, ref.locator));
            IsText(replacement) && Shows(w, cap, content, preview, Spilled(replacement, ref))
  {
    NoticeIsText(w, |content| - |preview|, ref.locator);
    ReplacementIsText(preview, Notice(w, |content| - |preview|, ref.locator));
  }

  lemma ReplacementIsText(preview: seq<byte>, note: seq<byte>)
    requires IsText(preview) && IsText(note)
    ensures IsText(Replacement(preview, note))
  {
    AsciiIsText(GAP);
    JoinIsText(preview, GAP);
    JoinIsText(preview + GAP, note);
  }

  /** The bytes left for a preview within the cap beside a note of `n` bytes and the gap. */
  function Room(cap: nat, n: nat): nat {
    if n + 2 <= cap then cap - (n + 2) else 0
  }

  /** The replacement shows `preview`, the two ends of the payload that there is room for
      beside the longest note, then a blank line and a note that counts the rest; the note
      alone when there is nothing to show. */
  ghost predicate Shows(w: Wording, cap: nat, content: seq<byte>, preview: seq<byte>, spilled: Spilled) {
    && |preview| <= |content|
    && AreEnds(content, Room(cap, |Notice(w, |content|, spilled.ref.locator)|), preview)
    && var note := Notice(w, |content| - |preview|, spilled.ref.locator);
       spilled.replacement == if preview == [] then note else preview + [10, 10] + note
  }

  /** How much of the payload lies between the two cuts. */
  function Between(text: seq<byte>, budget: nat): nat
    requires budget < |text|
  {
    if HeadCut(text, budget) < TailCut(text, budget) then TailCut(text, budget) - HeadCut(text, budget) else 0
  }

  /** The bytes the tail's cut wins over what the head's loses are no more than the digits
      by which the count of what is left out is shorter than the count of the whole. */
  predicate OverrunPaid(text: seq<byte>, budget: nat)
    requires budget < |text|
  {
    TailGain(text, budget) - HeadLoss(text, budget)
      <= |Decimal.Show(|text|)| - |Decimal.Show(Between(text, budget))|
  }

  /** Exactly when a saved payload over the cap is replaced: the note at its longest fits
      the cap, and either there is no room for a preview beside it or what the cuts overrun
      is paid for. */
  lemma ApplyExactly(w: Wording, cap: nat, content: seq<byte>, ref: Ref)
    requires IsText(content) && |content| > cap
    ensures var longest, budget := |Notice(w, |content|, ref.locator)|, Budget(w, cap, content, ref.locator);
            Apply(w, cap, content, Some(ref)).Some? <==>
              longest <= cap && (longest + 2 <= cap ==> OverrunPaid(content, budget))
  {
    var budget := Budget(w, cap, content, ref.locator);
    ApplyWeighed(w, cap, content, ref);
    NoticeLength(w, |content|, ref.locator);
    if |Notice(w, |content|, ref.locator)| + 2 <= cap {
      CutsApart(content, budget);
      NoticeLength(w, Between(content, budget), ref.locator);
    }
  }

  lemma ApplyWeighed(w: Wording, cap: nat, content: seq<byte>, ref: Ref)
    requires |content| > cap
    ensures var longest, preview := |Notice(w, |content|, ref.locator)|, Preview(w, cap, content, ref.locator);
            Apply(w, cap, content, Some(ref)).Some? <==>
              longest <= cap
              && (longest + 2 <= cap ==>
                    |preview| - Budget(w, cap, content, ref.locator) <= longest - |Note(w, cap, content, ref.locator)|)
  {
    Priced(w, cap, content, ref.locator);
    ApplyIs(w, cap, content, ref);
    Weigh(cap, Preview(w, cap, content, ref.locator), Notice(w, |content|, ref.locator),
          Note(w, cap, content, ref.locator), Budget(w, cap, content, ref.locator));
  }

  lemma NoticeLength(w: Wording, omitted: nat, locator: seq<byte>)
    ensures |Notice(w, omitted, locator)| ==
            |w.lead| + |w.middle| + |w.close| + |locator| + |Decimal.Show(omitted)|
  {
  }

  /** The cuts of a payload well over its budget do not cross, so what is left out is what
      lies between them. */
  lemma CutsApart(text: seq<byte>, budget: nat)
    requires IsText(text) && budget + 3 < |text|
    ensures |text| - |HeadTail(text, budget)| == Between(text, budget)
    ensures |HeadTail(text, budget)| - budget == TailGain(text, budget) - HeadLoss(text, budget)
  {
    FloorIsNear(text, (budget + 1) / 2);
    FloorIsNear(text, |text| - budget / 2);
  }

  lemma ApplyIs(w: Wording, cap: nat, content: seq<byte>, ref: Ref)
    requires |content| > cap
    ensures var preview, note := Preview(w, cap, content, ref.locator), Note(w, cap, content, ref.locator);
            Apply(w, cap, content, Some(ref)) ==
            if |Replacement(preview, note)| <= cap then Some(Spilled(Replacement(preview, note), ref)) else None
  {
  }

  /** The longest note is paid for before the preview, or there is no preview and the note
      is the longest. */
  lemma Priced(w: Wording, cap: nat, content: seq<byte>, locator: seq<byte>)
    requires cap < |content|
    ensures var longest := Notice(w, |content|, locator);
            && |Note(w, cap, content, locator)| <= |longest|
            && if |longest| + 2 <= cap then Budget(w, cap, content, locator) == cap - (|longest| + 2)
               else Preview(w, cap, content, locator) == [] && Note(w, cap, content, locator) == longest
  {
    NoticeMonotone(w, |content| - |Preview(w, cap, content, locator)|, |content|, locator);
  }

  lemma Weigh(cap: nat, preview: seq<byte>, longest: seq<byte>, note: seq<byte>, budget: nat)
    requires |note| <= |longest|
    requires if |longest| + 2 <= cap then budget == cap - (|longest| + 2) else preview == [] && note == longest
    ensures |Replacement(preview, note)| <= cap <==>
            |longest| <= cap && (|longest| + 2 <= cap ==> |preview| - budget <= |longest| - |note|)
  {
  }

  /** So a payload is kept inline although the note at its longest leaves room for a
      preview, when the one more byte the preview takes is not won back. */
  lemma KeptThoughNoteFits(w: Wording, n: nat, ref: Ref)
    requires n > 1 && |Notice(w, 4 * n - 4, ref.locator)| == |Notice(w, 4 * n, ref.locator)| < 4 * n - 5
    ensures Apply(w, |Notice(w, 4 * n, ref.locator)| + 5, Smiles(n), Some(ref)) == None
  {
    var cap := |Notice(w, 4 * n, ref.locator)| + 5;
    HeadTailOverruns(n);
    ApplyExactly(w, cap, Smiles(n), ref);
    NoticeLength(w, 4 * n, ref.locator);
    NoticeLength(w, 4 * n - 4, ref.locator);
    CutsApart(Smiles(n), 3);
  }

  /** It happens with the policy's own words: a hundred characters of four bytes, wherever
      they were stored so long as the locator is no longer than a path is. */
  lemma KeptByThePolicy(ref: Ref)
    requires |ref.locator| <= 300
    ensures |Notice(STORED_AT, 400, ref.locator)| < 395
    ensures Apply(STORED_AT, |Notice(STORED_AT, 400, ref.locator)| + 5, Smiles(100), Some(ref)) == None
  {
    NoticeLength(STORED_AT, 400, ref.locator);
    NoticeLength(STORED_AT, 396, ref.locator);
    assert |STORED_AT.lead| + |STORED_AT.middle| + |STORED_AT.close| == 75;
    assert |Decimal.Show(400)| == |Decimal.Show(396)| == 3;
    KeptThoughNoteFits(STORED_AT, 100, ref);
  }

  lemma AsciiPays(text: seq<byte>, budget: nat)
    requires IsAscii(text) && budget < |text|
    ensures OverrunPaid(text, budget)
  {
    AsciiIsText(text);
    Decimal.WidthMonotone(Between(text, budget), |text|);
  }

  /** For text of one byte to a character nothing overruns: it is replaced exactly when it
      is over the cap, it was saved and the longest note fits. */
  lemma ApplyAscii(w: Wording, cap: nat, content: seq<byte>, saved: Option<Ref>)
    requires IsAscii(content)
    ensures Apply(w, cap, content, saved).Some? <==>
            |content| > cap && saved.Some? && |Notice(w, |content|, saved.value.locator)| <= cap
  {
    if |content| > cap && saved.Some? {
      var locator := saved.value.locator;
      AsciiIsText(content);
      ApplyExactly(w, cap, content, saved.value);
      AsciiPays(content, Budget(w, cap, content, locator));
    }
  }
}
