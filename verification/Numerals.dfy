/** Which concept a numeral in a sentence is attributed to (audit/scoring/numerals.py). The texts are
    the numeral's neighbourhood, before it and after it. */
module Numerals {
  import opened Options
  import opened Text

  const BEFORE_REACH := 45
  const AFTER_REACH := 12
  const ADJACENT_REACH := 4

  /* ---------- The numeral's own sentence ---------- */

  predicate BreakAt(s: string, i: nat) {
    i + 1 < |s| && (s[i] == '.' || s[i] == ';' || s[i] == '\n') && IsSpace(s[i + 1])
  }

  function FirstBreak(s: string): (i: Option<nat>)
    ensures i.Some? ==> BreakAt(s, i.value)
  {
    if |s| < 2 then None
    else if BreakAt(s, 0) then Some(0)
    else match FirstBreak(s[1..])
      case None => None
      case Some(i) => Some(i + 1)
  }

  /** What is left once every break, found leftmost and without overlap, is passed. */
  function AfterBreaks(s: string): (r: string)
    ensures |r| <= |s|
  {
    match FirstBreak(s)
    case None => s
    case Some(i) => AfterBreaks(s[i + 2..])
  }

  function UptoBreak(s: string): string {
    match FirstBreak(s)
    case None => s
    case Some(i) => s[..i]
  }

  /** A full stop, a semicolon or a line end, and spacing after it. */
  ghost predicate EndsSentence(c: char, d: char) { c in ".;\n" && IsSpace(d) }

  lemma BreakAtExactly(s: string, i: nat)
    ensures BreakAt(s, i) <==> i + 1 < |s| && EndsSentence(s[i], s[i + 1])
  {
    assert "."[0] in ".;\n" && ";"[0] in ".;\n" && "\n"[0] in ".;\n" by {
      assert ".;\n"[0] == '.' && ".;\n"[1] == ';' && ".;\n"[2] == '\n';
    }
  }

  /** No sentence ends inside the text. */
  ghost predicate OneSentence(s: string) { forall i :: 0 <= i < |s| - 1 ==> !EndsSentence(s[i], s[i + 1]) }

  /** The text right behind the end of a sentence, or all of it. */
  ghost predicate BeginsSentence(s: string, r: string) {
    && |r| <= |s| && r == s[|s| - |r|..]
    && (r == s || (|s| - |r| >= 2 && EndsSentence(s[|s| - |r| - 2], s[|s| - |r| - 1])))
  }

  ghost predicate Unbroken(s: string) { forall i: nat :: !BreakAt(s, i) }

  lemma {:induction false} FirstBreakIsFirst(s: string)
    ensures match FirstBreak(s)
            case Some(i) => forall j: nat :: j < i ==> !BreakAt(s, j)
            case None => Unbroken(s)
  {
    if |s| >= 2 && !BreakAt(s, 0) {
      FirstBreakIsFirst(s[1..]);
      forall j: nat | 0 < j ensures BreakAt(s, j) <==> BreakAt(s[1..], j - 1) { }
    }
  }

  /** The end of a text from right behind a break, or the whole text. */
  ghost predicate FromABreak(s: string, r: string) {
    && |r| <= |s| && r == s[|s| - |r|..]
    && (r == s || (|s| - |r| >= 2 && BreakAt(s, |s| - |r| - 2)))
  }

  lemma FromABreakFurtherOn(s: string, i: nat, r: string)
    requires BreakAt(s, i) && FromABreak(s[i + 2..], r)
    ensures FromABreak(s, r)
  {
    var rest := s[i + 2..];
    assert |rest| == |s| - i - 2;
    assert s[|s| - |r|..] == rest[|rest| - |r|..];
    if r != rest { BreakFurtherOn(s, i + 2, |rest| - |r| - 2); }
  }

  lemma OneBreakLess(s: string)
    ensures match FirstBreak(s)
            case None => AfterBreaks(s) == s && Unbroken(s)
            case Some(i) => i + 2 <= |s| && BreakAt(s, i) && AfterBreaks(s) == AfterBreaks(s[i + 2..])
  {
    FirstBreakIsFirst(s);
  }

  lemma {:induction false} SentenceBefore(before: string)
    ensures Unbroken(AfterBreaks(before)) && FromABreak(before, AfterBreaks(before))
    decreases |before|
  {
    hide Unbroken, FromABreak, BreakAt, FirstBreak, AfterBreaks;
    OneBreakLess(before);
    match FirstBreak(before)
    case None => WholeText(before);
    case Some(i) =>
      SentenceBefore(before[i + 2..]);
      FromABreakFurtherOn(before, i, AfterBreaks(before[i + 2..]));
  }

  lemma WholeText(s: string)
    ensures FromABreak(s, s)
  {
  }

  lemma BreakFurtherOn(s: string, k: nat, i: nat)
    requires k <= |s|
    ensures BreakAt(s[k..], i) <==> BreakAt(s, k + i)
  {
  }

  lemma SentenceAfter(after: string)
    ensures Unbroken(UptoBreak(after)) && UptoBreak(after) <= after
    ensures UptoBreak(after) == after || BreakAt(after, |UptoBreak(after)|)
  {
    FirstBreakIsFirst(after);
    forall j: nat ensures !BreakAt(UptoBreak(after), j) { assert BreakAt(UptoBreak(after), j) ==> BreakAt(after, j); }
  }

  /** The window lies inside one sentence: no break on either side of the numeral, and on each side it
      runs to the end of the text or right up to a break. */
  lemma WindowIsOneSentence(before: string, after: string)
    ensures OneSentence(AfterBreaks(before)) && BeginsSentence(before, AfterBreaks(before))
    ensures OneSentence(UptoBreak(after)) && UptoBreak(after) <= after
    ensures var n := |UptoBreak(after)|; n == |after| || (n + 1 < |after| && EndsSentence(after[n], after[n + 1]))
  {
    hide Unbroken, FromABreak, BeginsSentence, OneSentence, BreakAt, EndsSentence, AfterBreaks, UptoBreak;
    SentenceBefore(before);
    SentenceAfter(after);
    UnbrokenIsOne(AfterBreaks(before));
    UnbrokenIsOne(UptoBreak(after));
    BreakAtExactly(after, |UptoBreak(after)|);
    BreakBegins(before, AfterBreaks(before));
  }

  lemma BreakBegins(s: string, r: string)
    requires FromABreak(s, r)
    ensures BeginsSentence(s, r)
  {
    hide EndsSentence, BreakAt;
    if r != s { BreakAtExactly(s, |s| - |r| - 2); }
  }

  lemma UnbrokenIsOne(s: string)
    requires Unbroken(s)
    ensures OneSentence(s)
  {
    forall i | 0 <= i < |s| - 1 ensures !EndsSentence(s[i], s[i + 1]) { BreakAtExactly(s, i); }
  }

  /* ---------- Candidates ---------- */

  datatype Phrase = Phrase(text: string, concept: string)

  /** Ordered by distance, then longer phrases first, then by name. */
  datatype Candidate = Candidate(distance: int, brevity: int, concept: string)

  predicate Less(a: Candidate, b: Candidate) {
    || a.distance < b.distance
    || (a.distance == b.distance && a.brevity < b.brevity)
    || (a.distance == b.distance && a.brevity == b.brevity && Precedes(a.concept, b.concept))
  }

  lemma LessIsTotal(a: Candidate, b: Candidate)
    ensures a == b || Less(a, b) || Less(b, a)
    ensures !(Less(a, b) && Less(b, a))
  {
    PrecedesIsTotal(a.concept, b.concept);
  }

  lemma LessIsTransitive(a: Candidate, b: Candidate, c: Candidate)
    requires Less(a, b) && Less(b, c)
    ensures Less(a, c)
  {
    if a.distance == c.distance && a.brevity == c.brevity { PrecedesIsTransitive(a.concept, b.concept, c.concept); }
  }

  function Clip(s: string, from: nat, upTo: nat): string {
    if from >= |s| || upTo <= from then "" else if upTo <= |s| then s[from..upTo] else s[from..]
  }

  /** The last occurrence of the phrase before the numeral, near enough and with no figure between. */
  function Behind(p: Phrase, before: string): Option<Candidate> {
    match FindLast(before, p.text)
    case None => None
    case Some(i) =>
      var gap := before[i + |p.text|..];
      if |gap| <= BEFORE_REACH && !HasDigit(gap) then Some(Candidate(|gap|, -|p.text|, p.concept)) else None
  }

  /** The first occurrence after it: right behind the numeral it is the numeral's label; further away
      it counts only while no figure of its own follows. `newItem` is the pattern of a list's next item. */
  function Ahead(p: Phrase, after: string, newItem: string -> bool): Option<Candidate> {
    match Find(after, p.text)
    case None => None
    case Some(i) =>
      if i > AFTER_REACH || HasDigit(after[..i]) then None
      else
        var adjacent := i <= ADJACENT_REACH && !newItem(after[..i]);
        var claimed := HasDigit(Clip(after, i + |p.text|, i + |p.text| + 25));
        if adjacent || !claimed then Some(Candidate(if adjacent then -1 else i + 3, -|p.text|, p.concept)) else None
  }

  function Lesser(best: Option<Candidate>, c: Option<Candidate>): Option<Candidate> {
    if c.Some? && (best.None? || Less(c.value, best.value)) then c else best
  }

  function Least(table: seq<Phrase>, before: string, after: string, newItem: string -> bool): Option<Candidate> {
    if table == [] then None
    else
      var p := table[|table| - 1];
      Lesser(Lesser(Least(table[..|table| - 1], before, after, newItem), Behind(p, before)), Ahead(p, after, newItem))
  }

  /** The phrases that only contain a concept's name, near the numeral. */
  predicate Blocked(blocking: seq<string>, before: string, after: string) {
    var near := if |before| <= 45 then before else before[|before| - 45..];
    exists b <- blocking :: Contains(near, b) || Contains(Clip(after, 0, 40), b)
  }

  method ConceptFrom(table: seq<Phrase>, blocking: seq<string>, before: string, after: string, newItem: string -> bool)
      returns (chosen: Option<string>)
    ensures chosen == Attributed(table, blocking, before, after, newItem)
  {
    var loweredBefore, loweredAfter := LowerAll(AfterBreaks(before)), LowerAll(UptoBreak(after));
    var best: Option<Candidate> := None;
    for i := 0 to |table|
      invariant best == Least(table[..i], loweredBefore, loweredAfter, newItem)
    {
      assert table[..i + 1][..i] == table[..i];
      var candidate := Behind(table[i], loweredBefore);
      if candidate.Some? && (best.None? || Less(candidate.value, best.value)) { best := candidate; }
      candidate := Ahead(table[i], loweredAfter, newItem);
      if candidate.Some? && (best.None? || Less(candidate.value, best.value)) { best := candidate; }
    }
    assert table[..|table|] == table;
    chosen := if best.Some? then Some(best.value.concept) else None;
    if chosen.Some? && Blocked(blocking, loweredBefore, loweredAfter) { chosen := None; }
  }

  function Attributed(table: seq<Phrase>, blocking: seq<string>, before: string, after: string, newItem: string -> bool)
      : Option<string>
  {
    var b, a := LowerAll(AfterBreaks(before)), LowerAll(UptoBreak(after));
    var best := Least(table, b, a, newItem);
    if best.None? || Blocked(blocking, b, a) then None else Some(best.value.concept)
  }

  /* ---------- What is attributed ---------- */

  /** The text has no figure from index `from` up to `end`. */
  ghost predicate NoFigure(s: string, from: int, end: int) {
    forall k :: 0 <= k < |s| && from <= k < end ==> !('0' <= s[k] <= '9')
  }

  /** A phrase stands last at `i` before the numeral, within reach and with no figure between. */
  ghost predicate StandsBehind(p: Phrase, before: string, i: nat) {
    && At(before, p.text, i) && (forall j: nat :: i < j ==> !At(before, p.text, j))
    && |before| - (i + |p.text|) <= BEFORE_REACH && NoFigure(before, i + |p.text|, |before|)
  }

  /** Right behind the numeral, where no next item of a list begins, a phrase is the numeral's label. */
  ghost predicate IsLabel(after: string, i: nat, newItem: string -> bool) {
    i <= |after| && i <= ADJACENT_REACH && !newItem(after[..i])
  }

  /** The same ahead of the numeral, where a phrase that is not its label must have no figure of its own. */
  ghost predicate StandsAhead(p: Phrase, after: string, i: nat, newItem: string -> bool) {
    && At(after, p.text, i) && (forall j: nat :: j < i ==> !At(after, p.text, j))
    && i <= AFTER_REACH && NoFigure(after, 0, i)
    && (IsLabel(after, i, newItem) || NoFigure(after, i + |p.text|, i + |p.text| + 25))
  }

  ghost predicate OffersBehind(p: Phrase, before: string, c: Candidate) {
    exists i: nat :: StandsBehind(p, before, i) && c == Candidate(|before| - (i + |p.text|), -|p.text|, p.concept)
  }

  ghost predicate OffersAhead(p: Phrase, after: string, newItem: string -> bool, c: Candidate) {
    exists i: nat :: StandsAhead(p, after, i, newItem)
      && c == Candidate(if IsLabel(after, i, newItem) then -1 else i + 3, -|p.text|, p.concept)
  }

  /** What the phrases of the table offer: the distance of each, the label ahead of all, and how short. */
  ghost predicate Offered(table: seq<Phrase>, before: string, after: string, newItem: string -> bool, c: Candidate) {
    exists p <- table :: OffersBehind(p, before, c) || OffersAhead(p, after, newItem, c)
  }

  lemma HasDigitExactly(s: string)
    ensures HasDigit(s) <==> !NoFigure(s, 0, |s|)
  {
    forall k | 0 <= k < |s| && '0' <= s[k] <= '9' ensures HasDigit(s) { assert s[k] in s; }
  }

  lemma ClipHasDigit(s: string, from: nat, upTo: nat)
    ensures HasDigit(Clip(s, from, upTo)) <==> !NoFigure(s, from, upTo)
  {
    var part := Clip(s, from, upTo);
    HasDigitExactly(part);
    forall k | 0 <= k < |part| ensures part[k] == s[from + k] { }
    if !NoFigure(s, from, upTo) {
      var k :| 0 <= k < |s| && from <= k < upTo && '0' <= s[k] <= '9';
      assert part[k - from] == s[k];
    }
  }

  lemma BehindExactly(p: Phrase, before: string, c: Candidate)
    ensures Behind(p, before) == Some(c) <==> OffersBehind(p, before, c)
  {
    hide NoFigure, HasDigit;
    FindLastIsLast(before, p.text);
    match FindLast(before, p.text)
    case None =>
    case Some(i) =>
      TailHasDigit(before, i + |p.text|);
      hide At;
      assert StandsBehind(p, before, i) <==> Behind(p, before).Some?;
  }

  lemma TailHasDigit(s: string, from: nat)
    requires from <= |s|
    ensures HasDigit(s[from..]) <==> !NoFigure(s, from, |s|)
  {
    HasDigitExactly(s[from..]);
    if !NoFigure(s, from, |s|) {
      var k :| 0 <= k < |s| && from <= k < |s| && '0' <= s[k] <= '9';
      assert s[from..][k - from] == s[k];
    }
  }

  lemma AheadExactly(p: Phrase, after: string, newItem: string -> bool, c: Candidate)
    ensures Ahead(p, after, newItem) == Some(c) <==> OffersAhead(p, after, newItem, c)
  {
    hide NoFigure, HasDigit, Clip;
    FindIsFirst(after, p.text);
    match Find(after, p.text)
    case None =>
    case Some(i) =>
      HeadHasDigit(after, i);
      ClipHasDigit(after, i + |p.text|, i + |p.text| + 25);
      hide At;
      assert StandsAhead(p, after, i, newItem) <==> Ahead(p, after, newItem).Some?;
  }

  lemma HeadHasDigit(s: string, end: nat)
    requires end <= |s|
    ensures HasDigit(s[..end]) <==> !NoFigure(s, 0, end)
  {
    HasDigitExactly(s[..end]);
    if !NoFigure(s, 0, end) {
      var k :| 0 <= k < |s| && 0 <= k < end && '0' <= s[k] <= '9';
      assert s[..end][k] == s[k];
    }
  }

  ghost predicate IsLeast(table: seq<Phrase>, before: string, after: string, newItem: string -> bool, c: Candidate) {
    && Offered(table, before, after, newItem, c)
    && forall d :: Offered(table, before, after, newItem, d) ==> !Less(d, c)
  }

  lemma OneMorePhrase(table: seq<Phrase>, p: Phrase, before: string, after: string, newItem: string -> bool)
    ensures forall c :: Offered(table + [p], before, after, newItem, c) <==>
              Offered(table, before, after, newItem, c) || Behind(p, before) == Some(c) || Ahead(p, after, newItem) == Some(c)
  {
    hide OffersBehind, OffersAhead, Behind, Ahead;
    assert p in table + [p];
    forall c
      ensures Offered(table + [p], before, after, newItem, c) <==>
        Offered(table, before, after, newItem, c) || Behind(p, before) == Some(c) || Ahead(p, after, newItem) == Some(c)
    {
      BehindExactly(p, before, c);
      AheadExactly(p, after, newItem, c);
      if Offered(table, before, after, newItem, c) {
        var q :| q in table && (OffersBehind(q, before, c) || OffersAhead(q, after, newItem, c));
        assert q in table + [p];
      }
    }
  }

  lemma LesserKeeps(best: Option<Candidate>, c: Option<Candidate>, d: Candidate)
    requires best.Some? && !Less(d, best.value)
    ensures !Less(d, Lesser(best, c).value)
  {
    if c.Some? && Less(c.value, best.value) && Less(d, c.value) { LessIsTransitive(d, c.value, best.value); }
  }

  lemma LesserBeats(best: Option<Candidate>, c: Candidate)
    ensures Lesser(best, Some(c)).Some? && !Less(c, Lesser(best, Some(c)).value)
  {
    LessIsTotal(c, c);
  }

  lemma {:induction false} LeastIs(table: seq<Phrase>, before: string, after: string, newItem: string -> bool)
    ensures var best := Least(table, before, after, newItem);
            && (best.Some? ==> Offered(table, before, after, newItem, best.value))
            && forall d :: Offered(table, before, after, newItem, d) ==> best.Some? && !Less(d, best.value)
  {
    if table != [] {
      var shorter, p := table[..|table| - 1], table[|table| - 1];
      assert table == shorter + [p];
      LeastIs(shorter, before, after, newItem);
      OneMorePhrase(shorter, p, before, after, newItem);
      var best, behind, ahead := Least(shorter, before, after, newItem), Behind(p, before), Ahead(p, after, newItem);
      var next := Lesser(best, behind);
      forall d | Offered(table, before, after, newItem, d) ensures Lesser(next, ahead).Some? && !Less(d, Lesser(next, ahead).value) {
        if ahead == Some(d) {
          LesserBeats(next, d);
        } else if behind == Some(d) {
          LesserBeats(best, d);
          LesserKeeps(next, ahead, d);
        } else {
          LesserKeeps(best, behind, d);
          LesserKeeps(next, ahead, d);
        }
      }
    }
  }

  /** The loop's answer is the least candidate and no other. */
  lemma LeastIsExactly(table: seq<Phrase>, before: string, after: string, newItem: string -> bool, c: Candidate)
    ensures Least(table, before, after, newItem) == Some(c) <==> IsLeast(table, before, after, newItem, c)
  {
    LeastIs(table, before, after, newItem);
    if IsLeast(table, before, after, newItem, c) { LessIsTotal(c, Least(table, before, after, newItem).value); }
  }

  /** Reordering the phrase table, or repeating entries in it, changes no attribution. */
  lemma TableOrderDecidesNothing(table: seq<Phrase>, other: seq<Phrase>, blocking: seq<string>,
                                 before: string, after: string, newItem: string -> bool)
    requires forall p :: p in table <==> p in other
    ensures Attributed(table, blocking, before, after, newItem) == Attributed(other, blocking, before, after, newItem)
  {
    var b, a := LowerAll(AfterBreaks(before)), LowerAll(UptoBreak(after));
    assert forall c :: Offered(table, b, a, newItem, c) <==> Offered(other, b, a, newItem, c);
    LeastIs(table, b, a, newItem);
    LeastIs(other, b, a, newItem);
    var x, y := Least(table, b, a, newItem), Least(other, b, a, newItem);
    if x.Some? && y.Some? { LessIsTotal(x.value, y.value); }
  }

  ghost predicate Labels(p: Phrase, before: string, after: string, newItem: string -> bool) {
    (exists i: nat :: StandsBehind(p, before, i)) || exists i: nat :: StandsAhead(p, after, i, newItem)
  }

  /** Every attribution rests on one phrase of that concept in the numeral's own sentence, within reach,
      with no figure between the phrase and the numeral. */
  lemma NoFigureBetween(table: seq<Phrase>, blocking: seq<string>, before: string, after: string, newItem: string -> bool)
    requires Attributed(table, blocking, before, after, newItem).Some?
    ensures var b, a := LowerAll(AfterBreaks(before)), LowerAll(UptoBreak(after));
            exists p <- table ::
              p.concept == Attributed(table, blocking, before, after, newItem).value && Labels(p, b, a, newItem)
  {
    var b, a := LowerAll(AfterBreaks(before)), LowerAll(UptoBreak(after));
    hide StandsBehind, StandsAhead;
    LeastIs(table, b, a, newItem);
    var c := Least(table, b, a, newItem).value;
    var p :| p in table && (OffersBehind(p, b, c) || OffersAhead(p, a, newItem, c));
    assert Labels(p, b, a, newItem);
  }

  /** A label right behind the numeral wins over any phrase before it or further on; among several such
      labels the longest. */
  lemma TheAdjacentLabelWins(
    table: seq<Phrase>, before: string, after: string, newItem: string -> bool, p: Phrase, i: nat)
    requires p in table && StandsAhead(p, after, i, newItem) && IsLabel(after, i, newItem)
    ensures var best := Least(table, before, after, newItem);
            && best.Some?
            && exists q <- table, k: nat ::
                 && q.concept == best.value.concept && |q.text| >= |p.text|
                 && StandsAhead(q, after, k, newItem) && IsLabel(after, k, newItem)
  {
    hide StandsBehind, StandsAhead, IsLabel, OffersBehind, Least, Precedes;
    LeastIs(table, before, after, newItem);
    var c := Candidate(-1, -|p.text|, p.concept);
    assert OffersAhead(p, after, newItem, c);
    assert Offered(table, before, after, newItem, c);
    var best := Least(table, before, after, newItem).value;
    var q := OfferedBy(table, before, after, newItem, best);
    if OffersBehind(q, before, best) { BehindIsNoLabel(q, before, best); }
    var k: nat :| StandsAhead(q, after, k, newItem)
      && best == Candidate(if IsLabel(after, k, newItem) then -1 else k + 3, -|q.text|, q.concept);
  }

  lemma OfferedBy(table: seq<Phrase>, before: string, after: string, newItem: string -> bool, c: Candidate)
      returns (q: Phrase)
    requires Offered(table, before, after, newItem, c)
    ensures q in table && (OffersBehind(q, before, c) || OffersAhead(q, after, newItem, c))
  {
    hide OffersBehind, OffersAhead;
    q :| q in table && (OffersBehind(q, before, c) || OffersAhead(q, after, newItem, c));
  }

  lemma BehindIsNoLabel(p: Phrase, before: string, c: Candidate)
    requires OffersBehind(p, before, c)
    ensures c.distance >= 0
  {
  }

  /** Without one, the nearest phrase wins, between phrases ending at one distance the longer, and of several as
      near and as long the concept first in alphabetical order. */
  lemma TheNearestWins(table: seq<Phrase>, before: string, after: string, newItem: string -> bool, c: Candidate)
    requires Offered(table, before, after, newItem, c)
    ensures var best := Least(table, before, after, newItem);
            && best.Some? && best.value.distance <= c.distance
            && (best.value.distance == c.distance ==> best.value.brevity <= c.brevity)
            && (best.value.distance == c.distance && best.value.brevity == c.brevity ==> !Precedes(c.concept, best.value.concept))
  {
    LeastIs(table, before, after, newItem);
  }

  /** A blocking phrase lies within the last forty-five characters before the numeral, or the first forty
      after it. */
  ghost predicate BlockedBy(b: string, before: string, after: string) {
    || (exists k: nat :: At(before, b, k) && k + 45 >= |before|)
    || (exists k: nat :: At(after, b, k) && k + |b| <= 40)
  }

  lemma BlockedExactly(blocking: seq<string>, before: string, after: string)
    ensures Blocked(blocking, before, after) <==> exists b <- blocking :: BlockedBy(b, before, after)
  {
    forall b
      ensures BlockedBy(b, before, after) <==>
        Contains(if |before| <= 45 then before else before[|before| - 45..], b) || Contains(Clip(after, 0, 40), b)
    {
      NearBehind(b, before);
      NearAhead(b, after);
    }
  }

  lemma NearBehind(b: string, before: string)
    ensures Contains(if |before| <= 45 then before else before[|before| - 45..], b) <==>
            exists k: nat :: At(before, b, k) && k + 45 >= |before|
  {
    var from := if |before| <= 45 then 0 else |before| - 45;
    var near := before[from..];
    assert near == if |before| <= 45 then before else before[|before| - 45..];
    FindIsFirst(near, b);
    forall k: nat ensures At(near, b, k) <==> At(before, b, from + k) {
      if k <= |near| { assert near[k..] == before[from + k..]; }
    }
    if exists k: nat :: At(before, b, k) && k + 45 >= |before| {
      var k: nat :| At(before, b, k) && k + 45 >= |before|;
      assert At(near, b, k - from);
    }
  }

  lemma NearAhead(b: string, after: string)
    ensures Contains(Clip(after, 0, 40), b) <==> exists k: nat :: At(after, b, k) && k + |b| <= 40
  {
    var near := Clip(after, 0, 40);
    FindIsFirst(near, b);
    forall k: nat ensures At(near, b, k) <==> At(after, b, k) && k + |b| <= 40 {
      if k <= |near| && |near| < |after| { assert near[k..] == after[k..40]; }
      if At(after, b, k) && k + |b| <= 40 { assert near[k..][..|b|] == after[k..][..|b|] == b; }
      if At(near, b, k) { assert after[k..][..|b|] == near[k..][..|b|] == b; }
    }
  }

  /** The whole rule: a concept is attributed exactly when the least candidate of the sentence is one of its
      phrases and no blocking phrase is near. */
  lemma AttributedExactly(
    table: seq<Phrase>, blocking: seq<string>, before: string, after: string, newItem: string -> bool, concept: string)
    ensures var b, a := LowerAll(AfterBreaks(before)), LowerAll(UptoBreak(after));
            Attributed(table, blocking, before, after, newItem) == Some(concept) <==>
              && (exists c :: IsLeast(table, b, a, newItem, c) && c.concept == concept)
              && !exists p <- blocking :: BlockedBy(p, b, a)
  {
    hide IsLeast, BlockedBy, Blocked;
    var b, a := LowerAll(AfterBreaks(before)), LowerAll(UptoBreak(after));
    BlockedExactly(blocking, b, a);
    forall c ensures Least(table, b, a, newItem) == Some(c) <==> IsLeast(table, b, a, newItem, c) {
      LeastIsExactly(table, b, a, newItem, c);
    }
  }
}
