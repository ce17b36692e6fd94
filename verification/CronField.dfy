/** The five fields of a cron expression: what a list item is accepted as, and which values it
    matches.  `MatchItem` and `ValidItem` follow the source, which scans the text twice with two
    separate routines.  `Reads`, `Legal` and `Meaning` say independently what an item is and which
    values it denotes; the lemmas tie the two readings together for every text. */
module CronField {
  import opened Text
  import opened Arith

  // ----- the source's routines

  predicate IsWeekdayField(min: int, max: int) { min == 0 && max == 6 }

  /** 7 is another name for Sunday in the weekday field. */
  function Fold(v: int, min: int, max: int): int {
    if IsWeekdayField(min, max) && v == 7 then 0 else v
  }

  function ParseRange(s: string, min: int, max: int): Option<(int, int)> {
    match Index(s, '-')
    case None => None
    case Some(i) =>
      match (Atoi(TrimSpace(s[..i])), Atoi(TrimSpace(s[i + 1..])))
      case (Some(rawLo), Some(rawHi)) =>
        var lo, hi := Fold(rawLo, min, max), Fold(rawHi, min, max);
        if IsWeekdayField(min, max) && lo == hi && rawLo != rawHi then None
        else if lo < min || lo > max || hi < min || hi > max then None
        else Some((lo, hi))
      case _ => None
  }

  function MatchItem(item: string, value: int, min: int, max: int): bool {
    match Index(item, '/')
    case Some(idx) =>
      var base := item[..idx];
      (match Atoi(item[idx + 1..])
       case None => false
       case Some(step) =>
         if step <= 0 then false
         else if base == "*" then min <= value <= max && (value - min) % step == 0
         else match ParseRange(base, min, max)
           case None => false
           case Some((lo, hi)) => lo <= value <= hi && (value - lo) % step == 0)
    case None =>
      if Index(item, '-').Some? then
        match ParseRange(item, min, max)
        case None => false
        case Some((lo, hi)) =>
          if IsWeekdayField(min, max) && lo > hi then lo <= value <= max || min <= value <= hi
          else lo <= value <= hi
      else
        match Atoi(item)
        case None => false
        case Some(v0) =>
          var v := Fold(v0, min, max);
          if v < min || v > max then false else v == value
  }

  function ValidItem(item: string, min: int, max: int): bool {
    match Index(item, '/')
    case Some(idx) =>
      (match Atoi(item[idx + 1..])
       case None => false
       case Some(step) =>
         if step <= 0 then false
         else item[..idx] == "*" || ParseRange(item[..idx], min, max).Some?)
    case None =>
      if Index(item, '-').Some? then ParseRange(item, min, max).Some?
      else match Atoi(item)
        case None => false
        case Some(v) => min <= Fold(v, min, max) <= max
  }

  function AnyItemMatches(parts: seq<string>, value: int, min: int, max: int): bool {
    if parts == [] then false
    else
      var item := TrimSpace(parts[0]);
      if item != "" && MatchItem(item, value, min, max) then true
      else AnyItemMatches(parts[1..], value, min, max)
  }

  function MatchField(field: string, value: int, min: int, max: int): bool {
    field == "*" || AnyItemMatches(Split(field, ','), value, min, max)
  }

  function AllItemsValid(parts: seq<string>, min: int, max: int): bool {
    if parts == [] then true
    else
      var item := TrimSpace(parts[0]);
      if item == "" || !ValidItem(item, min, max) then false
      else AllItemsValid(parts[1..], min, max)
  }

  function ValidField(field: string, min: int, max: int): bool {
    field == "*" || AllItemsValid(Split(field, ','), min, max)
  }

  // ----- what an item is, and what it denotes

  /** The four shapes of a list item, with the numbers as written. */
  datatype Item = Every(step: int) | Stepped(lo: int, hi: int, step: int) | Span(lo: int, hi: int) | One(v: int)

  /** The text is two numbers around the dash at i. */
  ghost predicate RangeAt(text: string, i: int, lo: int, hi: int) {
    0 <= i < |text| && text[i] == '-' && '-' !in text[..i]
    && Atoi(TrimSpace(text[..i])) == Some(lo) && Atoi(TrimSpace(text[i + 1..])) == Some(hi)
  }

  ghost predicate ReadsRange(text: string, lo: int, hi: int) {
    exists i :: RangeAt(text, i, lo, hi)
  }

  /** The slash at i is the first, and a step follows it. */
  ghost predicate StepAt(text: string, i: int, step: int) {
    0 <= i < |text| && text[i] == '/' && '/' !in text[..i] && Atoi(text[i + 1..]) == Some(step)
  }

  ghost predicate Reads(text: string, item: Item) {
    match item
    case Every(step) => exists i :: StepAt(text, i, step) && text[..i] == "*"
    case Stepped(lo, hi, step) => exists i :: StepAt(text, i, step) && ReadsRange(text[..i], lo, hi)
    case Span(lo, hi) => '/' !in text && ReadsRange(text, lo, hi)
    case One(v) => '/' !in text && '-' !in text && Atoi(text) == Some(v)
  }

  /** Both ends are values of the field, and a weekday range is not "Sunday to Sunday" spelled
      with two different numbers. */
  predicate LegalEnds(lo: int, hi: int, min: int, max: int) {
    min <= Fold(lo, min, max) <= max && min <= Fold(hi, min, max) <= max
    && (lo != hi ==> Fold(lo, min, max) != Fold(hi, min, max))
  }

  predicate Legal(item: Item, min: int, max: int) {
    match item
    case Every(step) => step > 0
    case Stepped(lo, hi, step) => step > 0 && LegalEnds(lo, hi, min, max)
    case Span(lo, hi) => LegalEnds(lo, hi, min, max)
    case One(v) => min <= Fold(v, min, max) <= max
  }

  /** lo, lo + step, lo + 2 * step, ... up to hi. */
  function Ladder(lo: int, hi: int, step: int): set<int>
    requires step > 0
  {
    set j | 0 <= j <= hi - lo && lo + j * step <= hi :: lo + j * step
  }

  /** The days met when walking round the week from lo until hi. */
  function WalkWeek(lo: int, hi: int): set<int> {
    set j | 0 <= j <= (hi - lo) % 7 :: DayAfter(lo, j)
  }

  function DayAfter(day: int, j: int): int { (day + j) % 7 }

  function Meaning(item: Item, min: int, max: int): set<int>
    requires Legal(item, min, max)
  {
    match item
    case Every(step) => Ladder(min, max, step)
    case Stepped(lo, hi, step) => Ladder(Fold(lo, min, max), Fold(hi, min, max), step)
    case Span(lo, hi) =>
      if IsWeekdayField(min, max) then WalkWeek(lo, hi) else Ladder(lo, hi, 1)
    case One(v) => {Fold(v, min, max)}
  }

  // ----- the grammar reads every text in at most one way

  function RangeText(s: string): Option<(int, int)> {
    match Index(s, '-')
    case None => None
    case Some(i) =>
      match (Atoi(TrimSpace(s[..i])), Atoi(TrimSpace(s[i + 1..])))
      case (Some(lo), Some(hi)) => Some((lo, hi))
      case _ => None
  }

  function ItemText(s: string): Option<Item> {
    match Index(s, '/')
    case Some(i) =>
      (match Atoi(s[i + 1..])
       case None => None
       case Some(step) =>
         if s[..i] == "*" then Some(Every(step))
         else match RangeText(s[..i])
           case None => None
           case Some((lo, hi)) => Some(Stepped(lo, hi, step)))
    case None =>
      if Index(s, '-').Some? then
        match RangeText(s)
        case None => None
        case Some((lo, hi)) => Some(Span(lo, hi))
      else
        match Atoi(s)
        case None => None
        case Some(v) => Some(One(v))
  }

  lemma {:induction false} FirstIndex(s: string, c: char, i: nat)
    requires i < |s| && s[i] == c && c !in s[..i]
    ensures Index(s, c) == Some(i)
  {
    if i > 0 {
      assert s[0] in s[..i];
      assert forall k :: 0 <= k < i - 1 ==> s[1..][k] in s[..i];
      FirstIndex(s[1..], c, i - 1);
    }
  }

  lemma RangeTextReads(s: string, lo: int, hi: int)
    ensures ReadsRange(s, lo, hi) <==> RangeText(s) == Some((lo, hi))
  {
    hide Atoi, TrimSpace;
    if ReadsRange(s, lo, hi) {
      var i :| RangeAt(s, i, lo, hi);
      FirstIndex(s, '-', i);
    }
    if RangeText(s) == Some((lo, hi)) {
      assert RangeAt(s, Index(s, '-').value, lo, hi);
    }
  }

  /** Reads is a partial function of the text: the grammar is unambiguous. */
  lemma OneReading(s: string, item: Item)
    ensures Reads(s, item) <==> ItemText(s) == Some(item)
  {
    hide Atoi, RangeText, ReadsRange;
    match item
    case Every(step) =>
      if Reads(s, item) {
        var i :| StepAt(s, i, step) && s[..i] == "*";
        FirstIndex(s, '/', i);
      }
      if ItemText(s) == Some(item) {
        assert StepAt(s, Index(s, '/').value, step);
      }
    case Stepped(lo, hi, step) =>
      if Reads(s, item) {
        var i :| StepAt(s, i, step) && ReadsRange(s[..i], lo, hi);
        FirstIndex(s, '/', i);
        RangeTextReads(s[..i], lo, hi);
        assert s[..i] != "*" by { StarIsNoRange(lo, hi); }
      }
      if ItemText(s) == Some(item) {
        RangeTextReads(s[..Index(s, '/').value], lo, hi);
        assert StepAt(s, Index(s, '/').value, step);
      }
    case Span(lo, hi) =>
      RangeTextReads(s, lo, hi);
      if ReadsRange(s, lo, hi) { RangeHasDash(s, lo, hi); }
    case One(v) =>
  }

  lemma RangeHasDash(s: string, lo: int, hi: int)
    requires ReadsRange(s, lo, hi)
    ensures '-' in s
  {
    hide Atoi, TrimSpace;
  }

  lemma StarIsNoRange(lo: int, hi: int)
    ensures !ReadsRange("*", lo, hi)
  {
    if ReadsRange("*", lo, hi) { RangeHasDash("*", lo, hi); }
  }

  // ----- the routines compute the denotation

  lemma LadderMember(v: int, lo: int, hi: int, step: int)
    requires step > 0
    ensures v in Ladder(lo, hi, step) <==> lo <= v <= hi && (v - lo) % step == 0
  {
    if lo <= v <= hi && (v - lo) % step == 0 {
      var j := (v - lo) / step;
      assert v == lo + j * step;
      RungBounds(j, step, v - lo);
    }
    if v in Ladder(lo, hi, step) {
      var j :| 0 <= j <= hi - lo && lo + j * step <= hi && v == lo + j * step;
      assert j * step >= 0 by { if j > 0 { AtLeastOnce(j, step); } }
      DivModUnique(j * step, j, 0, step);
    }
  }

  lemma RungBounds(j: int, step: int, rise: int)
    requires step > 0 && rise >= 0 && j * step == rise
    ensures 0 <= j <= rise
  {
    if j <= -1 {
      AtLeastOnce(-j, step);
    } else if j >= 1 && step >= 2 {
      AtLeastOnce(step - 1, j);
    }
  }

  lemma DaysToWalk(from: int, to: int)
    requires 0 <= from <= 7 && 0 <= to <= 7
    ensures (to - from) % 7 ==
      (if to == from + 7 || from == to + 7 then 0 else if from <= to then to - from else to - from + 7)
  {
  }

  lemma WalkWeekMember(v: int, lo: int, hi: int)
    requires LegalEnds(lo, hi, 0, 6)
    ensures var l, h := Fold(lo, 0, 6), Fold(hi, 0, 6);
            v in WalkWeek(lo, hi) <==> if l > h then l <= v <= 6 || 0 <= v <= h else l <= v <= h
  {
    DaysToWalk(lo, hi);
    if 0 <= v <= 6 {
      DaysToWalk(lo, v);
      DayAfterIs(lo, (v - lo) % 7);
      assert DayAfter(lo, (v - lo) % 7) == v;
    }
    hide DayAfter;
    if v in WalkWeek(lo, hi) {
      var k :| 0 <= k <= (hi - lo) % 7 && DayAfter(lo, k) == v;
      DayAfterIs(lo, k);
    }
  }

  lemma DayAfterIs(day: int, k: int)
    requires 0 <= day <= 7 && 0 <= k <= 6
    ensures DayAfter(day, k) == if day + k >= 7 then day + k - 7 else day + k
  {
  }

  /** An item the validator accepts matches exactly the values it denotes; any other text,
      whatever it looks like, matches nothing. */
  lemma ItemMatches(text: string, value: int, min: int, max: int)
    ensures MatchItem(text, value, min, max)
       <==> exists item :: Reads(text, item) && Legal(item, min, max) && value in Meaning(item, min, max)
  {
    if ItemText(text).Some? {
      var item := ItemText(text).value;
      OneReading(text, item);
      ReadItemMatches(text, item, value, min, max);
    }
    forall item | Reads(text, item) ensures ItemText(text) == Some(item) { OneReading(text, item); }
  }

  lemma ReadItemMatches(text: string, item: Item, value: int, min: int, max: int)
    requires ItemText(text) == Some(item)
    ensures MatchItem(text, value, min, max) <==> Legal(item, min, max) && value in Meaning(item, min, max)
  {
    hide Atoi, TrimSpace, Ladder, WalkWeek;
    match item
    case Every(step) =>
      if step > 0 { LadderMember(value, min, max, step); }
    case Stepped(lo, hi, step) =>
      LegalRange(text[..Index(text, '/').value], lo, hi, min, max);
      if step > 0 { LadderMember(value, Fold(lo, min, max), Fold(hi, min, max), step); }
    case Span(lo, hi) =>
      LegalRange(text, lo, hi, min, max);
      LadderMember(value, lo, hi, 1);
      if IsWeekdayField(min, max) && LegalEnds(lo, hi, 0, 6) { WalkWeekMember(value, lo, hi); }
    case One(v) =>
  }

  lemma LegalRange(text: string, lo: int, hi: int, min: int, max: int)
    requires RangeText(text) == Some((lo, hi))
    ensures ParseRange(text, min, max)
         == if LegalEnds(lo, hi, min, max) then Some((Fold(lo, min, max), Fold(hi, min, max))) else None
  {
    hide Atoi, TrimSpace;
  }

  ghost predicate LegalText(text: string, min: int, max: int) {
    exists item :: Reads(text, item) && Legal(item, min, max)
  }

  lemma ItemAccepted(text: string, min: int, max: int)
    ensures ValidItem(text, min, max) <==> LegalText(text, min, max)
  {
    if ItemText(text).Some? { OneReading(text, ItemText(text).value); }
    forall item | Reads(text, item) ensures ItemText(text) == Some(item) { OneReading(text, item); }
  }

  /** The accepted items that denote no value at all: ranges written backwards, unless they can
      wrap round the week, which a stepped range never does. */
  predicate Backwards(item: Item, min: int, max: int) {
    match item
    case Stepped(lo, hi, step) => Fold(lo, min, max) > Fold(hi, min, max)
    case Span(lo, hi) => lo > hi && !IsWeekdayField(min, max)
    case _ => false
  }

  lemma MeaningEmpty(item: Item, min: int, max: int)
    requires min <= max && Legal(item, min, max)
    ensures Meaning(item, min, max) == {} <==> Backwards(item, min, max)
    ensures forall v :: v in Meaning(item, min, max) ==> min <= v <= max
  {
    match item
    case Every(step) =>
      LadderMember(min, min, max, step);
      forall v ensures v in Ladder(min, max, step) ==> min <= v <= max { LadderMember(v, min, max, step); }
    case Stepped(lo, hi, step) =>
      var l, h := Fold(lo, min, max), Fold(hi, min, max);
      LadderMember(l, l, h, step);
      forall v ensures v in Ladder(l, h, step) ==> l <= v <= h { LadderMember(v, l, h, step); }
    case Span(lo, hi) =>
      if IsWeekdayField(min, max) {
        assert DayAfter(lo, 0) in WalkWeek(lo, hi);
      } else {
        LadderMember(lo, lo, hi, 1);
        forall v ensures v in Ladder(lo, hi, 1) ==> lo <= v <= hi { LadderMember(v, lo, hi, 1); }
      }
    case One(v) =>
  }

  // ----- whole fields

  /** v is denoted by one of the listed items. */
  ghost predicate Listed(parts: seq<string>, v: int, min: int, max: int) {
    exists i, item :: 0 <= i < |parts| && Reads(TrimSpace(parts[i]), item)
      && Legal(item, min, max) && v in Meaning(item, min, max)
  }

  lemma {:induction false} AnyItemListed(parts: seq<string>, v: int, min: int, max: int)
    ensures AnyItemMatches(parts, v, min, max) <==> Listed(parts, v, min, max)
  {
    if parts != [] {
      var text := TrimSpace(parts[0]);
      ItemMatches(text, v, min, max);
      BlankReadsAsNothing();
      AnyItemListed(parts[1..], v, min, max);
      if Listed(parts[1..], v, min, max) {
        var i, item :| 0 <= i < |parts[1..]| && Reads(TrimSpace(parts[1..][i]), item)
          && Legal(item, min, max) && v in Meaning(item, min, max);
        assert parts[i + 1] == parts[1..][i];
      }
      if Listed(parts, v, min, max) {
        var i, item :| 0 <= i < |parts| && Reads(TrimSpace(parts[i]), item)
          && Legal(item, min, max) && v in Meaning(item, min, max);
        if i > 0 { assert parts[i] == parts[1..][i - 1]; }
      }
    }
  }

  lemma BlankReadsAsNothing()
    ensures forall item :: !Reads("", item)
  {
    forall item ensures !Reads("", item) { OneReading("", item); }
  }

  /** A field matches exactly the values denoted by the items of its list that are well formed;
      items that are not contribute nothing and spoil nothing. */
  lemma FieldMatches(field: string, v: int, min: int, max: int)
    ensures MatchField(field, v, min, max) <==> field == "*" || Listed(Split(field, ','), v, min, max)
  {
    AnyItemListed(Split(field, ','), v, min, max);
  }

  /** A field is accepted exactly when every item of its list is well formed and legal. */
  lemma FieldAccepted(field: string, min: int, max: int)
    ensures ValidField(field, min, max) <==> field == "*" || AllLegal(Split(field, ','), min, max)
  {
    AllItemsAccepted(Split(field, ','), min, max);
  }

  ghost predicate AllLegal(parts: seq<string>, min: int, max: int) {
    forall i :: 0 <= i < |parts| ==> LegalText(TrimSpace(parts[i]), min, max)
  }

  lemma {:induction false} AllItemsAccepted(parts: seq<string>, min: int, max: int)
    ensures AllItemsValid(parts, min, max) <==> AllLegal(parts, min, max)
  {
    if parts != [] {
      ItemAccepted(TrimSpace(parts[0]), min, max);
      BlankReadsAsNothing();
      AllItemsAccepted(parts[1..], min, max);
      assert forall i :: 0 < i < |parts| ==> parts[i] == parts[1..][i - 1];
    }
  }

  lemma FridayToSundayByTwo()
    ensures Reads("5-7/2", Stepped(5, 7, 2))
  {
    DigitReads('5');
    DigitReads('7');
    DigitReads('2');
    hide Atoi, TrimSpace;
    var range, text := "5-7", "5-7/2";
    assert range[..1] == ['5'] && range[2..] == ['7'];
    assert RangeAt(range, 1, 5, 7);
    assert text[..3] == range && text[4..] == ['2'];
    assert StepAt(text, 3, 2);
  }

  /** Accepted, and yet no day of the week will ever do: Friday to Sunday in steps of two. */
  lemma AcceptedButNever(value: int)
    ensures ValidItem("5-7/2", 0, 6)
    ensures !MatchItem("5-7/2", value, 0, 6)
  {
    hide Reads, ValidItem, MatchItem, ItemText;
    var text, item := "5-7/2", Stepped(5, 7, 2);
    FridayToSundayByTwo();
    ItemAccepted(text, 0, 6);
    ItemMatches(text, value, 0, 6);
    MeaningEmpty(item, 0, 6);
    OneReading(text, item);
    forall other | Reads(text, other) ensures other == item { OneReading(text, other); }
  }

  lemma DigitReads(c: char)
    requires IsDigit(c)
    ensures TrimSpace([c]) == [c]
    ensures Atoi([c]) == Some((c - '0') as int)
  {
    assert DecimalValue([c]) == 10 * DecimalValue([]) + (c - '0') as int;
  }
}
