/** Passage order: the shuffle, the order and time stamped on each team,
    the `HHhMM` time-slot arithmetic, and the sort by passage order. The
    random draws of the shuffle are a parameter. */
module Randomizer {
  import opened Util
  import opened ListOps
  import opened Sorting
  import opened ClientTypes

  /** The range of `Math.floor(Math.random() * (i + 1))` at every step `i`
      of the shuffle: `draws[i]` lies in `[0, i]`. */
  predicate ValidDraws(n: nat, draws: seq<nat>) {
    |draws| >= n && forall i :: 0 <= i < n ==> draws[i] <= i
  }

  /** Fisher–Yates on a copy: for `i` from the last index down to 1, swap
      positions `i` and `draws[i]`. The result holds the same elements. */
  method ShuffleArray<T>(xs: seq<T>, draws: seq<nat>) returns (r: seq<T>)
    requires ValidDraws(|xs|, draws)
    ensures |r| == |xs|
    ensures multiset(r) == multiset(xs)
  {
    var a := new T[|xs|](k requires 0 <= k < |xs| => xs[k]);
    assert a[..] == xs;
    var i := |xs| - 1;
    while i > 0
      invariant -1 <= i < |xs|
      invariant a.Length == |xs|
      invariant multiset(a[..]) == multiset(xs)
    {
      var j := draws[i];
      a[i], a[j] := a[j], a[i];
      i := i - 1;
    }
    r := a[..];
  }

  /** The order (position + 1) and, with a start time, the time slot
      `index × interval` minutes after it. */
  function Stamp(t: Team, index: nat, startTime: Option<string>, interval: int): Team {
    t.(passageOrder := Some(index + 1),
       passageTime := if TruthyStr(startTime) then Some(CalculateTimeSlot(startTime.value, index * interval)) else None)
  }

  /** The teams in shuffled order, stamped with orders 1..n and their slots. */
  method AssignPassageOrder(teams: seq<Team>, startTime: Option<string>, interval: int, draws: seq<nat>)
    returns (r: seq<Team>)
    requires ValidDraws(|teams|, draws)
    ensures |r| == |teams|
    ensures exists s: seq<Team> :: |s| == |teams| && multiset(s) == multiset(teams)
                        && forall i :: 0 <= i < |s| ==> r[i] == Stamp(s[i], i, startTime, interval)
    ensures forall i :: 0 <= i < |r| ==> r[i].passageOrder == Some(i + 1)
    ensures forall i :: 0 <= i < |r| ==>
              r[i].passageTime == if TruthyStr(startTime) then Some(CalculateTimeSlot(startTime.value, i * interval)) else None
  {
    var shuffled := ShuffleArray(teams, draws);
    r := [];
    var i := 0;
    while i < |shuffled|
      invariant 0 <= i <= |shuffled|
      invariant |r| == i
      invariant forall k :: 0 <= k < i ==> r[k] == Stamp(shuffled[k], k, startTime, interval)
    {
      r := r + [Stamp(shuffled[i], i, startTime, interval)];
      i := i + 1;
    }
  }

  /** `clearPassageOrder`: same teams, no order and no time. */
  function ClearPassageOrder(teams: seq<Team>): (r: seq<Team>)
    ensures |r| == |teams|
    ensures forall i :: 0 <= i < |r| ==>
              r[i].passageOrder.None? && r[i].passageTime.None?
              && r[i] == teams[i].(passageOrder := None, passageTime := None)
  {
    Map(teams, (t: Team) => t.(passageOrder := None, passageTime := None))
  }

  /** Clearing an assignment gives back the cleared teams, reordered. */
  lemma ClearUndoesStamp(s: seq<Team>, startTime: Option<string>, interval: int)
    ensures ClearPassageOrder(StampAll(s, startTime, interval)) == ClearPassageOrder(s)
  {
  }

  function StampAll(s: seq<Team>, startTime: Option<string>, interval: int): (r: seq<Team>)
    ensures |r| == |s|
    ensures forall i :: 0 <= i < |s| ==> r[i] == Stamp(s[i], i, startTime, interval)
  {
    seq(|s|, i requires 0 <= i < |s| => Stamp(s[i], i, startTime, interval))
  }

  // ---------------------------------------------------------------------
  // Sort by passage order

  /** Teams with an order come first, ascending; teams without one follow. */
  function PassageKey(t: Team): seq<real> {
    if t.passageOrder.None? then [1.0, 0.0] else [0.0, t.passageOrder.value as real]
  }

  function SortByPassageOrder(teams: seq<Team>): (r: seq<Team>)
    ensures |r| == |teams|
  {
    SortByKey(teams, PassageKey)
  }

  /** The sort is a permutation; an ordered team never follows an
      unordered one, ordered teams are ascending, and teams with equal
      orders (or none) keep their relative order. */
  lemma SortByPassageOrderFacts(teams: seq<Team>)
    ensures multiset(SortByPassageOrder(teams)) == multiset(teams)
    ensures var r := SortByPassageOrder(teams);
            forall i, j :: 0 <= i < j < |r| && r[j].passageOrder.Some? ==>
              r[i].passageOrder.Some? && r[i].passageOrder.value <= r[j].passageOrder.value
    ensures forall k :: WithKey(SortByPassageOrder(teams), PassageKey, k) == WithKey(teams, PassageKey, k)
  {
    var r := SortByPassageOrder(teams);
    SortByKeySortedPermutation(teams, PassageKey);
    forall i, j | 0 <= i < j < |r| && r[j].passageOrder.Some?
      ensures r[i].passageOrder.Some? && r[i].passageOrder.value <= r[j].passageOrder.value
    {
      assert !LexLt(PassageKey(r[j]), PassageKey(r[i]));
      if r[i].passageOrder.None? {
        assert LexLt(PassageKey(r[j]), PassageKey(r[i]));
      } else if r[i].passageOrder.value > r[j].passageOrder.value {
        assert LexLt(PassageKey(r[j])[1..], PassageKey(r[i])[1..]);
      }
    }
    forall k ensures WithKey(r, PassageKey, k) == WithKey(teams, PassageKey, k) {
      SortByKeyStable(teams, PassageKey, k);
    }
  }

  // ---------------------------------------------------------------------
  // Time slots


  predicate IsSeparator(c: char) { c == ':' || c == 'h' }

  /** The value of a decimal digit character. */
  function DigitValue(c: char): (d: nat)
    requires IsDigit(c)
    ensures d < 10
  {
    c as int - '0' as int
  }

  /** The match of `(\d{1,2})[:h](\d{2})` that starts at `p`, two hour
      digits tried before one: the hours and the minutes it captures, read
      as decimal numbers. */
  function MatchAt(s: string, p: nat): (r: Option<(nat, nat)>)
    ensures r.Some? ==> r.value.0 < 100 && r.value.1 < 100
  {
    if p + 5 <= |s| && IsDigit(s[p]) && IsDigit(s[p + 1]) && IsSeparator(s[p + 2])
       && IsDigit(s[p + 3]) && IsDigit(s[p + 4]) then
      Some((10 * DigitValue(s[p]) + DigitValue(s[p + 1]), 10 * DigitValue(s[p + 3]) + DigitValue(s[p + 4])))
    else if p + 4 <= |s| && IsDigit(s[p]) && IsSeparator(s[p + 1]) && IsDigit(s[p + 2]) && IsDigit(s[p + 3]) then
      Some((DigitValue(s[p]), 10 * DigitValue(s[p + 2]) + DigitValue(s[p + 3])))
    else None
  }

  /** `startTime.match(...)`: the leftmost match from `p` on. */
  function ParseTime(s: string, p: nat): (r: Option<(nat, nat)>)
    ensures r.Some? ==> r.value.0 < 100 && r.value.1 < 100
    ensures p < |s| && MatchAt(s, p).Some? ==> r == MatchAt(s, p)
    decreases |s| - p
  {
    if p >= |s| then None
    else if MatchAt(s, p).Some? then MatchAt(s, p)
    else ParseTime(s, p + 1)
  }

  /** JavaScript's `%`: the remainder takes the sign of the dividend. */
  function JsRem(a: int, b: int): (r: int)
    requires b > 0
    ensures a >= 0 ==> 0 <= r < b
    ensures a < 0 ==> -b < r <= 0
  {
    if a >= 0 then a % b else -((-a) % b)
  }

  /** `${String(hours).padStart(2, '0')}h${String(minutes).padStart(2, '0')}`. */
  function Render(hours: int, minutes: int): string {
    PadStartZero(IntToString(hours), 2) + "h" + PadStartZero(IntToString(minutes), 2)
  }

  /** `calculateTimeSlot`: the start time moved on by `minutesToAdd`
      minutes, wrapping at midnight, written `HHhMM`; a start time with no
      recognisable time in it comes back unchanged. Hours and minutes are
      reduced with JavaScript's `%`. */
  function CalculateTimeSlot(startTime: string, minutesToAdd: int): (r: string)
  {
    match ParseTime(startTime, 0)
    case None => startTime
    case Some(hm) =>
      var total := hm.0 * 60 + hm.1 + minutesToAdd;
      Render(JsRem(total / 60, 24), JsRem(total, 60))
  }

  /** The minutes past midnight a readable start time stands for. */
  function StartMinutes(startTime: string): nat
    requires ParseTime(startTime, 0).Some?
  {
    ParseTime(startTime, 0).value.0 * 60 + ParseTime(startTime, 0).value.1
  }

  function HourOf(total: nat): (h: nat)
    ensures h < 24
  {
    (total / 60) % 24
  }

  function MinuteOf(total: nat): (m: nat)
    ensures m < 60
  {
    total % 60
  }

  /** From a readable start and a non-negative count of minutes the slot
      shows the hour of the day and the minute of the hour. */
  lemma SlotIsClock(startTime: string, minutesToAdd: int)
    requires ParseTime(startTime, 0).Some?
    requires StartMinutes(startTime) + minutesToAdd >= 0
    ensures var t := StartMinutes(startTime) + minutesToAdd;
            CalculateTimeSlot(startTime, minutesToAdd) == Render(HourOf(t), MinuteOf(t))
  {
  }

  /** `calculateTimeSlot` either gives back a start time in which no time
      can be found, or writes a time that reads back as a time again. */
  lemma {:induction false} SlotFallback(startTime: string, minutesToAdd: int)
    ensures ParseTime(startTime, 0).None? ==> CalculateTimeSlot(startTime, minutesToAdd) == startTime
    ensures ParseTime(startTime, 0).Some? && StartMinutes(startTime) + minutesToAdd >= 0 ==>
              ParseTime(CalculateTimeSlot(startTime, minutesToAdd), 0).Some?
  {
    if ParseTime(startTime, 0).Some? && StartMinutes(startTime) + minutesToAdd >= 0 {
      var t: nat := StartMinutes(startTime) + minutesToAdd;
      SlotIsClock(startTime, minutesToAdd);
      RenderParses(HourOf(t), MinuteOf(t));
    }
  }

  /** Two digits: the tens and the units of `n`. */
  function TwoDigitText(n: nat): string
    requires n < 100
  {
    [DigitChar(n / 10), DigitChar(n % 10)]
  }

  /** A time of day is written as exactly five characters, `HHhMM`. */
  lemma RenderFormat(h: nat, m: nat)
    requires h < 24 && m < 60
    ensures Render(h, m) == TwoDigitText(h) + "h" + TwoDigitText(m)
  {
    TwoDigits(h);
    TwoDigits(m);
  }

  /** A rendered time of day reads back as the hour and minute it shows. */
  lemma RenderParses(h: nat, m: nat)
    requires h < 24 && m < 60
    ensures ParseTime(Render(h, m), 0) == Some((h, m))
  {
    RenderFormat(h, m);
    var c := Render(h, m);
    assert MatchAt(c, 0) == Some((h, m));
  }

  lemma Div60(n: int, q: int, r: int)
    requires 0 <= r < 60 && n == 60 * q + r
    ensures n / 60 == q && n % 60 == r
  {
  }

  lemma Div24(n: int, q: int, r: int)
    requires 0 <= r < 24 && n == 24 * q + r
    ensures n / 24 == q && n % 24 == r
  {
  }

  /** The clock repeats every 24 hours. */
  lemma ClockPeriodic(t: nat, k: nat)
    ensures HourOf(1440 * k + t) == HourOf(t) && MinuteOf(1440 * k + t) == MinuteOf(t)
  {
    Div60(1440 * k + t, 24 * k + t / 60, t % 60);
    Div24(24 * k + t / 60, k + t / 60 / 24, t / 60 % 24);
  }

  /** A count of minutes is whole days plus its hour and minute. */
  lemma DaysHoursMinutes(t: nat)
    ensures t == 1440 * (t / 60 / 24) + 60 * HourOf(t) + MinuteOf(t)
  {
    Div60(t, t / 60, MinuteOf(t));
    Div24(t / 60, t / 60 / 24, HourOf(t));
  }

  /** The clock shown `b` minutes after `t` depends only on the clock
      shown at `t`. */
  lemma ClockShift(x: nat, t: nat, b: nat)
    requires x == HourOf(t) * 60 + MinuteOf(t)
    ensures HourOf(x + b) == HourOf(t + b) && MinuteOf(x + b) == MinuteOf(t + b)
  {
    DaysHoursMinutes(t);
    assert t + b == 1440 * (t / 60 / 24) + (x + b);
    ClockPeriodic(x + b, t / 60 / 24);
  }

  /** A slot moved on from a readable start reads back as the hour and
      minute it shows. */
  lemma SlotReadsBack(startTime: string, a: int)
    requires ParseTime(startTime, 0).Some?
    requires StartMinutes(startTime) + a >= 0
    ensures var t := StartMinutes(startTime) + a;
            ParseTime(CalculateTimeSlot(startTime, a), 0) == Some((HourOf(t), MinuteOf(t)))
  {
    var t := StartMinutes(startTime) + a;
    SlotIsClock(startTime, a);
    RenderParses(HourOf(t), MinuteOf(t));
  }

  /** Two moves that land on the same hour and minute give the same slot. */
  lemma SameClockSameSlot(s1: string, b1: int, s2: string, b2: int)
    requires ParseTime(s1, 0).Some? && StartMinutes(s1) + b1 >= 0
    requires ParseTime(s2, 0).Some? && StartMinutes(s2) + b2 >= 0
    requires HourOf(StartMinutes(s1) + b1) == HourOf(StartMinutes(s2) + b2)
    requires MinuteOf(StartMinutes(s1) + b1) == MinuteOf(StartMinutes(s2) + b2)
    ensures CalculateTimeSlot(s1, b1) == CalculateTimeSlot(s2, b2)
  {
    SlotIsClock(s1, b1);
    SlotIsClock(s2, b2);
  }

  /** Moving a slot on by `b` minutes is moving the start on by `a + b`:
      the slots of a schedule can be computed from one another. */
  lemma SlotCompose(startTime: string, a: int, b: nat)
    requires ParseTime(startTime, 0).Some?
    requires StartMinutes(startTime) + a >= 0
    ensures CalculateTimeSlot(CalculateTimeSlot(startTime, a), b) == CalculateTimeSlot(startTime, a + b)
  {
    SlotReadsBack(startTime, a);
    ComposeVia(CalculateTimeSlot(startTime, a), startTime, a, b);
  }

  /** A string that reads as the clock of `startTime` moved on by `a`,
      moved on by `b`, is the start moved on by `a + b`. */
  lemma ComposeVia(s1: string, startTime: string, a: int, b: nat)
    requires ParseTime(startTime, 0).Some?
    requires StartMinutes(startTime) + a >= 0
    requires var t := StartMinutes(startTime) + a;
             ParseTime(s1, 0) == Some((HourOf(t), MinuteOf(t)))
    ensures CalculateTimeSlot(s1, b) == CalculateTimeSlot(startTime, a + b)
  {
    ReadBackShift(s1, startTime, a, b);
    SameClockSameSlot(s1, b, startTime, a + b);
  }

  /** The clock read back from `s1`, moved on by `b`, is the clock of the
      start moved on by `a + b`. */
  lemma ReadBackShift(s1: string, startTime: string, a: int, b: nat)
    requires ParseTime(startTime, 0).Some?
    requires StartMinutes(startTime) + a >= 0
    requires var t := StartMinutes(startTime) + a;
             ParseTime(s1, 0) == Some((HourOf(t), MinuteOf(t)))
    ensures HourOf(StartMinutes(s1) + b) == HourOf(StartMinutes(startTime) + (a + b))
    ensures MinuteOf(StartMinutes(s1) + b) == MinuteOf(StartMinutes(startTime) + (a + b))
  {
    ClockShift(StartMinutes(s1), StartMinutes(startTime) + a, b);
  }

  /** `generateTimeSlots`: `count` slots, the i-th `i × interval` minutes
      after the start. */
  method GenerateTimeSlots(count: int, startTime: string, interval: int) returns (slots: seq<string>)
    ensures |slots| == if count > 0 then count else 0
    ensures forall i :: 0 <= i < |slots| ==> slots[i] == CalculateTimeSlot(startTime, i * interval)
  {
    slots := [];
    var i := 0;
    while i < count
      invariant 0 <= i && (count > 0 ==> i <= count) && (count <= 0 ==> i == 0)
      invariant |slots| == i
      invariant forall k :: 0 <= k < i ==> slots[k] == CalculateTimeSlot(startTime, k * interval)
    {
      ghost var previous := slots;
      slots := slots + [CalculateTimeSlot(startTime, i * interval)];
      forall k | 0 <= k < i + 1 ensures slots[k] == CalculateTimeSlot(startTime, k * interval) {
        if k < i { assert slots[k] == previous[k]; }
      }
      i := i + 1;
    }
  }

  /** With a readable start and a non-negative interval, each slot is the
      previous one moved on by the interval. */
  lemma SlotsStep(startTime: string, interval: nat, i: nat)
    requires ParseTime(startTime, 0).Some?
    ensures CalculateTimeSlot(startTime, i * interval + interval)
            == CalculateTimeSlot(CalculateTimeSlot(startTime, i * interval), interval)
  {
    SlotCompose(startTime, i * interval, interval);
  }
}
