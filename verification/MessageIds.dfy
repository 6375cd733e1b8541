// Message ids: a second and a six-digit number from a 32-bit counter that wraps.
module MessageIds {

  const WRAP := 0x1_0000_0000
  const NUMBERS := 1_000_000

  // 2^32 mod 1,000,000: how far the six digits jump when the counter wraps.
  const BOUND := 967_296

  const STAMP_WIDTH := 14

  function Power(width: nat): nat { if width == 0 then 1 else 10 * Power(width - 1) }

  // n in decimal, padded to the width.
  function Pad(n: nat, width: nat): (s: string)
    ensures |s| == width
  {
    if width == 0 then "" else Pad(n / 10, width - 1) + ["0123456789"[n % 10]]
  }

  lemma {:induction false} PadIsInjective(n: nat, m: nat, width: nat)
    requires n < Power(width) && m < Power(width) && Pad(n, width) == Pad(m, width)
    ensures n == m
  {
    if width > 0 {
      var s, u := Pad(n, width), Pad(m, width);
      assert s[..width - 1] == Pad(n / 10, width - 1) && u[..width - 1] == Pad(m / 10, width - 1);
      assert s[width - 1] == "0123456789"[n % 10] && u[width - 1] == "0123456789"[m % 10];
      assert n % 10 == m % 10;
      PadIsInjective(n / 10, m / 10, width - 1);
    }
  }

  // ----- seconds as the clock shows them -----

  datatype Moment = Moment(year: nat, month: nat, day: nat, hour: nat, minute: nat, second: nat)

  function DaysIn(year: nat, month: nat): nat {
    if month == 2 then if year % 4 == 0 && (year % 100 != 0 || year % 400 == 0) then 29 else 28
    else if month in {4, 6, 9, 11} then 30 else 31
  }

  predicate Valid(m: Moment) {
    && m.year < 10_000 && 1 <= m.month <= 12 && 1 <= m.day <= DaysIn(m.year, m.month)
    && m.hour < 24 && m.minute < 60 && m.second < 60
  }

  function Format(m: Moment): (s: string)
    ensures |s| == STAMP_WIDTH
  {
    Pad(m.year, 4) + Pad(m.month, 2) + Pad(m.day, 2) + Pad(m.hour, 2) + Pad(m.minute, 2) + Pad(m.second, 2)
  }

  ghost predicate IsStamp(s: string) { exists m :: Valid(m) && s == Format(m) }

  // ----- the counter -----

  class MessageIdSource {
    var counter: nat

    constructor ()
      ensures counter == 0
    {
      counter := 0;
    }

    // The second, then the counter's value before the step, modulo a million.
    method NextMsgId(now: string) returns (id: string)
      requires counter < WRAP
      modifies this
      ensures id == IdOf(old(counter), now)
      ensures counter == (old(counter) + 1) % WRAP
    {
      var number := counter % NUMBERS;
      counter := (counter + 1) % WRAP;
      id := now + Pad(number, 6);
    }
  }

  function IdOf(counter: nat, now: string): string { now + Pad(counter % NUMBERS, 6) }

  // Reading decimal digits, the most significant first.
  function Reading(s: string): nat {
    if s == "" then 0 else Reading(s[..|s| - 1]) * 10 + Digit(s[|s| - 1])
  }

  function Digit(c: char): nat { if '0' <= c <= '9' then (c - '0') as int else 0 }

  lemma {:induction false} PadReads(n: nat, width: nat)
    requires n < Power(width)
    ensures Reading(Pad(n, width)) == n && forall i | 0 <= i < width :: '0' <= Pad(n, width)[i] <= '9'
  {
    if width > 0 {
      PadReads(n / 10, width - 1);
      var s := Pad(n, width);
      assert s[..width - 1] == Pad(n / 10, width - 1);
      DigitOf(n % 10);
    }
  }

  lemma {:induction false} DigitOf(d: nat)
    requires d < 10
    ensures '0' <= "0123456789"[d] <= '9' && Digit("0123456789"[d]) == d
  {
  }

  // An id reads as the second, then six digits: the counter modulo a million.
  lemma {:induction false} IdReads(counter: nat, now: string)
    ensures var id := IdOf(counter, now);
      && |id| == |now| + 6 && id[..|now|] == now && Reading(id[|now|..]) == counter % 1_000_000
      && forall i | |now| <= i < |id| :: '0' <= id[i] <= '9'
  {
    var id, digits := IdOf(counter, now), Pad(counter % NUMBERS, 6);
    assert Power(3) == 1000 && Power(6) == 1000 * Power(3);
    PadReads(counter % NUMBERS, 6);
    assert id[|now|..] == digits && id[..|now|] == now;
    assert forall i | |now| <= i < |id| :: id[i] == digits[i - |now|];
  }

  // The i-th id drawn when the counter stood at `start` and clock[i] was the second shown.
  function Id(start: nat, clock: seq<string>, i: nat): string
    requires i < |clock|
  {
    IdOf((start + i) % WRAP, clock[i])
  }

  // Seconds are stamps of valid moments, and a second does not come back once it is over.
  ghost predicate Steady(clock: seq<string>) {
    && (forall i | 0 <= i < |clock| :: IsStamp(clock[i]))
    && (forall i, j, k | 0 <= i <= j <= k < |clock| && clock[i] == clock[k] :: clock[j] == clock[i])
  }

  // No second sees more than `most` draws.
  ghost predicate AtMost(clock: seq<string>, most: nat) {
    forall i, j | 0 <= i < |clock| && j == i + most && j < |clock| :: clock[i] != clock[j]
  }

  ghost predicate Distinct(start: nat, clock: seq<string>) {
    forall i, j | 0 <= i < j < |clock| :: Id(start, clock, i) != Id(start, clock, j)
  }

  lemma {:induction false} SameIdMeansSameNumber(start: nat, clock: seq<string>, i: nat, j: nat)
    requires Steady(clock) && i < |clock| && j < |clock| && Id(start, clock, i) == Id(start, clock, j)
    ensures clock[i] == clock[j]
    ensures (start + i) % WRAP % NUMBERS == (start + j) % WRAP % NUMBERS
  {
    var a, b := (start + i) % WRAP % NUMBERS, (start + j) % WRAP % NUMBERS;
    var x, y := Id(start, clock, i), Id(start, clock, j);
    assert IsStamp(clock[i]) && IsStamp(clock[j]);
    assert x[..STAMP_WIDTH] == clock[i] && y[..STAMP_WIDTH] == clock[j];
    assert x[STAMP_WIDTH..] == Pad(a, 6) && y[STAMP_WIDTH..] == Pad(b, 6);
    assert Power(3) == 1000 && Power(6) == 1000 * Power(3);
    PadIsInjective(a, b, 6);
  }

  // Two counter values less than BOUND steps apart differ in their six digits, across the
  // wrap as well.
  lemma {:induction false} CloseCountersDiffer(start: nat, i: nat, d: nat)
    requires 0 < d < BOUND
    ensures (start + i) % WRAP % NUMBERS != (start + i + d) % WRAP % NUMBERS
  {
    var a := (start + i) % WRAP;
    var b := (start + i + d) % WRAP;
    CounterMoves(start + i, d);
    RemaindersDiffer(a, b, d);
  }

  lemma {:induction false} CounterMoves(n: nat, d: nat)
    requires d < WRAP
    ensures (n + d) % WRAP == n % WRAP + d || (n + d) % WRAP == n % WRAP + d - WRAP
  {
    var q := n / WRAP;
    if n % WRAP + d < WRAP {
      assert (n + d) / WRAP == q;
    } else {
      assert (n + d) / WRAP == q + 1;
    }
  }

  // Equal digits would put a multiple of a million between the counters.
  lemma {:induction false} RemaindersDiffer(a: nat, b: nat, d: nat)
    requires 0 < d < BOUND && (b == a + d || b == a + d - WRAP)
    ensures a % NUMBERS != b % NUMBERS
  {
    var x, y := a / NUMBERS, b / NUMBERS;
    assert a == x * NUMBERS + a % NUMBERS && b == y * NUMBERS + b % NUMBERS;
    assert WRAP == 4294 * NUMBERS + BOUND;
  }

  lemma {:induction false} SecondsMoveOn(clock: seq<string>, most: nat, i: nat, j: nat)
    requires Steady(clock) && AtMost(clock, most) && i + most <= j < |clock|
    ensures clock[i] != clock[j]
  {
    assert clock[i] != clock[i + most];
  }

  lemma {:induction false} IdsAreDistinct(start: nat, clock: seq<string>, most: nat)
    requires Steady(clock) && AtMost(clock, most) && most <= BOUND
    ensures Distinct(start, clock)
  {
    forall i, j | 0 <= i < j < |clock|
      ensures Id(start, clock, i) != Id(start, clock, j)
    {
      if Id(start, clock, i) == Id(start, clock, j) {
        SameIdMeansSameNumber(start, clock, i, j);
        if j - i < most {
          CloseCountersDiffer(start, i, j - i);
        } else {
          SecondsMoveOn(clock, most, i, j);
        }
      }
    }
  }

  // ----- the bound is sharp -----

  // BOUND + 1 draws in every second, placed so that the last second starts BOUND draws
  // before the counter wraps.
  const LAST_SECOND := WRAP - BOUND
  const OFFSET := (BOUND + 1) - LAST_SECOND % (BOUND + 1)

  function SecondOf(i: nat): nat { (i + OFFSET) / (BOUND + 1) }

  // Second s of the first of January 2025.
  function MomentAt(s: nat): Moment { Moment(2025, 1, 1, s / 3600, s / 60 % 60, s % 60) }

  function StampAt(s: nat): (stamp: string)
    ensures |stamp| == STAMP_WIDTH
  {
    Format(MomentAt(s))
  }

  function BusyClock(): (clock: seq<string>)
    ensures |clock| == WRAP + 1
    ensures forall i | 0 <= i < |clock| :: clock[i] == StampAt(SecondOf(i))
  {
    seq(WRAP + 1, i requires 0 <= i < WRAP + 1 => StampAt(SecondOf(i)))
  }

  lemma {:induction false} StampsAreExact(s: nat, u: nat)
    requires s < 86_400 && u < 86_400 && StampAt(s) == StampAt(u)
    ensures s == u
  {
    var m, n := MomentAt(s), MomentAt(u);
    var day := Pad(2025, 4) + Pad(1, 2) + Pad(1, 2);
    assert Power(1) == 10 && Power(2) == 100;
    SameEnds(day + Pad(m.hour, 2) + Pad(m.minute, 2), Pad(m.second, 2),
             day + Pad(n.hour, 2) + Pad(n.minute, 2), Pad(n.second, 2));
    SameEnds(day + Pad(m.hour, 2), Pad(m.minute, 2), day + Pad(n.hour, 2), Pad(n.minute, 2));
    SameEnds(day, Pad(m.hour, 2), day, Pad(n.hour, 2));
    PadIsInjective(s / 3600, u / 3600, 2);
    PadIsInjective(s / 60 % 60, u / 60 % 60, 2);
    PadIsInjective(s % 60, u % 60, 2);
    ClockFace(s);
    ClockFace(u);
  }

  lemma {:induction false} OtherSecondOtherStamp(s: nat, u: nat)
    requires s < 86_400 && u < 86_400 && s != u
    ensures StampAt(s) != StampAt(u)
  {
    if StampAt(s) == StampAt(u) {
      StampsAreExact(s, u);
    }
  }

  lemma {:induction false} SameEnds(a: string, x: string, b: string, y: string)
    requires a + x == b + y && |x| == |y|
    ensures a == b && x == y
  {
    assert a == (a + x)[..|a|] && b == (b + y)[..|b|];
    assert x == (a + x)[|a|..] && y == (b + y)[|b|..];
  }

  lemma {:induction false} ClockFace(s: nat)
    ensures s == s / 3600 * 3600 + s / 60 % 60 * 60 + s % 60
  {
    assert s / 60 / 60 == s / 3600;
  }

  // All of the clock lies within one day.
  lemma {:induction false} WithinADay(i: nat)
    requires i <= WRAP
    ensures SecondOf(i) < 86_400 && IsStamp(StampAt(SecondOf(i)))
  {
    assert Valid(MomentAt(SecondOf(i)));
  }

  lemma {:induction false} SecondsAreStamps(i: nat, j: nat)
    requires i <= WRAP && j <= WRAP && StampAt(SecondOf(i)) == StampAt(SecondOf(j))
    ensures SecondOf(i) == SecondOf(j)
  {
    WithinADay(i);
    WithinADay(j);
    StampsAreExact(SecondOf(i), SecondOf(j));
  }

  lemma {:induction false} SecondsAdvance(i: nat, j: nat)
    ensures i <= j ==> SecondOf(i) <= SecondOf(j)
    ensures SecondOf(i + (BOUND + 1)) == SecondOf(i) + 1
  {
  }

  lemma {:induction false} BusyClockIsSteady()
    ensures Steady(BusyClock()) && AtMost(BusyClock(), BOUND + 1)
  {
    var clock := BusyClock();
    forall i | 0 <= i < |clock|
      ensures IsStamp(clock[i])
    {
      WithinADay(i);
    }
    forall i, j, k | 0 <= i <= j <= k < |clock| && clock[i] == clock[k]
      ensures clock[j] == clock[i]
    {
      SameStampBetween(i, j, k);
    }
    forall i, j | 0 <= i < |clock| && j == i + (BOUND + 1) && j < |clock|
      ensures clock[i] != clock[j]
    {
      SecondIsOver(i);
    }
  }

  lemma {:induction false} SameStampBetween(i: nat, j: nat, k: nat)
    requires i <= j <= k <= WRAP && StampAt(SecondOf(i)) == StampAt(SecondOf(k))
    ensures SecondOf(i) == SecondOf(j)
  {
    SecondsAreStamps(i, k);
    SecondsAdvance(i, j);
    SecondsAdvance(j, k);
  }

  lemma {:induction false} SecondIsOver(i: nat)
    requires i + (BOUND + 1) <= WRAP
    ensures StampAt(SecondOf(i)) != StampAt(SecondOf(i + (BOUND + 1)))
  {
    SecondsAdvance(i, i);
    WithinADay(i);
    WithinADay(i + (BOUND + 1));
    OtherSecondOtherStamp(SecondOf(i), SecondOf(i + (BOUND + 1)));
  }

  lemma {:induction false} BusyClockRepeats()
    ensures LAST_SECOND < WRAP && Id(0, BusyClock(), LAST_SECOND) == Id(0, BusyClock(), WRAP)
  {
    SameSecondSameNumber();
  }

  lemma {:induction false} SameSecondSameNumber()
    ensures 0 < LAST_SECOND < WRAP && SecondOf(LAST_SECOND) == SecondOf(WRAP)
    ensures LAST_SECOND % WRAP % NUMBERS == WRAP % WRAP % NUMBERS
  {
    assert LAST_SECOND % NUMBERS == 0;
  }

  lemma {:induction false} AtMostIsMonotone(clock: seq<string>, most: nat, more: nat)
    requires Steady(clock) && AtMost(clock, most) && most <= more
    ensures AtMost(clock, more)
  {
    forall i, j | 0 <= i < |clock| && j == i + more && j < |clock|
      ensures clock[i] != clock[j]
    {
      SecondsMoveOn(clock, most, i, j);
    }
  }

  // Ids are distinct for every counter and every steady clock with at most `most` draws a
  // second if and only if `most` is at most 967,296.
  lemma {:induction false} DistinctIffWithinBound(most: nat)
    ensures (forall start: nat, clock | Steady(clock) && AtMost(clock, most) :: Distinct(start, clock)) <==>
            most <= BOUND
  {
    if most <= BOUND {
      forall start: nat, clock | Steady(clock) && AtMost(clock, most)
        ensures Distinct(start, clock)
      {
        IdsAreDistinct(start, clock, most);
      }
    } else {
      BusyClockIsSteady();
      BusyClockRepeats();
      AtMostIsMonotone(BusyClock(), BOUND + 1, most);
      assert !Distinct(0, BusyClock());
    }
  }
}
