/** The day count behind log timestamps: a closed form over the proleptic Gregorian calendar. */
module Civil {

  /** Rust's integer division, which rounds toward zero. */
  function TruncDiv(a: int, b: int): int
    requires b > 0
  {
    if a >= 0 then a / b else -((-a) / b)
  }

  /** days_from_civil, operation by operation. */
  function DaysFromCivil(year: int, m: nat, d: nat): int {
    var y := if m <= 2 then year - 1 else year;
    var era := TruncDiv(if y >= 0 then y else y - 399, 400);
    var yoe := y - era * 400;
    var mp := (m + 9) % 12;
    var doy := TruncDiv(153 * mp + 2, 5) + d - 1;
    var doe := yoe * 365 + TruncDiv(yoe, 4) - TruncDiv(yoe, 100) + doy;
    era * 146097 + doe - 719468
  }

  // The calendar itself, with no reference to the closed form.

  datatype Date = Date(y: int, m: nat, d: nat)

  predicate Leap(y: int) {
    y % 4 == 0 && (y % 100 != 0 || y % 400 == 0)
  }

  function MonthLength(y: int, m: nat): nat {
    if m == 2 then (if Leap(y) then 29 else 28)
    else if m in {4, 6, 9, 11} then 30
    else 31
  }

  predicate Valid(t: Date) {
    1 <= t.m <= 12 && 1 <= t.d <= MonthLength(t.y, t.m)
  }

  function NextDay(t: Date): (r: Date)
    requires Valid(t)
    ensures Valid(r) && Before(t, r)
  {
    if t.d < MonthLength(t.y, t.m) then t.(d := t.d + 1)
    else if t.m < 12 then Date(t.y, t.m + 1, 1)
    else Date(t.y + 1, 1, 1)
  }

  predicate Before(a: Date, b: Date) {
    a.y < b.y || (a.y == b.y && (a.m < b.m || (a.m == b.m && a.d < b.d)))
  }

  function Days(t: Date): int {
    DaysFromCivil(t.y, t.m, t.d)
  }

  // The truncating quotient of the adjusted year is the floor, and the year of the era is in range,
  // so the formula is a floor formula over every year.

  lemma EraIsFloor(y: int)
    ensures TruncDiv(if y >= 0 then y else y - 399, 400) == y / 400
    ensures y - y / 400 * 400 == y % 400
  {
  }

  /** Leap days up to the end of year y, by floor division. */
  function LeapDays(y: int): int {
    y / 4 - y / 100 + y / 400
  }

  lemma Div4Step(y: int)
    ensures y / 4 - (y - 1) / 4 == if y % 4 == 0 then 1 else 0
  {
  }

  lemma Div100Step(y: int)
    ensures y / 100 - (y - 1) / 100 == if y % 100 == 0 then 1 else 0
  {
  }

  lemma Div400Step(y: int)
    ensures y / 400 - (y - 1) / 400 == if y % 400 == 0 then 1 else 0
  {
  }

  lemma LeapDaysStep(y: int)
    ensures LeapDays(y) - LeapDays(y - 1) == if Leap(y) then 1 else 0
  {
    Div4Step(y);
    Div100Step(y);
    Div400Step(y);
    assert y == 400 * (y / 400) + y % 400;
    assert y == 100 * (y / 100) + y % 100;
  }

  /** The era form is the plain one: 365 days a year plus one for each leap year. */
  lemma EraFormIsYearForm(y: int)
    ensures var era := y / 400; var yoe := y % 400;
      era * 146097 + yoe * 365 + yoe / 4 - yoe / 100 == 365 * y + LeapDays(y)
  {
    var era, yoe := y / 400, y % 400;
    assert y == 400 * era + yoe;
    assert y / 4 == 100 * era + yoe / 4;
    assert y / 100 == 4 * era + yoe / 100;
  }

  lemma DaysPlain(t: Date)
    requires Valid(t)
    ensures var y := if t.m <= 2 then t.y - 1 else t.y;
      Days(t) == 365 * y + LeapDays(y) + (153 * ((t.m + 9) % 12) + 2) / 5 + t.d - 1 - 719468
  {
    hide LeapDays;
    var y := if t.m <= 2 then t.y - 1 else t.y;
    EraIsFloor(y);
    EraFormIsYearForm(y);
  }

  /** Day one of the count. */
  lemma EpochIsDayZero()
    ensures Valid(Date(1970, 1, 1)) && Days(Date(1970, 1, 1)) == 0
  {
  }

  /** The closed form counts days: the next day is one more, in every year, before and after zero. */
  lemma NextDayIsOneMore(t: Date)
    requires Valid(t)
    ensures Days(NextDay(t)) == Days(t) + 1
  {
    hide DaysFromCivil, LeapDays;
    DaysPlain(t);
    DaysPlain(NextDay(t));
    LeapDaysStep(t.y);
  }

  /** How many days later one date is than another, as a bound that falls with every day counted. */
  function Distance(a: Date, b: Date): int {
    372 * (b.y - a.y) + 31 * (b.m as int - a.m as int) + b.d as int - a.d as int
  }

  lemma {:induction false} StrictlyMonotone(a: Date, b: Date)
    requires Valid(a) && Valid(b) && Before(a, b)
    ensures Days(a) < Days(b)
    decreases Distance(a, b)
  {
    hide Days;
    NextDayIsOneMore(a);
    if NextDay(a) != b {
      assert Before(NextDay(a), b);
      StrictlyMonotone(NextDay(a), b);
    }
  }

  /** The count orders dates as the calendar does, so two dates never share a count. */
  lemma OrderAndInjective(a: Date, b: Date)
    requires Valid(a) && Valid(b)
    ensures Before(a, b) <==> Days(a) < Days(b)
    ensures a == b <==> Days(a) == Days(b)
  {
    hide Days;
    if Before(a, b) {
      StrictlyMonotone(a, b);
    } else if Before(b, a) {
      StrictlyMonotone(b, a);
    }
  }

  function Advance(t: Date, n: nat): (r: Date)
    requires Valid(t)
    ensures Valid(r)
  {
    if n == 0 then t else NextDay(Advance(t, n - 1))
  }

  /** Counting n days forward from any date adds n; the count is onto from there on. */
  lemma {:induction false} CountsDays(t: Date, n: nat)
    requires Valid(t)
    ensures Days(Advance(t, n)) == Days(t) + n
  {
    hide Days;
    if n > 0 {
      CountsDays(t, n - 1);
      NextDayIsOneMore(Advance(t, n - 1));
    }
  }

  /** A date no earlier than t is reached by counting forward exactly the difference of the counts. */
  lemma DifferenceIsDaysApart(t: Date, u: Date)
    requires Valid(t) && Valid(u) && !Before(u, t)
    ensures Days(u) >= Days(t) && Advance(t, Days(u) - Days(t)) == u
  {
    hide Days, Advance;
    OrderAndInjective(u, t);
    var n := Days(u) - Days(t);
    CountsDays(t, n);
    OrderAndInjective(Advance(t, n), u);
  }
}
