/** The account-detail screen: the transactions of one account and their
    month buckets over the last six months, handed to the information tab
    as parallel label and value lists. */
module CompteDetail {
  import opened Common
  import opened Months
  import opened Ledger
  import opened Buckets

  /** A calendar day, as a JavaScript `Date` holds it in local time. */
  datatype Day = Day(year: int, month: int, day: int)

  predicate IsLeapYear(y: int)
  {
    y % 4 == 0 && (y % 100 != 0 || y % 400 == 0)
  }

  /** Days of a month of the Gregorian calendar. */
  function DaysInMonth(ym: YearMonth): (n: int)
    requires Valid(ym)
    ensures 28 <= n <= 31
    ensures n == 29 <==> ym.month == 2 && IsLeapYear(ym.year)
  {
    if ym.month == 2 then (if IsLeapYear(ym.year) then 29 else 28)
    else if ym.month == 4 || ym.month == 6 || ym.month == 9 || ym.month == 11 then 30
    else 31
  }

  function MonthOfDay(d: Day): YearMonth
  {
    YearMonth(d.year, d.month)
  }

  /** A day that exists, in a month whose key has four digits. */
  predicate ValidDay(d: Day)
  {
    InRange(MonthOfDay(d)) && 1 <= d.day <= DaysInMonth(MonthOfDay(d))
  }

  /** The month `d.setMonth(d.getMonth() - i)` aims at: a month number
      below January counts back into the previous year. */
  function SetMonthTarget(ym: YearMonth, i: nat): (r: YearMonth)
    requires Valid(ym) && i <= 5
    ensures Valid(r) && Index(r) == Index(ym) - i
  {
    if ym.month > i then YearMonth(ym.year, ym.month - i) else YearMonth(ym.year - 1, ym.month - i + 12)
  }

  /** The targeted month is the month `i` steps back. */
  lemma SetMonthTargetIsBack(ym: YearMonth, i: nat)
    requires Valid(ym) && i <= 5
    ensures SetMonthTarget(ym, i) == Back(ym, i)
  {
    FromIndexOfIndex(SetMonthTarget(ym, i));
  }

  /** `d.setMonth(d.getMonth() - i)` on a copy of `today`, as written: the
      day of the month is kept, and a day the target month does not have
      rolls over into the month after it. */
  function SetMonthBack(today: Day, i: nat): (r: YearMonth)
    requires ValidDay(today) && i <= 5
    ensures Valid(r) && 0 <= r.year <= 9999
  {
    var target := SetMonthTarget(MonthOfDay(today), i);
    if today.day <= DaysInMonth(target) then target else Next(target)
  }

  /** The months the seeding loop of `monthlySums` reaches, as written, for
      `i` from 5 down to 0. */
  function AsWrittenMonths(today: Day): (ms: seq<YearMonth>)
    requires ValidDay(today)
    ensures |ms| == 6
    ensures forall j :: 0 <= j < 6 ==> Valid(ms[j]) && 0 <= ms[j].year <= 9999
  {
    [SetMonthBack(today, 5), SetMonthBack(today, 4), SetMonthBack(today, 3),
     SetMonthBack(today, 2), SetMonthBack(today, 1), SetMonthBack(today, 0)]
  }

  /** The keys that loop seeds, oldest first. */
  function AsWrittenKeys(today: Day): (keys: seq<string>)
    requires ValidDay(today)
    ensures |keys| == 6
  {
    var ms := AsWrittenMonths(today);
    seq(6, j requires 0 <= j < 6 => Key(ms[j]))
  }

  /** Up to the 28th the as-written keys are the six months of the window. */
  lemma AsWrittenEarlyInMonth(today: Day)
    requires ValidDay(today) && today.day <= 28
    ensures AsWrittenKeys(today) == WindowKeys(MonthOfDay(today))
  {
    var now := MonthOfDay(today);
    var ms := AsWrittenMonths(today);
    forall j | 0 <= j < 6
      ensures ms[j] == Window(now)[j]
    {
      SetMonthTargetIsBack(now, 5 - j);
    }
    assert ms == Window(now);
  }

  /** On 31 October 2026 the six `setMonth` steps land on May, July, July,
      August, October and October: June and September get no bucket and
      the chart shows four months. */
  lemma AsWrittenLosesMonths()
    ensures AsWrittenKeys(Day(2026, 10, 31)) ==
      ["2026-05", "2026-07", "2026-07", "2026-08", "2026-10", "2026-10"]
    ensures |Distinct(AsWrittenKeys(Day(2026, 10, 31)))| == 4
    ensures Key(YearMonth(2026, 6)) !in AsWrittenKeys(Day(2026, 10, 31))
  {
    var today := Day(2026, 10, 31);
    var may, jul, aug, oct := YearMonth(2026, 5), YearMonth(2026, 7), YearMonth(2026, 8), YearMonth(2026, 10);
    Oct31Months(today);
    var keys := AsWrittenKeys(today);
    assert keys == [Key(may), Key(jul), Key(jul), Key(aug), Key(oct), Key(oct)];
    Key2026(5);
    Key2026(6);
    Key2026(7);
    Key2026(8);
    Key2026(10);
    assert keys == ["2026-05", "2026-07", "2026-07", "2026-08", "2026-10", "2026-10"];
    DistinctExample("2026-05", "2026-07", "2026-08", "2026-10");
  }

  /** The months the seeding loop reaches on 31 October 2026. */
  lemma Oct31Months(today: Day)
    requires today == Day(2026, 10, 31)
    ensures AsWrittenMonths(today) ==
      [YearMonth(2026, 5), YearMonth(2026, 7), YearMonth(2026, 7),
       YearMonth(2026, 8), YearMonth(2026, 10), YearMonth(2026, 10)]
  {
  }

  lemma Key2026(m: int)
    requires 1 <= m <= 12
    ensures Key(YearMonth(2026, m)) == ['2', '0', '2', '6', '-', DigitChar(m / 10), DigitChar(m % 10)]
  {
  }

  /** The distinct elements of `[a, b, b, c, d, d]` for four different
      values. */
  lemma {:induction false} DistinctExample<T>(a: T, b: T, c: T, d: T)
    requires a != b && a != c && a != d && b != c && b != d && c != d
    ensures Distinct([a, b, b, c, d, d]) == [a, b, c, d]
  {
    DistinctPrefix(a, b, c);
    var s4 := [a, b, b, c];
    assert d !in s4;
    DistinctSnoc(s4, d);
    assert s4 + [d] == [a, b, b, c, d];
    assert d in s4 + [d];
    DistinctSnoc(s4 + [d], d);
    assert s4 + [d] + [d] == [a, b, b, c, d, d];
  }

  lemma {:induction false} DistinctPrefix<T>(a: T, b: T, c: T)
    requires a != b && a != c && b != c
    ensures Distinct([a, b, b, c]) == [a, b, c]
  {
    var s1 := [a];
    var s2 := s1 + [b];
    var s3 := s2 + [b];
    assert s1 == [] + [a];
    DistinctSnoc([], a);
    assert Distinct(s1) == [a];
    DistinctSnoc(s1, b);
    assert Distinct(s2) == [a, b];
    DistinctSnoc(s2, b);
    assert Distinct(s3) == [a, b];
    assert c !in s3;
    DistinctSnoc(s3, c);
    assert s3 + [c] == [a, b, b, c];
  }

  /** `monthlySums` with `monthLabels`/`monthValues`, as written: one bar per
      distinct seeded key, which is fewer than six when keys repeat. */
  method MonthlyDataAsWritten(txs: seq<Transaction>, today: Day, keyLabel: string -> string)
    returns (labels: seq<string>, values: seq<real>)
    requires ValidDay(today)
    ensures |labels| == |values| == |Distinct(AsWrittenKeys(today))|
    ensures forall i :: 0 <= i < |values| ==>
      labels[i] == keyLabel(Distinct(AsWrittenKeys(today))[i]) &&
      values[i] == MonthTotal(txs, Distinct(AsWrittenKeys(today))[i])
  {
    var order, m := MonthlySums(AsWrittenKeys(today), txs);
    labels := seq(|order|, i requires 0 <= i < |order| => keyLabel(order[i]));
    values := seq(|order|, i requires 0 <= i < |order| => m[order[i]]);
  }

  /** `monthlySums` over the intended window, with `monthLabels` and
      `monthValues` read off the map in key order: six bars, one per month
      of the window, oldest first, each holding the amount of the
      transactions of its month; together they hold every in-window
      amount. */
  method MonthlyData(txs: seq<Transaction>, now: YearMonth, keyLabel: string -> string)
    returns (labels: seq<string>, values: seq<real>)
    requires InRange(now)
    ensures |labels| == 6 && |values| == 6
    ensures forall i :: 0 <= i < 6 ==>
      labels[i] == keyLabel(WindowKeys(now)[i]) && values[i] == MonthTotal(txs, WindowKeys(now)[i])
    ensures txs == [] ==> forall i :: 0 <= i < 6 ==> values[i] == 0.0
    ensures Sum(values) == InWindowTotal(txs, WindowKeys(now))
  {
    var keys := WindowKeys(now);
    var order, m := MonthlySums(keys, txs);
    WindowKeysDistinct(now);
    DistinctOfDistinct(keys);
    labels := seq(|order|, i requires 0 <= i < |order| => keyLabel(order[i]));
    values := seq(|order|, i requires 0 <= i < |order| => m[order[i]]);
    BucketsAddUp(txs, keys);
    SumIsSumBuckets(txs, keys, values);
  }
}
