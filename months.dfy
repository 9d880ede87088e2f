/** Calendar months and the trailing six-month window that three screens
    build before bucketing transactions by month.

    The screens step a JavaScript `Date` backwards with
    `new Date(year, month - i, 1)`; JavaScript normalises an out-of-range
    month by moving whole years, which is floor division of a running month
    index by 12. Here the reference month ("now") is a parameter. */
module Months {
  import opened Common

  datatype YearMonth = YearMonth(year: int, month: int)

  predicate Valid(ym: YearMonth)
  {
    1 <= ym.month <= 12
  }

  /** Reference months whose window can be written as four-digit years,
      as `toISOString` writes them. */
  predicate InRange(ym: YearMonth)
  {
    Valid(ym) && 1 <= ym.year <= 9999
  }

  /** Months counted from January of year 0. */
  function Index(ym: YearMonth): int
  {
    ym.year * 12 + (ym.month - 1)
  }

  /** The month `Date` lands on for a month index (floor division). */
  function FromIndex(k: int): (ym: YearMonth)
    ensures Valid(ym) && Index(ym) == k
  {
    YearMonth(k / 12, k % 12 + 1)
  }

  lemma FromIndexOfIndex(ym: YearMonth)
    requires Valid(ym)
    ensures FromIndex(Index(ym)) == ym
  {
  }

  /** `new Date(ym.year, ym.month - 1 - n, 1)`: the month `n` steps back. */
  function Back(ym: YearMonth, n: int): YearMonth
  {
    FromIndex(Index(ym) - n)
  }

  /** The following month, with explicit rollover after December. */
  function Next(ym: YearMonth): (r: YearMonth)
    requires Valid(ym)
    ensures Valid(r) && Index(r) == Index(ym) + 1
  {
    if ym.month == 12 then YearMonth(ym.year + 1, 1) else YearMonth(ym.year, ym.month + 1)
  }

  /** The six months ending at `now`, oldest first
      (`for (let i = 5; i >= 0; i--) new Date(y, m - i, 1)`). */
  function Window(now: YearMonth): (w: seq<YearMonth>)
    requires Valid(now)
    ensures |w| == 6 && w[5] == now
    ensures forall i :: 0 <= i < 6 ==> Valid(w[i]) && Index(w[i]) == Index(now) - 5 + i
  {
    seq(6, i requires 0 <= i < 6 => Back(now, 5 - i))
  }

  /** The window is contiguous: each month is followed by the next calendar
      month, so there are no gaps and no repeats. */
  lemma {:induction false} WindowContiguous(now: YearMonth, i: nat)
    requires Valid(now) && i < 5
    ensures Next(Window(now)[i]) == Window(now)[i + 1]
  {
    var w := Window(now);
    FromIndexOfIndex(Next(w[i]));
    FromIndexOfIndex(w[i + 1]);
  }

  /** Year rollover: the window in closed form. A month reached by going
      below January belongs to the previous year. */
  lemma WindowClosedForm(now: YearMonth, i: nat)
    requires Valid(now) && i < 6
    ensures Window(now)[i] ==
      if now.month + i >= 6 then YearMonth(now.year, now.month + i - 5)
      else YearMonth(now.year - 1, now.month + i + 7)
  {
    var w := Window(now);
    var expected := if now.month + i >= 6 then YearMonth(now.year, now.month + i - 5)
                    else YearMonth(now.year - 1, now.month + i + 7);
    assert Index(expected) == Index(w[i]);
    FromIndexOfIndex(expected);
    FromIndexOfIndex(w[i]);
  }

  /** Example: the window ending in January 2025 starts in August 2024. */
  lemma WindowJanuary()
    ensures Window(YearMonth(2025, 1)) ==
      [YearMonth(2024, 8), YearMonth(2024, 9), YearMonth(2024, 10),
       YearMonth(2024, 11), YearMonth(2024, 12), YearMonth(2025, 1)]
  {
  }

  // ---------------------------------------------------------------------
  // "yyyy-MM" keys (the first seven characters of an ISO date)
  // ---------------------------------------------------------------------

  function DigitChar(d: int): char
    requires 0 <= d <= 9
  {
    ('0' as int + d) as char
  }

  /** The key `toISOString().slice(0, 7)` yields for a month. */
  function Key(ym: YearMonth): (k: string)
    requires Valid(ym) && 0 <= ym.year <= 9999
    ensures |k| == 7 && k[4] == '-'
  {
    var y := ym.year;
    [DigitChar(y / 1000), DigitChar(y / 100 % 10), DigitChar(y / 10 % 10), DigitChar(y % 10),
     '-', DigitChar(ym.month / 10), DigitChar(ym.month % 10)]
  }

  /** Different months have different keys. */
  lemma KeyInjective(a: YearMonth, b: YearMonth)
    requires Valid(a) && 0 <= a.year <= 9999
    requires Valid(b) && 0 <= b.year <= 9999
    requires Key(a) == Key(b)
    ensures a == b
  {
    var ka, kb := Key(a), Key(b);
    assert ka[0] == kb[0] && ka[1] == kb[1] && ka[2] == kb[2] && ka[3] == kb[3];
    assert ka[5] == kb[5] && ka[6] == kb[6];
    assert a.year / 1000 == b.year / 1000;
    assert a.year / 100 % 10 == b.year / 100 % 10;
    assert a.year / 10 % 10 == b.year / 10 % 10;
    assert a.year % 10 == b.year % 10;
    assert a.month / 10 == b.month / 10 && a.month % 10 == b.month % 10;
    Digits(a.year);
    Digits(b.year);
  }

  lemma Digits(y: int)
    requires 0 <= y <= 9999
    ensures y == 1000 * (y / 1000) + 100 * (y / 100 % 10) + 10 * (y / 10 % 10) + y % 10
  {
    var r1, r2, r3 := y / 10, y / 100, y / 1000;
    assert r2 == r1 / 10 && r3 == r2 / 10;
    assert y == 10 * r1 + y % 10;
    assert r1 == 10 * r2 + r1 % 10;
    assert r2 == 10 * r3 + r2 % 10;
  }

  /** The six keys of the window, oldest first. */
  function WindowKeys(now: YearMonth): (keys: seq<string>)
    requires InRange(now)
    ensures |keys| == 6 && keys[5] == Key(now)
    ensures forall i :: 0 <= i < 6 ==> keys[i] == Key(Window(now)[i])
  {
    var w := Window(now);
    seq(6, i requires 0 <= i < 6 => Key(w[i]))
  }

  /** The six keys are pairwise different, so seeding a dictionary with
      them yields six buckets. */
  lemma WindowKeysDistinct(now: YearMonth)
    requires InRange(now)
    ensures forall i, j :: 0 <= i < j < 6 ==> WindowKeys(now)[i] != WindowKeys(now)[j]
  {
    var w := Window(now);
    forall i, j | 0 <= i < j < 6
      ensures WindowKeys(now)[i] != WindowKeys(now)[j]
    {
      if Key(w[i]) == Key(w[j]) {
        KeyInjective(w[i], w[j]);
      }
    }
  }

  /** `date.startsWith(key)` and `date.slice(0, 7) == key` agree for every
      month key. */
  lemma StartsWithKeyIffPrefix(date: string, ym: YearMonth)
    requires Valid(ym) && 0 <= ym.year <= 9999
    ensures StartsWith(date, Key(ym)) <==> SliceTo(date, 7) == Key(ym)
  {
    StartsWithIffSlice(date, Key(ym));
  }
}
