/** Receipt numbers (src/app/clientReceipts/clientReceipts.controller.ts): month, day, the last five digits of the
    second and a per-second counter, and exactly when one process repeats one within a year. */
module ReceiptNumbers {
  import opened Schema
  import opened Decimal
  import opened Sums

  // ---------------------------------------------------------------- padded text

  /** `s.padStart(2, "0")` for a non-empty s. */
  function Pad2(s: string): string {
    if |s| < 2 then "0" + s else s
  }

  /** `s.slice(-5)` */
  function Last5(s: string): string {
    if |s| <= 5 then s else s[|s| - 5..]
  }

  lemma {:induction false} PadValue(s: string)
    requires |s| >= 1
    ensures Value(Pad2(s)) == Value(s)
  {
    if |s| == 1 {
      var t := "0" + s;
      assert t[..1] == "0" && s[..0] == [] && t[..1][..0] == [];
    }
  }

  lemma TextLength(n: nat)
    requires n < 100
    ensures 1 <= |Text(n)| <= 2
  {
  }

  lemma LastFiveOf(n: nat)
    requires n >= 10000
    ensures Last5(Text(n))
         == [Digit(n / 10000 % 10), Digit(n / 1000 % 10), Digit(n / 100 % 10), Digit(n / 10 % 10), Digit(n % 10)]
  {
    Quotients(n);
    FiveOf(n, n / 10, n / 100, n / 1000, n / 10000);
  }

  lemma FiveOf(n: nat, a: nat, b: nat, c: nat, d: nat)
    requires a == n / 10 && b == a / 10 && c == b / 10 && d == c / 10 && d > 0
    ensures Last5(Text(n)) == [Digit(d % 10), Digit(c % 10), Digit(b % 10), Digit(a % 10), Digit(n % 10)]
  {
    FourDigits(n, a, b, c, d);
    LastDigit(d);
    LastFiveAppend(Text(d), [Digit(c % 10), Digit(b % 10), Digit(a % 10), Digit(n % 10)]);
  }

  lemma LastFiveAppend(head: string, tail: string)
    requires head != "" && |tail| == 4
    ensures Last5(head + tail) == [head[|head| - 1]] + tail
  {
  }

  lemma Quotients(n: nat)
    ensures n / 100 == n / 10 / 10 && n / 1000 == n / 100 / 10 && n / 10000 == n / 1000 / 10
  {
  }

  lemma LastDigit(n: nat)
    ensures Text(n) != "" && Text(n)[|Text(n)| - 1] == Digit(n % 10)
  {
  }

  lemma FourDigits(n: nat, a: nat, b: nat, c: nat, d: nat)
    requires a == n / 10 && b == a / 10 && c == b / 10 && d == c / 10 && d > 0
    ensures Text(n) == Text(d) + [Digit(c % 10), Digit(b % 10), Digit(a % 10), Digit(n % 10)]
  {
    assert Text(n) == Text(a) + [Digit(n % 10)] && Text(a) == Text(b) + [Digit(a % 10)];
    assert Text(b) == Text(c) + [Digit(b % 10)] && Text(c) == Text(d) + [Digit(c % 10)];
  }

  lemma DigitInjective(a: nat, b: nat)
    requires a < 10 && b < 10 && Digit(a) == Digit(b)
    ensures a == b
  {
    DigitValueInverse(a);
    DigitValueInverse(b);
  }

  lemma FiveDigits(n: nat)
    ensures n % 100000 == n / 10000 % 10 * 10000 + n / 1000 % 10 * 1000 + n / 100 % 10 * 100 + n / 10 % 10 * 10 + n % 10
  {
    var a, b, c, d := n / 10, n / 100, n / 1000, n / 10000;
    assert b == a / 10 && c == b / 10 && d == c / 10 && n / 100000 == d / 10;
    assert n == 10 * a + n % 10 && a == 10 * b + a % 10 && b == 10 * c + b % 10 && c == 10 * d + c % 10;
    assert d == 10 * (d / 10) + d % 10;
    assert n == 100000 * (n / 100000) + n % 100000;
  }

  lemma Tenth(n: nat, k: nat)
    ensures (n + 10 * k) / 10 == n / 10 + k && (n + 10 * k) % 10 == n % 10
  {
  }

  /** Adding a multiple of 100000 keeps the last five digits. */
  lemma SameDigits(n: nat, q: nat)
    ensures var m := n + 100000 * q;
            && m / 10000 % 10 == n / 10000 % 10 && m / 1000 % 10 == n / 1000 % 10 && m / 100 % 10 == n / 100 % 10
            && m / 10 % 10 == n / 10 % 10 && m % 10 == n % 10
  {
    var m := n + 100000 * q;
    Quotients(n);
    Quotients(m);
    Tenth(n, 10000 * q);
    Tenth(n / 10, 1000 * q);
    Tenth(n / 100, 100 * q);
    Tenth(n / 1000, 10 * q);
    Tenth(n / 10000, q);
  }

  lemma SameRemainder(n: nat, m: nat)
    requires n >= 10000 && m >= 10000 && n % 100000 == m % 100000
    ensures Last5(Text(n)) == Last5(Text(m))
  {
    var r := n % 100000;
    assert n == r + 100000 * (n / 100000) && m == r + 100000 * (m / 100000);
    SameDigits(r, n / 100000);
    SameDigits(r, m / 100000);
    LastFiveOf(n);
    LastFiveOf(m);
  }

  lemma SameLastFive(n: nat, m: nat)
    requires n >= 10000 && m >= 10000 && Last5(Text(n)) == Last5(Text(m))
    ensures n % 100000 == m % 100000
  {
    LastFiveOf(n);
    LastFiveOf(m);
    var a, b := Last5(Text(n)), Last5(Text(m));
    SameDigit(n / 10000, m / 10000, a, b, 0);
    SameDigit(n / 1000, m / 1000, a, b, 1);
    SameDigit(n / 100, m / 100, a, b, 2);
    SameDigit(n / 10, m / 10, a, b, 3);
    SameDigit(n, m, a, b, 4);
    FiveDigits(n);
    FiveDigits(m);
  }

  /** The five digits kept are the second modulo 100000. */
  lemma LastFiveIff(n: nat, m: nat)
    requires n >= 10000 && m >= 10000
    ensures |Last5(Text(n))| == 5
    ensures Last5(Text(n)) == Last5(Text(m)) <==> n % 100000 == m % 100000
  {
    LastFiveOf(n);
    if n % 100000 == m % 100000 {
      SameRemainder(n, m);
    } else if Last5(Text(n)) == Last5(Text(m)) {
      SameLastFive(n, m);
    }
  }

  lemma SameDigit(n: nat, m: nat, a: string, b: string, i: nat)
    requires a == b && i < |a| && a[i] == Digit(n % 10) && b[i] == Digit(m % 10)
    ensures n % 10 == m % 10
  {
    DigitInjective(n % 10, m % 10);
  }

  // ---------------------------------------------------------------- the calendar

  /** The seconds reading at the year's first local midnight, and whether the year is a leap year. */
  datatype Year = Year(start: nat, leap: bool)

  function MonthLengths(leap: bool): seq<nat> {
    [31, if leap then 29 else 28, 31, 30, 31, 30, 31, 31, 30, 31, 30, 31]
  }

  /** Month and day, both from 1, of a day counted from 0, given the lengths of the months from `month` on. */
  function MonthDay(day: nat, month: nat, lengths: seq<nat>): (nat, nat)
    decreases |lengths|
  {
    if lengths == [] || day < lengths[0] then (month, day + 1) else MonthDay(day - lengths[0], month + 1, lengths[1..])
  }

  lemma {:induction false} MonthDayFrom(day: nat, month: nat, lengths: seq<nat>)
    ensures MonthDay(day, month, lengths).0 >= month
    decreases |lengths|
  {
    if lengths != [] && day >= lengths[0] { MonthDayFrom(day - lengths[0], month + 1, lengths[1..]); }
  }

  lemma {:induction false} MonthDayInjective(a: nat, b: nat, month: nat, lengths: seq<nat>)
    requires MonthDay(a, month, lengths) == MonthDay(b, month, lengths)
    ensures a == b
    decreases |lengths|
  {
    if lengths != [] {
      if a >= lengths[0] { MonthDayFrom(a - lengths[0], month + 1, lengths[1..]); }
      if b >= lengths[0] { MonthDayFrom(b - lengths[0], month + 1, lengths[1..]); }
      if a >= lengths[0] && b >= lengths[0] {
        MonthDayInjective(a - lengths[0], b - lengths[0], month + 1, lengths[1..]);
      }
    }
  }

  /** A reading inside the year, past the first 10000 seconds of 1970. */
  ghost predicate InYear(y: Year, seconds: nat) {
    seconds >= 10000 && y.start <= seconds < y.start + (if y.leap then 366 else 365) * 86400
  }

  function DayOf(y: Year, seconds: nat): nat {
    if seconds < y.start then 0 else (seconds - y.start) / 86400
  }

  function DateOf(y: Year, seconds: nat): (nat, nat) {
    MonthDay(DayOf(y, seconds), 1, MonthLengths(y.leap))
  }

  lemma {:induction false} MonthDayBounds(day: nat, month: nat, lengths: seq<nat>)
    requires day < Days(lengths) && forall i | 0 <= i < |lengths| :: lengths[i] <= 31
    ensures var (m, d) := MonthDay(day, month, lengths); month <= m < month + |lengths| && 1 <= d <= 31
    decreases |lengths|
  {
    if lengths != [] && day >= lengths[0] {
      MonthDayBounds(day - lengths[0], month + 1, lengths[1..]);
    }
  }

  function Days(lengths: seq<nat>): nat {
    if lengths == [] then 0 else lengths[0] + Days(lengths[1..])
  }

  lemma {:induction false} DaysAppend(a: seq<nat>, b: seq<nat>)
    ensures Days(a + b) == Days(a) + Days(b)
  {
    if a == [] {
      assert a + b == b;
    } else {
      assert (a + b)[1..] == a[1..] + b;
      DaysAppend(a[1..], b);
    }
  }

  lemma FourDays(a: nat, b: nat, c: nat, d: nat)
    ensures Days([a, b, c, d]) == a + b + c + d
  {
    assert [a, b, c, d] == [a] + ([b] + ([c] + [d]));
    DaysAppend([c], [d]);
    DaysAppend([b], [c] + [d]);
    DaysAppend([a], [b] + ([c] + [d]));
  }

  lemma YearDays(leap: bool)
    ensures Days(MonthLengths(leap)) == if leap then 366 else 365
  {
    var a, b, c := [31, if leap then 29 else 28, 31, 30], [31, 30, 31, 31], [30, 31, 30, 31];
    assert MonthLengths(leap) == a + (b + c);
    DaysAppend(a, b + c);
    DaysAppend(b, c);
    FourDays(31, if leap then 29 else 28, 31, 30);
    FourDays(31, 30, 31, 31);
    FourDays(30, 31, 30, 31);
  }

  lemma DateBounds(y: Year, seconds: nat)
    requires InYear(y, seconds)
    ensures 1 <= DateOf(y, seconds).0 <= 12 && 1 <= DateOf(y, seconds).1 <= 31
  {
    YearDays(y.leap);
    MonthDayBounds(DayOf(y, seconds), 1, MonthLengths(y.leap));
  }

  // ---------------------------------------------------------------- one number

  function ReceiptNumber(y: Year, seconds: nat, counter: nat): string {
    var (month, day) := DateOf(y, seconds);
    Pad2(Text(month)) + Pad2(Text(day)) + Last5(Text(seconds)) + Pad2(Text(counter))
  }

  lemma TwoDigits(n: nat)
    requires n < 100
    ensures |Pad2(Text(n))| == 2 && Value(Pad2(Text(n))) == n
  {
    TextLength(n);
    TextValue(n);
    PadValue(Text(n));
  }

  lemma Cancel4(a: string, b: string, c: string, d: string, e: string, f: string, g: string, h: string)
    requires a + b + c + d == e + f + g + h
    requires |a| == |e| && |b| == |f| && |c| == |g|
    ensures a == e && b == f && c == g && d == h
  {
    Cancel2(a + b + c, d, e + f + g, h);
    Cancel2(a + b, c, e + f, g);
    Cancel2(a, b, e, f);
  }

  lemma Cancel2(a: string, b: string, c: string, d: string)
    requires a + b == c + d && |a| == |c|
    ensures a == c && b == d
  {
    assert (a + b)[..|a|] == a && (c + d)[..|a|] == c && (a + b)[|a|..] == b && (c + d)[|a|..] == d;
  }

  lemma CounterText(c: nat, d: nat)
    requires Pad2(Text(c)) == Pad2(Text(d))
    ensures c == d
  {
    TextValue(c);
    TextValue(d);
    PadValue(Text(c));
    PadValue(Text(d));
  }

  lemma DateText(a: nat, b: nat)
    requires a < 100 && b < 100
    ensures |Pad2(Text(a))| == 2
    ensures Pad2(Text(a)) == Pad2(Text(b)) <==> a == b
  {
    TwoDigits(a);
    TwoDigits(b);
  }

  /** In whatever years, two readings give one number exactly when they fall on the same month and day, agree modulo
      100000 and meet the same counter. */
  lemma SameNumberIff(y: Year, s: nat, c: nat, z: Year, t: nat, d: nat)
    requires InYear(y, s) && InYear(z, t)
    ensures ReceiptNumber(y, s, c) == ReceiptNumber(z, t, d)
            <==> DateOf(y, s) == DateOf(z, t) && s % 100000 == t % 100000 && c == d
  {
    DateBounds(y, s);
    DateBounds(z, t);
    DateText(DateOf(y, s).0, DateOf(z, t).0);
    DateText(DateOf(y, s).1, DateOf(z, t).1);
    DateText(DateOf(z, t).0, DateOf(y, s).0);
    DateText(DateOf(z, t).1, DateOf(y, s).1);
    LastFiveIff(s, t);
    LastFiveIff(t, s);
    if ReceiptNumber(y, s, c) == ReceiptNumber(z, t, d) {
      Cancel4(Pad2(Text(DateOf(y, s).0)), Pad2(Text(DateOf(y, s).1)), Last5(Text(s)), Pad2(Text(c)),
              Pad2(Text(DateOf(z, t).0)), Pad2(Text(DateOf(z, t).1)), Last5(Text(t)), Pad2(Text(d)));
      CounterText(c, d);
    }
  }

  /** Within a year a number determines the second and the counter it was made from. */
  lemma ReceiptNumberInjective(y: Year, s: nat, c: nat, t: nat, d: nat)
    requires InYear(y, s) && InYear(y, t)
    requires ReceiptNumber(y, s, c) == ReceiptNumber(y, t, d)
    ensures s == t && c == d
  {
    SameNumberIff(y, s, c, y, t, d);
    MonthDayInjective(DayOf(y, s), DayOf(y, t), 1, MonthLengths(y.leap));
    SameSecond(y, s, t);
  }

  /** A day has fewer than 100000 seconds. */
  lemma SameSecond(y: Year, s: nat, t: nat)
    requires y.start <= s && y.start <= t && DayOf(y, s) == DayOf(y, t) && s % 100000 == t % 100000
    ensures s == t
  {
    var day := DayOf(y, s) * 86400;
    assert day <= s - y.start < day + 86400 && day <= t - y.start < day + 86400;
  }

  // ---------------------------------------------------------------- a later year

  /** The second of the day. */
  function Elapsed(y: Year, seconds: nat): nat {
    if seconds < y.start then 0 else (seconds - y.start) % 86400
  }

  /** The second on the same date of the next year, `later` seconds further into the day. */
  function NextYear(s: nat, later: int): int {
    s + 365 * 86400 + later
  }

  /** 365 days are 36000 seconds more than a multiple of 100000: a number issued in a common year that another one
      follows comes again in that year exactly when it was issued after ten in the morning or early enough in the
      day. */
  lemma NextYearRepeatsIff(y: Year, z: Year, s: nat, c: nat)
    requires InYear(y, s) && !y.leap && z == Year(y.start + 365 * 86400, false)
    ensures (exists t: nat :: InYear(z, t) && ReceiptNumber(z, t, c) == ReceiptNumber(y, s, c))
            <==> Elapsed(y, s) >= 36000 || Elapsed(y, s) < 22400
  {
    if Elapsed(y, s) >= 36000 {
      SameDate(y, z, s, -36000);
      SameNumberIff(z, NextYear(s, -36000), c, y, s, c);
    } else if Elapsed(y, s) < 22400 {
      SameDate(y, z, s, 64000);
      SameNumberIff(z, NextYear(s, 64000), c, y, s, c);
    }
    if t: nat :| InYear(z, t) && ReceiptNumber(z, t, c) == ReceiptNumber(y, s, c) {
      SameNumberIff(z, t, c, y, s, c);
      MonthDayInjective(DayOf(z, t), DayOf(y, s), 1, MonthLengths(false));
      Shifted(y, z, s, t);
    }
  }

  lemma SameDate(y: Year, z: Year, s: nat, later: int)
    requires InYear(y, s) && !y.leap && z == Year(y.start + 365 * 86400, false)
    requires 0 <= Elapsed(y, s) + later < 86400 && (later == -36000 || later == 64000)
    ensures NextYear(s, later) >= 0 && InYear(z, NextYear(s, later)) && DateOf(z, NextYear(s, later)) == DateOf(y, s)
    ensures NextYear(s, later) % 100000 == s % 100000
  {
    assert NextYear(s, later) - z.start == s - y.start + later;
    SameDay(s - y.start, later);
  }

  lemma SameDay(elapsed: nat, later: int)
    requires 0 <= elapsed % 86400 + later < 86400
    ensures (elapsed + later) / 86400 == elapsed / 86400
  {
    var day := elapsed / 86400 * 86400;
    assert day <= elapsed + later < day + 86400;
  }

  /** Equal remainders on the same date leave two shifts only. */
  lemma Shifted(y: Year, z: Year, s: nat, t: nat)
    requires y.start <= s && z.start == y.start + 365 * 86400 && z.start <= t && DayOf(z, t) == DayOf(y, s)
    requires s % 100000 == t % 100000
    ensures Elapsed(y, s) >= 36000 || Elapsed(y, s) < 22400
  {
    var a, b := Elapsed(y, s), Elapsed(z, t);
    assert t - s == 365 * 86400 + b - a;
    var q := t / 100000 - s / 100000;
    assert t - s == 100000 * q;
  }

  // ---------------------------------------------------------------- a run of one process

  /** The counter after the readings r: how many times in a row the last one has been read. */
  function Counter(r: seq<nat>): nat {
    if r == [] then 0
    else if |r| > 1 && r[|r| - 2] == r[|r| - 1] then Counter(r[..|r| - 1]) + 1
    else 1
  }

  /** The number issued for reading k of the run r. */
  function Issued(y: Year, r: seq<nat>, k: nat): string
    requires k < |r|
  {
    ReceiptNumber(y, r[k], Counter(r[..k + 1]))
  }

  ghost predicate AllInYear(y: Year, r: seq<nat>) {
    forall k | 0 <= k < |r| :: InYear(y, r[k])
  }

  ghost predicate AllDistinct(y: Year, r: seq<nat>) {
    forall i, k | 0 <= i < k < |r| :: Issued(y, r, i) != Issued(y, r, k)
  }

  /** No second is read again once another has been read. */
  ghost predicate NeverReturns(r: seq<nat>) {
    forall i, j, k | 0 <= i < j < k < |r| && r[i] == r[k] :: r[j] == r[i]
  }

  ghost predicate NonDecreasing(r: seq<nat>) {
    forall i, j | 0 <= i < j < |r| :: r[i] <= r[j]
  }

  /** Over a stretch of equal readings the counter grows. */
  lemma {:induction false} CounterGrows(r: seq<nat>, i: nat, k: nat)
    requires i < k < |r| && forall j | i <= j <= k :: r[j] == r[i]
    ensures Counter(r[..i + 1]) < Counter(r[..k + 1])
  {
    assert r[..k + 1][..k] == r[..k];
    assert Counter(r[..k + 1]) == Counter(r[..k]) + 1;
    if i < k - 1 { CounterGrows(r, i, k - 1); }
  }

  /** The stretch of equal readings that ends at k starts with counter 1. */
  lemma {:induction false} StretchStart(r: seq<nat>, k: nat) returns (i: nat)
    requires k < |r|
    ensures i <= k && (forall j | i <= j <= k :: r[j] == r[k]) && Counter(r[..i + 1]) == 1
  {
    i := k;
    if k > 0 && r[k - 1] == r[k] { i := StretchStart(r, k - 1); }
  }

  lemma NeverReturnsDistinct(y: Year, r: seq<nat>, i: nat, k: nat)
    requires AllInYear(y, r) && NeverReturns(r) && i < k < |r|
    ensures Issued(y, r, i) != Issued(y, r, k)
  {
    if Issued(y, r, i) == Issued(y, r, k) {
      ReceiptNumberInjective(y, r[i], Counter(r[..i + 1]), r[k], Counter(r[..k + 1]));
      CounterGrows(r, i, k);
    }
  }

  lemma ReturnRepeats(y: Year, r: seq<nat>, i: nat, j: nat, k: nat)
    requires i < j < k < |r| && r[i] == r[k] && r[j] != r[i]
    ensures !AllDistinct(y, r)
  {
    var a := StretchStart(r, i);
    var b := StretchStart(r, k);
    assert b > j;
    assert Issued(y, r, a) == Issued(y, r, b);
  }

  /** Within a year the numbers of a process are distinct exactly when its clock never comes back to a second it has
      left. */
  lemma RunDistinctIff(y: Year, r: seq<nat>)
    requires AllInYear(y, r)
    ensures AllDistinct(y, r) <==> NeverReturns(r)
  {
    if NeverReturns(r) {
      forall i, k | 0 <= i < k < |r| ensures Issued(y, r, i) != Issued(y, r, k) {
        NeverReturnsDistinct(y, r, i, k);
      }
    } else {
      var i, j, k :| 0 <= i < j < k < |r| && r[i] == r[k] && r[j] != r[i];
      ReturnRepeats(y, r, i, j, k);
    }
  }

  /** A clock that never steps back issues distinct numbers all year. */
  lemma SteadyClockNeverRepeats(y: Year, r: seq<nat>)
    requires AllInYear(y, r) && NonDecreasing(r)
    ensures AllDistinct(y, r)
  {
    RunDistinctIff(y, r);
  }

  /** One second back is enough: the third number repeats the first. */
  lemma BackwardClockRepeats(y: Year, t: nat)
    requires InYear(y, t) && InYear(y, t + 1)
    ensures var r := [t, t + 1, t]; Issued(y, r, 0) == Issued(y, r, 2)
  {
    var r := [t, t + 1, t];
    assert r[..1] == [t] && r[..2] == [t, t + 1] && r[..3] == r;
  }

  // ---------------------------------------------------------------- creating receipts

  datatype Request = Request(storeId: int, branchId: int)  // 0 when absent: both are tested for truthiness only

  datatype Row = Row(storeId: Option<int>, branchId: int, receiptNumber: string)

  /** The branch of one receipt, or the error thrown for it. `stores` holds the branch of each store that was found. */
  function BranchFor(request: Request, stores: map<int, int>): Result<int, string> {
    if request.storeId == 0 then Ok(request.branchId)
    else if request.storeId !in stores then Err("Store not found")
    else if request.branchId != 0 && stores[request.storeId] != request.branchId then Err("wrong branch")
    else if stores[request.storeId] == 0 then Ok(request.branchId)
    else Ok(stores[request.storeId])
  }

  /** The stretch of a request list before its first bad receipt. */
  function GoodPrefix(requests: seq<Request>, stores: map<int, int>): nat {
    if requests == [] || BranchFor(requests[0], stores).Err? then 0 else 1 + GoodPrefix(requests[1..], stores)
  }

  lemma {:induction false} GoodPrefixAt(requests: seq<Request>, stores: map<int, int>, i: nat)
    requires i <= |requests| && forall j | 0 <= j < i :: BranchFor(requests[j], stores).Ok?
    requires i == |requests| || BranchFor(requests[i], stores).Err?
    ensures GoodPrefix(requests, stores) == i
  {
    if i > 0 { GoodPrefixAt(requests[1..], stores, i - 1); }
  }

  function RowError(request: Request, stores: map<int, int>): Result<seq<Row>, string> {
    match BranchFor(request, stores)
    case Ok(_) => Ok([])
    case Err(error) => Err(error)
  }

  lemma LastCounter(before: seq<nat>, seconds: nat)
    ensures var run := before + [seconds];
            && Counter(run) == (if before != [] && seconds == before[|before| - 1] then Counter(before) + 1 else 1)
            && run[..|before| + 1] == run && run[|before|] == seconds
  {
    var run := before + [seconds];
    assert run[..|run| - 1] == before;
  }

  class ClientReceiptController {
    var counter: nat
    var lastSecond: nat
    ghost var history: seq<nat>  // every reading of the clock so far

    ghost predicate Valid() reads this {
      counter == Counter(history) && lastSecond == if history == [] then 0 else history[|history| - 1]
    }

    constructor ()
      ensures Valid() && history == []
    {
      counter, lastSecond, history := 0, 0, [];
    }

    method GenerateOrderId(year: Year, seconds: nat) returns (id: string)
      requires Valid()
      modifies this
      ensures Valid() && history == old(history) + [seconds]
      ensures id == Issued(year, history, |history| - 1)
      ensures lastSecond == seconds
      ensures counter == if old(history) != [] && seconds == old(lastSecond) then old(counter) + 1 else 1
      ensures id == ReceiptNumber(year, seconds, counter)
    {
      LastCounter(history, seconds);
      if seconds != lastSecond {
        counter := 0;
        lastSecond := seconds;
      }
      counter := counter + 1;
      history := history + [seconds];
      var (month, day) := DateOf(year, seconds);
      id := Pad2(Text(month)) + Pad2(Text(day)) + Last5(Text(seconds)) + Pad2(Text(counter));
    }

    /** One pass is enough, because no number of the run comes twice. */
    method FastUniqueId(year: Year, seconds: nat, usedIds: set<string>, ghost numbers: seq<string>) returns (id: string)
      requires Valid() && |history| < |numbers| && Distinct(numbers) && EarlierOnly(numbers, |history|, usedIds)
      requires numbers[|history|] == Issued(year, history + [seconds], |history|)
      modifies this
      ensures Valid() && history == old(history) + [seconds]
      ensures id == numbers[|old(history)|] && id !in usedIds
    {
      id := "";
      var again := true;
      while again
        invariant Valid() && history == if again then old(history) else old(history) + [seconds]
        invariant !again ==> id == numbers[|old(history)|] && id !in usedIds
        decreases again
      {
        id := GenerateOrderId(year, seconds);
        again := id in usedIds;
      }
    }

    /** One turn of the loop over the receipts. */
    method AddRow(year: Year, requests: seq<Request>, stores: map<int, int>, seconds: nat, used: set<string>,
                  rows: seq<Row>,
                  branch: int, ghost numbers: seq<string>, ghost start: nat)
      returns (usedIds: set<string>, extended: seq<Row>)
      requires Valid() && Distinct(numbers) && |history| == start + |rows| < |numbers|
      requires numbers[|history|] == Issued(year, history + [seconds], |history|)
      requires |rows| < |requests| && BranchFor(requests[|rows|], stores) == Ok(branch)
      requires RowsFor(requests, stores, numbers, start, rows) && EarlierOnly(numbers, |history|, used)
      modifies this
      ensures Valid() && history == old(history) + [seconds]
      ensures |extended| == |rows| + 1 && RowsFor(requests, stores, numbers, start, extended)
      ensures EarlierOnly(numbers, |history|, usedIds)
    {
      var id := FastUniqueId(year, seconds, used, numbers);
      var row := RowOf(requests[|rows|], branch, id);
      RowStep(requests, stores, numbers, start, rows, used, row, id);
      usedIds := used + {id};
      extended := rows + [row];
    }

    /** The rows of a request, up to its first bad receipt. `readings` is what the clock shows at the successive calls
        of GenerateOrderId. */
    method CreateReceipts(year: Year, requests: seq<Request>, stores: map<int, int>, readings: seq<nat>)
      returns (result: Result<seq<Row>, string>)
      requires Valid() && |requests| == |readings|
      requires AllInYear(year, history + readings) && NeverReturns(history + readings)
      modifies this
      ensures Valid()
      ensures var good := GoodPrefix(requests, stores);
              good <= |requests| && history == old(history) + readings[..good]
              && (result.Ok? <==> good == |requests|)
              && (good < |requests| ==> result == RowError(requests[good], stores))
      ensures result.Ok? ==>
                |result.value| == |requests|
                && RowsFor(requests, stores, Numbers(year, history), |old(history)|, result.value)
      ensures result.Ok? ==> DistinctNumbers(result.value)
    {
      ghost var before, run := history, history + readings;
      ghost var numbers := Numbers(year, run);
      NumbersDistinct(year, run);
      var usedIds: set<string> := {};
      var rows: seq<Row> := [];
      var next := 0;
      while next < |requests|
        invariant next <= |requests| && Valid() && history == before + readings[..next]
        invariant |rows| == next && RowsFor(requests, stores, numbers, |before|, rows)
        invariant EarlierOnly(numbers, |before| + next, usedIds)
      {
        var branch := BranchFor(requests[next], stores);
        if branch.Err? {
          GoodPrefixOfRows(requests, stores, numbers, |before|, rows);
          return Err(branch.error);
        }
        RunsOn(before, readings, next);
        IssuedInPrefix(year, history + [readings[next]], run, |history|);
        usedIds, rows := AddRow(year, requests, stores, readings[next], usedIds, rows, branch.value, numbers, |before|);
        next := next + 1;
      }
      GoodPrefixOfRows(requests, stores, numbers, |before|, rows);
      assert readings[..next] == readings;
      RowsDiffer(requests, stores, numbers, |before|, rows);
      result := Ok(rows);
    }
  }

  function RowOf(request: Request, branch: int, id: string): Row {
    Row(if request.storeId == 0 then None else Some(request.storeId), branch, id)
  }

  /** The numbers of all the readings of a run. */
  ghost function Numbers(y: Year, run: seq<nat>): (r: seq<string>)
    ensures |r| == |run| && forall k | 0 <= k < |r| :: r[k] == Issued(y, run, k)
  {
    seq(|run|, k requires 0 <= k < |run| => Issued(y, run, k))
  }

  lemma NumbersDistinct(y: Year, run: seq<nat>)
    requires AllInYear(y, run) && NeverReturns(run)
    ensures Distinct(Numbers(y, run))
  {
    RunDistinctIff(y, run);
  }

  /** The row has the request's store, if it names one, the branch that was found, and the number. */
  ghost predicate RowFits(request: Request, branch: Result<int, string>, number: string, row: Row) {
    && row.storeId == (if request.storeId == 0 then None else Some(request.storeId))
    && branch == Ok(row.branchId) && row.receiptNumber == number
  }

  /** Row i carries the branch found for request i and the number of reading `start` + i of the run. */
  ghost predicate RowsFor(requests: seq<Request>, stores: map<int, int>, numbers: seq<string>, start: nat,
                          rows: seq<Row>) {
    |rows| <= |requests| && start + |rows| <= |numbers|
    && forall i | 0 <= i < |rows| ::
         RowFits(requests[i], BranchFor(requests[i], stores), numbers[start + i], rows[i])
  }

  lemma GoodPrefixOfRows(requests: seq<Request>, stores: map<int, int>, numbers: seq<string>, start: nat,
                         rows: seq<Row>)
    requires RowsFor(requests, stores, numbers, start, rows)
    requires |rows| == |requests| || BranchFor(requests[|rows|], stores).Err?
    ensures GoodPrefix(requests, stores) == |rows|
  {
    GoodPrefixAt(requests, stores, |rows|);
  }

  ghost predicate EarlierOnly(numbers: seq<string>, n: nat, ids: set<string>) {
    n <= |numbers| && forall id | id in ids :: id in numbers[..n]
  }

  lemma RowStep(requests: seq<Request>, stores: map<int, int>, numbers: seq<string>, start: nat, rows: seq<Row>,
                ids: set<string>, row: Row, id: string)
    requires RowsFor(requests, stores, numbers, start, rows) && EarlierOnly(numbers, start + |rows|, ids)
    requires |rows| < |requests| && start + |rows| < |numbers| && id == numbers[start + |rows|]
    requires BranchFor(requests[|rows|], stores).Ok?
    requires row == RowOf(requests[|rows|], BranchFor(requests[|rows|], stores).value, id)
    ensures RowsFor(requests, stores, numbers, start, rows + [row])
    ensures EarlierOnly(numbers, start + |rows| + 1, ids + {id})
  {
    assert numbers[..start + |rows| + 1] == numbers[..start + |rows|] + [numbers[start + |rows|]];
  }

  ghost predicate DistinctNumbers(rows: seq<Row>) {
    forall i, k | 0 <= i < k < |rows| :: rows[i].receiptNumber != rows[k].receiptNumber
  }

  lemma RowsDiffer(requests: seq<Request>, stores: map<int, int>, numbers: seq<string>, start: nat, rows: seq<Row>)
    requires RowsFor(requests, stores, numbers, start, rows) && Distinct(numbers)
    ensures DistinctNumbers(rows)
  {
  }

  lemma RunsOn(before: seq<nat>, readings: seq<nat>, next: nat)
    requires next < |readings|
    ensures before + readings[..next] + [readings[next]] == before + readings[..next + 1] <= before + readings
  {
  }

  lemma IssuedInPrefix(y: Year, a: seq<nat>, b: seq<nat>, k: nat)
    requires k < |a| && a <= b
    ensures Issued(y, a, k) == Issued(y, b, k)
  {
    assert a[..k + 1] == b[..k + 1];
  }

  // ---------------------------------------------------------------- in digits and days

  /** The days of the first months of a year. */
  function DaysBefore(leap: bool, months: nat): nat
    requires months <= 12
  {
    Days([31, if leap then 29 else 28, 31, 30, 31, 30, 31, 31, 30, 31, 30, 31][..months])
  }

  lemma {:induction false} MonthDayColumns(day: nat, month: nat, lengths: seq<nat>)
    requires day < Days(lengths)
    ensures var (m, d) := MonthDay(day, month, lengths);
            && month <= m < month + |lengths| && 1 <= d <= lengths[m - month]
            && day == Days(lengths[..m - month]) + d - 1
    decreases |lengths|
  {
    if day < lengths[0] {
      assert lengths[..0] == [];
    } else {
      MonthDayColumns(day - lengths[0], month + 1, lengths[1..]);
      var m := MonthDay(day, month, lengths).0;
      assert lengths[..m - month] == [lengths[0]] + lengths[1..][..m - month - 1];
    }
  }

  lemma DaysBeforeNext(leap: bool, m: nat)
    requires 1 <= m <= 12
    ensures DaysBefore(leap, m - 1) == Days(MonthLengths(leap)[..m - 1])
    ensures DaysBefore(leap, m) == DaysBefore(leap, m - 1) + MonthLengths(leap)[m - 1]
  {
    var lengths := MonthLengths(leap);
    assert lengths[..m] == lengths[..m - 1] + [lengths[m - 1]];
    DaysAppend(lengths[..m - 1], [lengths[m - 1]]);
  }

  /** The date falls in the month whose days, with those of the months before it, count up to the day. */
  lemma DateColumns(y: Year, seconds: nat)
    requires InYear(y, seconds)
    ensures var (month, day) := DateOf(y, seconds);
            && 1 <= month <= 12 && 1 <= day <= 31
            && (seconds - y.start) / 86400 == DaysBefore(y.leap, month - 1) + day - 1
            && DaysBefore(y.leap, month - 1) + day <= DaysBefore(y.leap, month)
  {
    YearDays(y.leap);
    DateBounds(y, seconds);
    MonthDayColumns(DayOf(y, seconds), 1, MonthLengths(y.leap));
    DaysBeforeNext(y.leap, DateOf(y, seconds).0);
  }

  /** A number reads: two digits of the month, two of the day, the last five of the second, and the counter with at
      least two digits. */
  lemma NumberColumns(y: Year, seconds: nat, counter: nat)
    requires InYear(y, seconds)
    ensures var n := ReceiptNumber(y, seconds, counter);
            && |n| >= 11
            && Value(n[..2]) == DateOf(y, seconds).0 && Value(n[2..4]) == DateOf(y, seconds).1
            && Value(n[4..9]) == seconds % 100000 && Value(n[9..]) == counter
  {
    var n := ReceiptNumber(y, seconds, counter);
    var (month, day) := DateOf(y, seconds);
    DateBounds(y, seconds);
    TwoDigits(month);
    TwoDigits(day);
    LastFiveValue(seconds);
    TextValue(counter);
    PadValue(Text(counter));
    assert n[..2] == Pad2(Text(month)) && n[2..4] == Pad2(Text(day));
    assert n[4..9] == Last5(Text(seconds)) && n[9..] == Pad2(Text(counter));
  }

  lemma LastFiveValue(n: nat)
    requires n >= 10000
    ensures |Last5(Text(n))| == 5 && Value(Last5(Text(n))) == n % 100000
  {
    LastFiveOf(n);
    FiveDigits(n);
    FiveValue(n / 10000 % 10, n / 1000 % 10, n / 100 % 10, n / 10 % 10, n % 10);
  }

  lemma NextDigit(s: string, d: nat)
    requires d < 10
    ensures Value(s + [Digit(d)]) == Value(s) * 10 + d
  {
    DigitValueInverse(d);
    assert (s + [Digit(d)])[..|s|] == s;
  }

  lemma FiveValue(a: nat, b: nat, c: nat, d: nat, e: nat)
    requires a < 10 && b < 10 && c < 10 && d < 10 && e < 10
    ensures Value([Digit(a), Digit(b), Digit(c), Digit(d), Digit(e)]) == a * 10000 + b * 1000 + c * 100 + d * 10 + e
  {
    NextDigit([], a);
    NextDigit([Digit(a)], b);
    NextDigit([Digit(a), Digit(b)], c);
    NextDigit([Digit(a), Digit(b), Digit(c)], d);
    NextDigit([Digit(a), Digit(b), Digit(c), Digit(d)], e);
    assert [] + [Digit(a)] == [Digit(a)];
    assert [Digit(a)] + [Digit(b)] == [Digit(a), Digit(b)];
    assert [Digit(a), Digit(b)] + [Digit(c)] == [Digit(a), Digit(b), Digit(c)];
    assert [Digit(a), Digit(b), Digit(c)] + [Digit(d)] == [Digit(a), Digit(b), Digit(c), Digit(d)];
    assert [Digit(a), Digit(b), Digit(c), Digit(d)] + [Digit(e)] == [Digit(a), Digit(b), Digit(c), Digit(d), Digit(e)];
  }

  /** A receipt of a store is for the store's branch, unless the store is missing or another branch is named; without a
      store, or with one that has no branch, it is for the named one. */
  lemma BranchColumns(request: Request, stores: map<int, int>)
    ensures BranchFor(request, stores)
         == if request.storeId == 0 then Ok(request.branchId)
            else if request.storeId !in stores then Err("Store not found")
            else if request.branchId != 0 && request.branchId != stores[request.storeId] then Err("wrong branch")
            else Ok(if stores[request.storeId] != 0 then stores[request.storeId] else request.branchId)
  {
  }
}
