/** Invoice numbers: a month prefix and a sequence number read back from the last invoice.

    The last invoice is the largest number *as text*.  That is the right one for 99999 invoices in a
    month; from then on the largest text stays the 99999th, so the 100000th number is offered again
    and the unique column refuses it. */
module InvoiceNumbers {
  import opened Wrappers
  import opened Decimals

  const SEQUENCE_WIDTH := 5
  const MONTHLY_CAPACITY := 100000

  // The month of an invoice as `%Y%m` prints it.
  predicate IsMonth(m: string) { |m| == 6 && AllDigits(m) }

  function Prefix(month: string): string { "INV-" + month }

  function Sequence(n: nat): string { ZFill(Str(n), SEQUENCE_WIDTH) }

  function Number(month: string, n: nat): string {
    Prefix(month) + "-" + Sequence(n)
  }

  predicate StartsWith(s: string, p: string) { |p| <= |s| && s[..|p|] == p }

  function InMonth(numbers: seq<string>, month: string): seq<string> {
    if numbers == [] then []
    else
      var last, rest := numbers[|numbers| - 1], InMonth(numbers[..|numbers| - 1], month);
      if StartsWith(last, Prefix(month)) then rest + [last] else rest
  }

  // order_by("-number").first() over the rows.
  function Greatest(rows: seq<string>): string
    requires rows != []
  {
    if |rows| == 1 then rows[0]
    else
      var best, last := Greatest(rows[..|rows| - 1]), rows[|rows| - 1];
      if Less(best, last) then last else best
  }

  function AfterLastDash(s: string): string {
    if s == "" || s[|s| - 1] == '-' then "" else AfterLastDash(s[..|s| - 1]) + [s[|s| - 1]]
  }

  function NextNumber(numbers: seq<string>, month: string): string {
    var rows := InMonth(numbers, month);
    Number(month, if rows == [] then 1 else Parse(AfterLastDash(Greatest(rows))) + 1)
  }

  datatype IntegrityError = DuplicateNumber(number: string)

  // The insert of an invoice row; the number column is unique.
  function Issue(numbers: seq<string>, month: string): Result<seq<string>, IntegrityError> {
    var next := NextNumber(numbers, month);
    if next in numbers then Err(DuplicateNumber(next)) else Ok(numbers + [next])
  }

  // ---- what a number says ----------------------------------------------------------------------

  lemma {:induction false} NoDashInDigits(p: string, d: string)
    requires AllDigits(d)
    ensures AfterLastDash(p + "-" + d) == d
  {
    var s := p + "-" + d;
    if d == "" {
      assert s[|s| - 1] == '-';
    } else {
      assert s[..|s| - 1] == p + "-" + d[..|d| - 1];
      NoDashInDigits(p, d[..|d| - 1]);
      assert d == d[..|d| - 1] + [d[|d| - 1]];
    }
  }

  // Splitting a number at its dashes gives back the sequence it was printed from.
  lemma SequenceReadsBack(month: string, n: nat)
    ensures Parse(AfterLastDash(Number(month, n))) == n
  {
    PaddedRoundTrip(n, SEQUENCE_WIDTH);
    NoDashInDigits(Prefix(month), Sequence(n));
  }

  lemma NumbersDiffer(month: string, i: nat, j: nat)
    ensures Number(month, i) == Number(month, j) ==> i == j
  {
    SequenceReadsBack(month, i);
    SequenceReadsBack(month, j);
  }

  // The order of the texts follows the order of the numbers as far as 99999 ...
  lemma TextOrderUpTo99999(month: string, i: nat, j: nat)
    requires i <= 99999 && j <= 99999
    ensures Less(Number(month, i), Number(month, j)) <==> i < j
  {
    PaddedRoundTrip(i, SEQUENCE_WIDTH);
    PaddedRoundTrip(j, SEQUENCE_WIDTH);
    SequenceWidth(i);
    SequenceWidth(j);
    SameWidthOrder(Sequence(i), Sequence(j));
    LessAfterPrefix(Prefix(month) + "-", Sequence(i), Sequence(j));
  }

  lemma SequenceWidth(n: nat)
    requires n <= 99999
    ensures |Sequence(n)| == SEQUENCE_WIDTH
  {
    StrOfFive(n);
    StrParses(n);
    ZFillParses(Str(n), SEQUENCE_WIDTH);
  }

  // ... and breaks right after it.
  lemma TextOrderBreaksAt100000(month: string)
    ensures !Less(Number(month, 99999), Number(month, 100000))
  {
    Numeral99999();
    Numeral100000();
    LessAfterPrefix(Prefix(month) + "-", "99999", "100000");
  }

  lemma Numeral99999()
    ensures Sequence(99999) == "99999"
  {
    assert Str(9) == "9";
    assert Str(99) == Str(9) + "9";
    assert Str(999) == Str(99) + "9";
    assert Str(9999) == Str(999) + "9";
    assert Str(99999) == Str(9999) + "9";
  }

  lemma Numeral100000()
    ensures Sequence(100000) == "100000"
  {
    assert Str(1) == "1";
    assert Str(10) == Str(1) + "0";
    assert Str(100) == Str(10) + "0";
    assert Str(1000) == Str(100) + "0";
    assert Str(10000) == Str(1000) + "0";
    assert Str(100000) == Str(10000) + "0";
  }

  // ---- runs ------------------------------------------------------------------------------------

  function FirstNumbers(month: string, n: nat): (rows: seq<string>)
    ensures |rows| == n
  {
    if n == 0 then [] else FirstNumbers(month, n - 1) + [Number(month, n)]
  }

  lemma {:induction false} FirstNumbersAt(month: string, n: nat, k: nat)
    requires k < n
    ensures FirstNumbers(month, n)[k] == Number(month, k + 1)
  {
    if k < n - 1 { FirstNumbersAt(month, n - 1, k); }
  }

  lemma {:induction false} GreatestOfFirst(month: string, n: nat)
    requires 1 <= n <= MONTHLY_CAPACITY
    ensures Greatest(FirstNumbers(month, n)) == Number(month, if n == MONTHLY_CAPACITY then 99999 else n)
  {
    if n > 1 {
      GreatestOfFirst(month, n - 1);
      if n <= 99999 { TextOrderUpTo99999(month, n - 1, n); } else { TextOrderBreaksAt100000(month); }
      assert FirstNumbers(month, n)[..n - 1] == FirstNumbers(month, n - 1);
    }
  }

  // The next number continues the sequence exactly while fewer than 100000 have been issued; the
  // one after that repeats the last.
  lemma NextContinues(numbers: seq<string>, month: string, n: nat)
    requires n <= MONTHLY_CAPACITY && InMonth(numbers, month) == FirstNumbers(month, n)
    ensures NextNumber(numbers, month) == Number(month, if n < MONTHLY_CAPACITY then n + 1 else n)
  {
    if n > 0 {
      GreatestOfFirst(month, n);
      SequenceReadsBack(month, if n == MONTHLY_CAPACITY then 99999 else n);
    }
  }

  lemma {:induction false} FilterKeepsNumber(numbers: seq<string>, month: string, s: string)
    requires StartsWith(s, Prefix(month))
    ensures s in numbers <==> s in InMonth(numbers, month)
  {
    if numbers != [] {
      var last := numbers[|numbers| - 1];
      FilterKeepsNumber(numbers[..|numbers| - 1], month, s);
      assert numbers == numbers[..|numbers| - 1] + [last];
    }
  }

  lemma NumberStartsWithItsPrefix(month: string, other: string, n: nat)
    requires IsMonth(month) && IsMonth(other)
    ensures StartsWith(Number(month, n), Prefix(other)) <==> month == other
  {
    assert Number(month, n)[..10] == Prefix(month);
    assert month == Prefix(month)[4..] && other == Prefix(other)[4..];
  }

  lemma NumberIssuedOnce(numbers: seq<string>, month: string, n: nat)
    requires IsMonth(month) && n <= MONTHLY_CAPACITY && InMonth(numbers, month) == FirstNumbers(month, n)
    ensures NextNumber(numbers, month) in numbers <==> n == MONTHLY_CAPACITY
  {
    NextContinues(numbers, month, n);
    var next := NextNumber(numbers, month);
    NumberStartsWithItsPrefix(month, month, if n < MONTHLY_CAPACITY then n + 1 else n);
    FilterKeepsNumber(numbers, month, next);
    if n == MONTHLY_CAPACITY {
      FirstNumbersAt(month, n, n - 1);
    } else {
      forall k | 0 <= k < n ensures FirstNumbers(month, n)[k] != next {
        FirstNumbersAt(month, n, k);
        NumbersDiffer(month, k + 1, n + 1);
      }
    }
  }

  // The table after attempts to issue one invoice in each of these months, in order.
  function Table(attempts: seq<string>): seq<string> {
    if attempts == [] then []
    else
      var before := Table(attempts[..|attempts| - 1]);
      match Issue(before, attempts[|attempts| - 1])
      case Ok(after) => after
      case Err(_) => before
  }

  function Attempts(attempts: seq<string>, month: string): nat {
    if attempts == [] then 0
    else Attempts(attempts[..|attempts| - 1], month) + if attempts[|attempts| - 1] == month then 1 else 0
  }

  function Issued(attempts: nat): nat { if attempts < MONTHLY_CAPACITY then attempts else MONTHLY_CAPACITY }

  lemma InMonthOneMore(numbers: seq<string>, s: string, month: string)
    ensures InMonth(numbers + [s], month) == InMonth(numbers, month) + if StartsWith(s, Prefix(month)) then [s] else []
  {
    assert (numbers + [s])[..|numbers|] == numbers;
  }

  // In every run, whatever the months do in between, a month's invoices are numbered 1, 2, ... in
  // order without gap or repeat, up to the 100000th; every further attempt fails.
  lemma {:induction false} MonthIsNumberedWithoutGaps(attempts: seq<string>, month: string)
    requires IsMonth(month) && forall m | m in attempts :: IsMonth(m)
    ensures InMonth(Table(attempts), month) == FirstNumbers(month, Issued(Attempts(attempts, month)))
  {
    if attempts != [] {
      var init, m := attempts[..|attempts| - 1], attempts[|attempts| - 1];
      var before, n := Table(init), Issued(Attempts(init, m));
      MonthIsNumberedWithoutGaps(init, month);
      MonthIsNumberedWithoutGaps(init, m);
      NextContinues(before, m, n);
      NumberIssuedOnce(before, m, n);
      NumberStartsWithItsPrefix(m, month, if n < MONTHLY_CAPACITY then n + 1 else n);
      InMonthOneMore(before, NextNumber(before, m), month);
    }
  }

  // An attempt fails exactly when the month already holds 100000 invoices.
  lemma AttemptFailsWhenMonthIsFull(attempts: seq<string>, month: string)
    requires IsMonth(month) && forall m | m in attempts :: IsMonth(m)
    ensures Issue(Table(attempts), month).Err? <==> Attempts(attempts, month) >= MONTHLY_CAPACITY
  {
    MonthIsNumberedWithoutGaps(attempts, month);
    NumberIssuedOnce(Table(attempts), month, Issued(Attempts(attempts, month)));
  }
}
