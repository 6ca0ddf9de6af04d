/**
 The deduplication key of an imported transaction: the digest of
 `account|date|amount|description`.  Only the description may itself contain a bar.
 */
module ImportKeys {

  /** Printed dates and amounts contain no bar. */
  type Field = s: string | '|' !in s

  datatype ParsedRow = ParsedRow(date: Field, amount: Field, description: string)

  /** The digest, taken to be collision-free: distinct texts have distinct digests. */
  datatype Hash = Sha256(text: string)

  function Digit(d: nat): char
    requires d < 10
  {
    "0123456789"[d]
  }

  function Decimal(n: nat): (text: Field)
    ensures |text| >= 1
    ensures |text| == 1 <==> n < 10
  {
    if n < 10 then [Digit(n)] else Decimal(n / 10) + [Digit(n % 10)]
  }

  function KeyText(account: nat, row: ParsedRow): string {
    Decimal(account) + "|" + (row.date + "|" + (row.amount + "|" + row.description))
  }

  function ContentKey(account: nat, row: ParsedRow): Hash {
    Sha256(KeyText(account, row))
  }

  lemma DigitInjective(d: nat, e: nat)
    requires d < 10 && e < 10 && Digit(d) == Digit(e)
    ensures d == e
  {
  }

  lemma {:induction false} DecimalInjective(m: nat, n: nat)
    requires Decimal(m) == Decimal(n)
    ensures m == n
  {
    var s, t := Decimal(m), Decimal(n);
    assert s[|s| - 1] == Digit(m % 10) && t[|t| - 1] == Digit(n % 10);
    DigitInjective(m % 10, n % 10);
    if m >= 10 && n >= 10 {
      assert s[..|s| - 1] == Decimal(m / 10) && t[..|t| - 1] == Decimal(n / 10);
      DecimalInjective(m / 10, n / 10);
    }
  }

  /** Text up to the first bar can be read back, whatever follows it. */
  lemma SplitAtBar(a: Field, x: string, b: Field, y: string)
    requires a + "|" + x == b + "|" + y
    ensures a == b && x == y
  {
    var s, t := a + "|" + x, b + "|" + y;
    assert forall i :: 0 <= i < |a| ==> s[i] == a[i] && s[i] != '|';
    assert forall i :: 0 <= i < |b| ==> t[i] == b[i] && t[i] != '|';
    assert s[|a|] == '|' && t[|b|] == '|';
    assert |a| == |b|;
    assert a == s[..|a|] && b == t[..|b|];
    assert x == s[|a| + 1..] && y == t[|b| + 1..];
  }

  /** One key belongs to one account and one row, also when descriptions contain bars. */
  lemma KeyIdentifiesRow(account1: nat, row1: ParsedRow, account2: nat, row2: ParsedRow)
    ensures ContentKey(account1, row1) == ContentKey(account2, row2)
       <==> account1 == account2 && row1 == row2
  {
    if KeyText(account1, row1) == KeyText(account2, row2) {
      var r1, r2 := row1.amount + "|" + row1.description, row2.amount + "|" + row2.description;
      SplitAtBar(Decimal(account1), row1.date + "|" + r1, Decimal(account2), row2.date + "|" + r2);
      DecimalInjective(account1, account2);
      SplitAtBar(row1.date, r1, row2.date, r2);
      SplitAtBar(row1.amount, row1.description, row2.amount, row2.description);
    }
  }

  // ---------------------------------------------------------------- reading a key back

  /** The text up to the first bar. */
  function Head(s: string): string {
    if s == "" || s[0] == '|' then "" else [s[0]] + Head(s[1..])
  }

  /** The text after the first bar. */
  function Tail(s: string): string {
    if s == "" then "" else if s[0] == '|' then s[1..] else Tail(s[1..])
  }

  lemma {:induction false} HeadAndTail(a: Field, rest: string)
    ensures Head(a + "|" + rest) == a && Tail(a + "|" + rest) == rest
    decreases |a|
  {
    var s := a + "|" + rest;
    if a == "" {
      assert s == "|" + rest && s[1..] == rest;
    } else {
      assert s[1..] == a[1..] + "|" + rest;
      HeadAndTail(a[1..], rest);
    }
  }

  function DigitValue(c: char): int {
    c as int - '0' as int
  }

  /** The number that a text of digits denotes. */
  function Value(digits: string): int {
    if digits == "" then 0 else 10 * Value(digits[..|digits| - 1]) + DigitValue(digits[|digits| - 1])
  }

  lemma {:induction false} DecimalDenotes(n: nat)
    ensures Value(Decimal(n)) == n
  {
    var s := Decimal(n);
    assert DigitValue(Digit(n % 10)) == n % 10;
    if n < 10 {
      assert s == [Digit(n)] && s[..0] == "";
    } else {
      assert s[..|s| - 1] == Decimal(n / 10) && s[|s| - 1] == Digit(n % 10);
      DecimalDenotes(n / 10);
    }
  }

  /** The hashed text is the account id, the date, the amount and the description, in this order. */
  lemma KeyReadsBack(account: nat, row: ParsedRow)
    ensures var s := ContentKey(account, row).text;
      && Value(Head(s)) == account
      && Head(Tail(s)) == row.date
      && Head(Tail(Tail(s))) == row.amount
      && Tail(Tail(Tail(s))) == row.description
  {
    var rest2 := row.amount + "|" + row.description;
    var rest1 := row.date + "|" + rest2;
    assert ContentKey(account, row).text == Decimal(account) + "|" + rest1;
    HeadAndTail(Decimal(account), rest1);
    HeadAndTail(row.date, rest2);
    HeadAndTail(row.amount, row.description);
    DecimalDenotes(account);
  }
}
