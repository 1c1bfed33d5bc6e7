/** The name a card has in a report: different cards have different names
    (internal/accounting/accounting.go:155-174). */
module CardKeys {
  import opened Accounting

  /** The number some digits write. */
  function Number(s: string): int {
    if s == "" then 0 else 10 * Number(s[..|s| - 1]) + (s[|s| - 1] as int - '0' as int)
  }

  lemma {:induction false} DigitsRead(n: nat)
    ensures Number(Digits(n)) == n && Digits(n) != "" && Digits(n)[0] != '-' && ' ' !in Digits(n)
  {
    if n < 10 {
      assert Digits(n)[..0] == "";
    } else {
      DigitsRead(n / 10);
      assert Digits(n)[..|Digits(n)| - 1] == Digits(n / 10);
    }
  }

  /** The number a decimal writes. */
  function Value(s: string): int {
    if s != "" && s[0] == '-' then -Number(s[1..]) else Number(s)
  }

  lemma SignRead(digits: string)
    requires ' ' !in digits
    ensures Value("-" + digits) == -Number(digits) && ' ' !in "-" + digits
  {
    var s := "-" + digits;
    assert s[1..] == digits && s[0] == '-';
  }

  lemma DecimalReads(n: int)
    ensures Value(Decimal(n)) == n && ' ' !in Decimal(n)
  {
    if n < 0 {
      DigitsRead(-n);
      SignRead(Digits(-n));
    } else {
      DigitsRead(n);
    }
  }

  /** Text before the first space is the same in equal lines. */
  lemma FirstWord(a: string, b: string, x: string, y: string)
    requires ' ' !in a && ' ' !in b && a + " " + x == b + " " + y
    ensures a == b && x == y
  {
    var l, r := a + " " + x, b + " " + y;
    assert l[|a|] == ' ' && r[|b|] == ' ';
    assert forall k :: 0 <= k < |a| ==> l[k] == a[k] && l[k] != ' ';
    assert forall k :: 0 <= k < |b| ==> r[k] == b[k] && r[k] != ' ';
    assert l[..|a|] == a && r[..|b|] == b;
    assert l[|a| + 1..] == x && r[|b| + 1..] == y;
  }

  function CardKey(vendor: string, card: int, name: string): string {
    vendor + " " + Decimal(card) + " " + name
  }

  /** Two cards never share a row: vendor names have no space. */
  lemma CardKeyInjective(v: string, m: int, a: string, w: string, n: int, b: string)
    requires ' ' !in v && ' ' !in w && CardKey(v, m, a) == CardKey(w, n, b)
    ensures v == w && m == n && a == b
  {
    DecimalReads(m);
    DecimalReads(n);
    assert CardKey(v, m, a) == v + " " + (Decimal(m) + " " + a);
    assert CardKey(w, n, b) == w + " " + (Decimal(n) + " " + b);
    FirstWord(v, w, Decimal(m) + " " + a, Decimal(n) + " " + b);
    FirstWord(Decimal(m), Decimal(n), a, b);
  }
}
