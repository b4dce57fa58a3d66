/** The names given to fresh panes. */
module TerminalNames {

  function Digit(d: nat): char
    requires d < 10
  {
    '0' + d as char
  }

  function Decimal(n: nat): string {
    if n < 10 then [Digit(n)] else Decimal(n / 10) + [Digit(n % 10)]
  }

  /** The number a string of digits denotes. */
  ghost function Denoted(s: string): int {
    if s == "" then 0 else 10 * Denoted(s[..|s| - 1]) + (s[|s| - 1] as int - '0' as int)
  }

  function PaneName(n: nat): string {
    "p" + Decimal(n)
  }

  lemma {:induction false} DecimalDenotes(n: nat)
    ensures Denoted(Decimal(n)) == n
  {
    if n >= 10 {
      DecimalDenotes(n / 10);
      assert Decimal(n)[..|Decimal(n)| - 1] == Decimal(n / 10);
    } else {
      assert Decimal(n)[..0] == "";
    }
  }

  lemma NamesAreNotRecycled(m: nat, n: nat)
    requires m != n
    ensures PaneName(m) != PaneName(n)
  {
    DecimalDenotes(m);
    DecimalDenotes(n);
    assert PaneName(m)[1..] == Decimal(m) && PaneName(n)[1..] == Decimal(n);
  }

  /** A fresh name is a `p` and the number in decimal digits, so never the name of a main pane. */
  lemma NameTellsNumber(n: nat)
    ensures |PaneName(n)| >= 2 && PaneName(n)[0] == 'p' && PaneName(n) != "main"
    ensures forall c | c in PaneName(n)[1..] :: '0' <= c <= '9'
    ensures Denoted(PaneName(n)[1..]) == n
  {
    DecimalDenotes(n);
    DecimalDigits(n);
    assert PaneName(n)[1..] == Decimal(n);
  }

  lemma {:induction false} DecimalDigits(n: nat)
    ensures Decimal(n) != "" && forall c | c in Decimal(n) :: '0' <= c <= '9'
  {
    if n >= 10 {
      DecimalDigits(n / 10);
    }
  }
}
