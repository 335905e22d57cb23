/** str(n) and int(s) for natural numbers in decimal. */
module Decimals {
  import opened Options

  function Digit(d: nat): char
    requires d < 10
  {
    '0' + d as char
  }

  function IsDigit(c: char): bool { '0' <= c <= '9' }

  function Digits(n: nat): string {
    if n < 10 then [Digit(n)] else Digits(n / 10) + [Digit(n % 10)]
  }

  /** None when the text is not a decimal number. */
  function Parse(s: string): Option<nat> {
    if s == [] then None
    else if !IsDigit(s[|s| - 1]) then None
    else
      var d := (s[|s| - 1] - '0') as nat;
      if |s| == 1 then Some(d)
      else match Parse(s[..|s| - 1])
           case Some(n) => Some(10 * n + d)
           case None => None
  }

  lemma {:induction false} ParseDigits(n: nat)
    ensures Digits(n) != []
    ensures Parse(Digits(n)) == Some(n)
    ensures forall c | c in Digits(n) :: IsDigit(c)
  {
    if n >= 10 {
      ParseDigits(n / 10);
      assert Digits(n)[..|Digits(n)| - 1] == Digits(n / 10);
    }
  }

  lemma {:induction false} DigitsInjective(m: nat, n: nat)
    requires Digits(m) == Digits(n)
    ensures m == n
  {
    ParseDigits(m);
    ParseDigits(n);
  }
}
