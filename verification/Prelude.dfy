/** Types shared by every module, and the decimal text of an identifier. */
module Prelude {

  datatype Option<+T> = None | Some(value: T)

  datatype Result<+T, +E> = Ok(value: T) | Err(error: E)

  function Max(a: int, b: int): (r: int)
    ensures r >= a && r >= b && (r == a || r == b)
  {
    if a >= b then a else b
  }

  function Min(a: int, b: int): (r: int)
    ensures r <= a && r <= b && (r == a || r == b)
  {
    if a <= b then a else b
  }

  function Digit(d: nat): char
    requires d < 10
  {
    ('0' as int + d) as char
  }

  /** JavaScript `String(n)` for a non-negative integer. */
  function DecimalText(n: nat): (text: string)
    ensures text != []
    ensures n >= 10 ==> |text| >= 2
  {
    if n < 10 then [Digit(n)] else DecimalText(n / 10) + [Digit(n % 10)]
  }

  /** Two identifiers never share a text, so a textual source key names one row. */
  lemma {:induction false} DecimalTextInjective(m: nat, n: nat)
    requires DecimalText(m) == DecimalText(n)
    ensures m == n
  {
    var a, b := DecimalText(m), DecimalText(n);
    assert a[|a| - 1] == Digit(m % 10) && b[|b| - 1] == Digit(n % 10);
    assert m % 10 == n % 10;
    if m >= 10 && n >= 10 {
      assert a[..|a| - 1] == DecimalText(m / 10) && b[..|b| - 1] == DecimalText(n / 10);
      DecimalTextInjective(m / 10, n / 10);
    }
  }
}
