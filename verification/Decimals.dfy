/** Numbers written in decimal digits, and read back. */
module Decimals {
  datatype Option<T> = None | Some(value: T)

  predicate Digits(text: string) {
    text != "" && forall i :: 0 <= i < |text| ==> '0' <= text[i] <= '9'
  }

  function Value(text: string): nat
    requires forall i :: 0 <= i < |text| ==> '0' <= text[i] <= '9'
  {
    if text == "" then 0 else Value(text[..|text| - 1]) * 10 + (text[|text| - 1] as int - '0' as int)
  }

  function Unsigned(text: string, maximum: nat): Option<nat> {
    if Digits(text) && Value(text) <= maximum then Some(Value(text)) else None
  }

  function Digit(n: nat): char
    requires n < 10
  {
    (n + '0' as int) as char
  }

  /** A number in exactly so many digits. */
  function Padded(n: nat, width: nat): string
    decreases width
  {
    if width == 0 then "" else Padded(n / 10, width - 1) + [Digit(n % 10)]
  }

  function Power(width: nat): nat {
    if width == 0 then 1 else 10 * Power(width - 1)
  }

  lemma {:induction false} PaddedReads(n: nat, width: nat)
    requires n < Power(width)
    ensures |Padded(n, width)| == width && (forall i :: 0 <= i < width ==> '0' <= Padded(n, width)[i] <= '9')
    ensures Value(Padded(n, width)) == n
    decreases width
  {
    if width > 0 {
      PaddedReads(n / 10, width - 1);
      var front := Padded(n / 10, width - 1);
      assert Padded(n, width)[..width - 1] == front;
    }
  }

  lemma {:induction false} ReadsPadded(text: string)
    requires forall i :: 0 <= i < |text| ==> '0' <= text[i] <= '9'
    ensures Value(text) < Power(|text|) && Padded(Value(text), |text|) == text
    decreases |text|
  {
    if text != "" {
      var front, last := text[..|text| - 1], text[|text| - 1];
      ReadsPadded(front);
      assert Value(text) / 10 == Value(front) && Value(text) % 10 == last as int - '0' as int;
      assert Digit(last as int - '0' as int) == last;
      assert text == front + [last];
    }
  }

  /** A number without leading zeros. */
  function Decimal(n: nat): string {
    if n < 10 then [Digit(n)] else Decimal(n / 10) + [Digit(n % 10)]
  }

  lemma {:induction false} DecimalReads(n: nat)
    ensures Digits(Decimal(n)) && Value(Decimal(n)) == n
    decreases n
  {
    if n >= 10 {
      DecimalReads(n / 10);
      assert Decimal(n)[..|Decimal(n)| - 1] == Decimal(n / 10);
    } else {
      assert Decimal(n)[..0] == "";
    }
  }
}
