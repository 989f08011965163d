/** Shared by every module: tables as lists of rows, a missing result, a call that may throw, and numbers as text. */
module Wrappers {
  const TWO_32: nat := 0x1_0000_0000

  type Row = seq<string>
  type Table = seq<Row>

  datatype Option<+T> = None | Some(value: T)

  /** A call of the original either returns normally or throws; `fault` says why. */
  datatype Result<+T, +F> = Ok(value: T) | Err(fault: F) {
    predicate IsFailure() {
      Err?
    }

    function PropagateFailure<U>(): Result<U, F>
      requires Err?
    {
      Err(fault)
    }

    function Extract(): T
      requires Ok?
    {
      value
    }
  }

  function Decimal(n: nat): string {
    if n < 10 then ["0123456789"[n]] else Decimal(n / 10) + ["0123456789"[n % 10]]
  }

  function Digit(c: char): (d: nat)
    requires '0' <= c <= '9'
    ensures d < 10
  {
    c as int - '0' as int
  }

  /** The number a text of digits stands for. */
  function NumberOf(s: string): nat
    requires forall i :: 0 <= i < |s| ==> '0' <= s[i] <= '9'
  {
    if s == "" then 0 else 10 * NumberOf(s[..|s| - 1]) + Digit(s[|s| - 1])
  }

  /** A number is written in decimal digits, without leading zeros. */
  lemma {:induction false} DecimalIs(n: nat)
    ensures var s := Decimal(n);
      && s != "" && (forall i :: 0 <= i < |s| ==> '0' <= s[i] <= '9')
      && (s[0] == '0' ==> n == 0 && |s| == 1)
      && NumberOf(s) == n
  {
    var s := Decimal(n);
    if n >= 10 {
      DecimalIs(n / 10);
      assert s[..|s| - 1] == Decimal(n / 10);
    } else {
      assert s[..0] == "";
    }
  }
}
