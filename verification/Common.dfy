// Datatypes shared by the models.
module Common {
  datatype Option<+T> = None | Some(value: T) {
    function GetOr(default: T): T {
      match this
      case Some(v) => v
      case None => default
    }
  }

  datatype Result<+T, +E> = Ok(value: T) | Err(error: E)

  function Min(a: nat, b: nat): nat { if a < b then a else b }

  // Conversion to a 32-bit unsigned.
  function ToU32(n: int): nat { n % 0x1_0000_0000 }

  function Digits(v: nat): string {
    if v < 10 then [('0' as int + v) as char] else Digits(v / 10) + [('0' as int + v % 10) as char]
  }

  type byte = b: int | 0 <= b < 256

  // The number that a decimal text stands for.
  function ValueOf(s: string): int {
    if s == "" then 0 else 10 * ValueOf(s[..|s| - 1]) + (s[|s| - 1] as int - '0' as int)
  }

  /** Digits are the decimal digits of the number, without leading zeros. */
  lemma {:induction false} DigitsMean(v: nat)
    ensures ValueOf(Digits(v)) == v && Digits(v) != ""
    ensures forall i | 0 <= i < |Digits(v)| :: '0' <= Digits(v)[i] <= '9'
    ensures Digits(v)[0] == '0' ==> v == 0
  {
    if v < 10 {
      assert Digits(v)[..0] == "";
    } else {
      DigitsMean(v / 10);
      assert Digits(v)[..|Digits(v)| - 1] == Digits(v / 10);
    }
  }
}
