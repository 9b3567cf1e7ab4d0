/** Small vocabulary shared by the component models. */
module Common {
  datatype Option<+T> = None | Some(value: T)

  function Digit(n: nat): char
    requires n < 10
  {
    '0' + n as char
  }

  /** A number as decimal text, without leading zeros. */
  function Decimal(n: nat): string {
    (if n < 10 then "" else Decimal(n / 10)) + [Digit(n % 10)]
  }
}
