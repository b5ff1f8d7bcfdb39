/** Small datatypes shared by the component models. */
module Prelude {
  datatype Option<+T> = None | Some(value: T) {
    predicate IsFailure() {
      None?
    }

    function PropagateFailure<U>(): Option<U>
      requires None?
    {
      Option<U>.None
    }

    function Extract(): T
      requires Some?
    {
      value
    }
  }

  datatype Result<+T, +E> = Ok(value: T) | Err(error: E)

  /** One octet of a Go `[]byte` or a Qt `QByteArray`. */
  type Byte = x: int | 0 <= x < 256

  /** A lower-case hexadecimal digit. */
  function HexDigit(d: int): char
    requires 0 <= d < 16
  {
    if d < 10 then '0' + d as char else 'a' + (d - 10) as char
  }

  function Hex(bytes: seq<Byte>): (text: string)
    ensures |text| == 2 * |bytes|
    ensures forall k :: 0 <= k < |bytes| ==>
              text[2 * k] == HexDigit(bytes[k] / 16) && text[2 * k + 1] == HexDigit(bytes[k] % 16)
  {
    if bytes == [] then "" else [HexDigit(bytes[0] / 16), HexDigit(bytes[0] % 16)] + Hex(bytes[1..])
  }

  /** The digits 0 to 9 and a to f, by code points. */
  lemma HexDigitMeaning(d: int)
    requires 0 <= d < 16
    ensures HexDigit(d) as int == if d < 10 then 48 + d else 97 + (d - 10)
  {
  }

  lemma HexDigitsInjective(x: Byte, y: Byte)
    requires HexDigit(x / 16) == HexDigit(y / 16) && HexDigit(x % 16) == HexDigit(y % 16)
    ensures x == y
  {
  }
}
