/** Small shared notions: optional results, decimal digits, symbol bytes, C division,
    32-bit arithmetic. */
module Common {
  const TWO32 := 0x1_0000_0000

  datatype Option<T> = None | Some(value: T)

  predicate IsDigit(c: char) {
    '0' <= c <= '9'
  }

  /** A byte that names a symbol table: primary, alternate or an overlay. */
  predicate TableValid(t: char) {
    t == '/' || t == '\\' || 'A' <= t <= 'Z' || IsDigit(t)
  }

  /** A byte that names a symbol in its table. */
  predicate CodeValid(c: char) {
    '!' <= c <= '~'
  }

  function DigitChar(d: int): (c: char)
    requires 0 <= d <= 9
    ensures IsDigit(c) && c as int - '0' as int == d
  {
    ('0' as int + d) as char
  }

  function DigitValue(c: char): (d: int)
    requires IsDigit(c)
    ensures 0 <= d <= 9
  {
    c as int - '0' as int
  }

  /** C integer division, which truncates toward zero. */
  function TruncDiv(a: int, b: int): int
    requires b > 0
  {
    if a >= 0 then a / b else -((-a) / b)
  }
}
