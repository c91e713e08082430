/** The compressed position field: base-91 digits, the symbol table byte that marks the
    layout, and the receiver's reading of both. */
module Base91 {
  import opened Common

  const MAX4: nat := 68_574_960
  const LAT_SCALE := 380_926.0
  const LON_SCALE := 190_463.0

  predicate Base91Byte(c: char) {
    '!' <= c <= '{'
  }

  function Byte(d: int): (c: char)
    requires 0 <= d <= 90
    ensures Base91Byte(c) && c as int - 33 == d
  {
    (33 + d) as char
  }

  /** Four base-91 digits, most significant first. */
  function Digits4(v: int): (s: string)
    requires 0 <= v <= MAX4
    ensures |s| == 4 && forall i :: 0 <= i < 4 ==> Base91Byte(s[i])
  {
    [Byte(v / 753_571), Byte(v / 8_281 % 91), Byte(v / 91 % 91), Byte(v % 91)]
  }

  function Clamp4(v: int): (r: int)
    ensures 0 <= r <= MAX4
    ensures 0 <= v <= MAX4 ==> r == v
  {
    if v < 0 then 0 else if v > MAX4 then MAX4 else v
  }

  function Pow91(n: nat): nat {
    if n == 0 then 1 else 91 * Pow91(n - 1)
  }

  /** The digit of v at the i-th place from the right. */
  function DigitOf(v: int, i: nat): (d: int)
    requires 0 <= v <= MAX4 && i <= 3
    ensures 0 <= d <= 90
  {
    if i == 0 then v % 91 else if i == 1 then v / 91 % 91 else if i == 2 then v / 8_281 % 91 else v / 753_571
  }

  lemma PlaceDigit(v: int, i: nat, place: nat)
    requires 0 <= v <= MAX4 && i <= 3 && place == Pow91(i)
    ensures place > 0 && v / place % 91 == DigitOf(v, i)
  {
    assert Pow91(1) == 91 && Pow91(2) == 8_281 && Pow91(3) == 753_571;
    if i == 0 {
    } else if i == 1 {
    } else if i == 2 {
    } else {
      assert v / 753_571 <= 90;
    }
  }

  method Encode4(val: int) returns (out: string)
    ensures out == Digits4(Clamp4(val))
  {
    var v := if val < 0 then 0 else if val > MAX4 then MAX4 else val;
    var digits: seq<int> := [];
    var i := 3;
    while i >= 0
      invariant -1 <= i <= 3 && |digits| == 3 - i
      invariant forall k :: 0 <= k < |digits| ==> digits[k] == DigitOf(v, 3 - k)
    {
      hide DigitOf;
      var place := 1;
      for p := 0 to i
        invariant place == Pow91(p)
      {
        place := place * 91;
      }
      PlaceDigit(v, i, place);
      digits := digits + [v / place % 91];
      i := i - 1;
    }
    out := [Byte(digits[0]), Byte(digits[1]), Byte(digits[2]), Byte(digits[3])];
  }

  /** The value of the first n digits, or nothing when a byte is not a digit. */
  function Value(p: string, n: nat): Option<nat>
    requires n <= |p|
  {
    if n == 0 then Some(0)
    else
      match Value(p, n - 1)
      case None => None
      case Some(v) => if Base91Byte(p[n - 1]) then Some(v * 91 + (p[n - 1] as int - 33)) else None
  }

  method Decode4(p: string) returns (r: Option<nat>)
    requires |p| >= 4
    ensures r == Value(p, 4)
  {
    var v := 0;
    for i := 0 to 4
      invariant Value(p, i) == Some(v)
    {
      if !Base91Byte(p[i]) {
        NoValueAfter(p, i + 1, 4);
        return None;
      }
      v := v * 91 + (p[i] as int - 33);
    }
    return Some(v);
  }

  lemma {:induction false} NoValueAfter(p: string, k: nat, n: nat)
    requires k <= n <= |p| && Value(p, k) == None
    ensures Value(p, n) == None
  {
    if k < n {
      NoValueAfter(p, k, n - 1);
    }
  }

  /** One more digit. */
  lemma ValueStep(p: string, n: nat)
    requires n < |p|
    ensures Value(p, n + 1).Some? <==> Value(p, n).Some? && Base91Byte(p[n])
    ensures Value(p, n + 1).Some? ==> Value(p, n + 1).value == Value(p, n).value * 91 + (p[n] as int - 33)
  {
  }

  lemma ValueOf4(p: string)
    requires |p| == 4
    ensures Value(p, 4).Some? <==> forall i :: 0 <= i < 4 ==> Base91Byte(p[i])
    ensures Value(p, 4).Some? ==>
              Value(p, 4).value ==
                (((p[0] as int - 33) * 91 + (p[1] as int - 33)) * 91 + (p[2] as int - 33)) * 91 + (p[3] as int - 33)
  {
    assert Value(p, 0) == Some(0);
    ValueStep(p, 0);
    ValueStep(p, 1);
    ValueStep(p, 2);
    ValueStep(p, 3);
  }

  lemma Recompose(v: int)
    requires 0 <= v
    ensures ((v / 753_571 * 91 + v / 8_281 % 91) * 91 + v / 91 % 91) * 91 + v % 91 == v
  {
    assert v / 91 / 91 == v / 8_281 && v / 8_281 / 91 == v / 753_571;
  }

  /** Decoding undoes encoding on every value of the field. */
  lemma DecodeEncode(v: int)
    requires 0 <= v <= MAX4
    ensures Value(Digits4(v), 4) == Some(v)
  {
    ValueOf4(Digits4(v));
    Recompose(v);
  }

  lemma Decompose(a: int, b: int, c: int, d: int)
    requires 0 <= a <= 90 && 0 <= b <= 90 && 0 <= c <= 90 && 0 <= d <= 90
    ensures var v := ((a * 91 + b) * 91 + c) * 91 + d;
            0 <= v <= MAX4 && v / 753_571 == a && v / 8_281 % 91 == b && v / 91 % 91 == c && v % 91 == d
  {
    var v := ((a * 91 + b) * 91 + c) * 91 + d;
    assert v / 91 == (a * 91 + b) * 91 + c;
    assert v / 8_281 == a * 91 + b;
  }

  /** Encoding undoes decoding on every field of four digits. */
  lemma EncodeDecode(p: string)
    requires |p| == 4 && forall i :: 0 <= i < 4 ==> Base91Byte(p[i])
    ensures Value(p, 4).Some? && Value(p, 4).value <= MAX4 && Digits4(Value(p, 4).value) == p
  {
    ValueOf4(p);
    Decompose(p[0] as int - 33, p[1] as int - 33, p[2] as int - 33, p[3] as int - 33);
  }

  // ---- The symbol table byte ----

  predicate TableByteCompressed(c: char) {
    c == '/' || c == '\\' || 'A' <= c <= 'Z' || 'a' <= c <= 'j'
  }

  /** A numeric overlay travels as a letter; anything that is no table becomes '/'. */
  function CompressedTable(t: char): char {
    if IsDigit(t) then ('a' as int + (t as int - '0' as int)) as char
    else if t == '/' || t == '\\' || 'A' <= t <= 'Z' then t
    else '/'
  }

  function TableFromCompressed(c: char): char {
    if 'a' <= c <= 'j' then ('0' as int + (c as int - 'a' as int)) as char else c
  }

  /** The transmitted byte is never a digit, which is what marks the layout, and the
      receiver translates every valid table back. */
  lemma OverlaySurvives(t: char)
    ensures !IsDigit(CompressedTable(t)) && TableByteCompressed(CompressedTable(t))
    ensures TableFromCompressed(CompressedTable(t)) == (if TableValid(t) then t else '/')
    ensures TableValid(TableFromCompressed(CompressedTable(t)))
  {
  }

  // ---- The field ----

  /** lroundf: to nearest, halves away from zero. */
  function Round(x: real): int {
    if x >= 0.0 then (x + 0.5).Floor else -((-x + 0.5).Floor)
  }

  function LatValue(lat: real): int {
    Round(LAT_SCALE * (90.0 - lat))
  }

  function LonValue(lon: real): int {
    Round(LON_SCALE * (180.0 + lon))
  }

  /** No coordinate in range reaches the clamp. */
  lemma InRangeUnclamped(lat: real, lon: real)
    requires -90.0 <= lat <= 90.0 && -180.0 <= lon <= 180.0
    ensures 0 <= LatValue(lat) <= 68_566_680 < MAX4 && 0 <= LonValue(lon) <= 68_566_680 < MAX4
  {
  }

  const COMPRESSED_LEN: nat := 13

  /** `csT` is the three-byte course/speed token; a NUL in it means there is none. */
  function Field(lat: real, lon: real, table: char, code: char, csT: string): (f: string)
    requires |csT| == 3
    ensures |f| == COMPRESSED_LEN
  {
    [CompressedTable(table)] + Digits4(Clamp4(LatValue(lat))) + Digits4(Clamp4(LonValue(lon))) + [code]
    + (if '\0' in csT then "   " else csT)
  }

  /** The field, cut to what the caller's buffer holds. */
  method FormatCompressed(lat: real, lon: real, table: char, code: char, csT: string, outMax: nat) returns (out: string)
    requires |csT| == 3 && outMax > 0
    ensures out == Field(lat, lon, table, code, csT)[..if outMax > COMPRESSED_LEN then COMPRESSED_LEN else outMax - 1]
  {
    var a := Encode4(LatValue(lat));
    var b := Encode4(LonValue(lon));
    var cs := "   ";
    if csT[0] != '\0' && csT[1] != '\0' && csT[2] != '\0' {
      cs := csT;
    }
    var field := [CompressedTable(table)] + a + b + [code] + cs;
    var n := COMPRESSED_LEN;
    if n > outMax - 1 {
      n := outMax - 1;
    }
    assert '\0' in csT <==> csT[0] == '\0' || csT[1] == '\0' || csT[2] == '\0';
    out := field[..n];
  }

  function DecodeCompressed(pos: string): Option<(real, real)> {
    if |pos| < 9 then None
    else
      match (Value(pos[1..5], 4), Value(pos[5..9], 4))
      case (Some(a), Some(b)) => Some((90.0 - a as real / LAT_SCALE, -180.0 + b as real / LON_SCALE))
      case _ => None
  }

  lemma LatError(lat: real)
    requires -90.0 <= lat <= 90.0
    ensures -0.5 <= LAT_SCALE * (90.0 - LatValue(lat) as real / LAT_SCALE - lat) <= 0.5
  {
    var x := LAT_SCALE * (90.0 - lat);
    assert LAT_SCALE * (LatValue(lat) as real / LAT_SCALE) == LatValue(lat) as real;
    assert -0.5 <= x - LatValue(lat) as real <= 0.5;
  }

  lemma LonError(lon: real)
    requires -180.0 <= lon <= 180.0
    ensures -0.5 <= LON_SCALE * (-180.0 + LonValue(lon) as real / LON_SCALE - lon) <= 0.5
  {
    var x := LON_SCALE * (180.0 + lon);
    assert LON_SCALE * (LonValue(lon) as real / LON_SCALE) == LonValue(lon) as real;
    assert -0.5 <= x - LonValue(lon) as real <= 0.5;
  }

  /** Every coordinate in range comes back to within half a quantisation step, in the
      layout the receiver recognises by its first byte, whatever follows the field. */
  lemma CompressedRoundTrip(lat: real, lon: real, table: char, code: char, csT: string, comment: string)
    requires -90.0 <= lat <= 90.0 && -180.0 <= lon <= 180.0 && |csT| == 3
    ensures var pos := Field(lat, lon, table, code, csT) + comment;
            var got := DecodeCompressed(pos);
            && !IsDigit(pos[0]) && TableFromCompressed(pos[0]) == (if TableValid(table) then table else '/')
            && pos[9] == code
            && got.Some?
            && -0.5 <= LAT_SCALE * (got.value.0 - lat) <= 0.5
            && -0.5 <= LON_SCALE * (got.value.1 - lon) <= 0.5
  {
    var pos := Field(lat, lon, table, code, csT) + comment;
    InRangeUnclamped(lat, lon);
    OverlaySurvives(table);
    assert pos[1..5] == Digits4(LatValue(lat));
    assert pos[5..9] == Digits4(LonValue(lon));
    DecodeEncode(LatValue(lat));
    DecodeEncode(LonValue(lon));
    LatError(lat);
    LonError(lon);
  }

  /** The worked example of chapter 9 of the APRS protocol reference 1.0: 49 degrees 30
      minutes north, 72 degrees 45 minutes west. */
  lemma WorkedExample()
    ensures Value("5L!!", 4) == Some(15_427_503) && Value("<*e7", 4) == Some(20_427_156)
    ensures DecodeCompressed("/5L!!<*e7>7P[")
         == Some((90.0 - 15_427_503.0 / LAT_SCALE, -180.0 + 20_427_156.0 / LON_SCALE))
  {
    var pos := "/5L!!<*e7>7P[";
    ValueOf4("5L!!");
    ValueOf4("<*e7");
    assert pos[1..5] == "5L!!" && pos[5..9] == "<*e7";
  }
}
