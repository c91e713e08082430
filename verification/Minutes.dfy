/** Degrees and minutes on the air: the shared quantisation, the uncompressed field with
    position ambiguity, and the "!DAO!" refinement. Angles are counted in exact units. */
module Minutes {
  import opened Common
  import opened Text

  // ---- The one measurement of a coordinate ----

  /** Whole degrees and thousandths of a minute. */
  datatype Split = Split(deg: nat, thousandths: nat)

  function SplitOf(absDeg: real): (s: Split)
    requires absDeg >= 0.0
    ensures s.thousandths < 60_000
  {
    var deg := absDeg.Floor;
    var minutes := (absDeg - deg as real) * 60.0;
    var t := (minutes * 1000.0 + 0.5).Floor;
    if t >= 60_000 then Split(deg + 1, t - 60_000) else Split(deg, t)
  }

  /** The measurement is the coordinate rounded to the nearest thousandth of a minute. */
  lemma SplitRounds(absDeg: real)
    requires absDeg >= 0.0
    ensures var s := SplitOf(absDeg);
            -0.5 <= (60_000 * s.deg + s.thousandths) as real - absDeg * 60_000.0 <= 0.5
  {
  }

  lemma SplitBounded(absDeg: real, limit: nat)
    requires 0.0 <= absDeg <= limit as real
    ensures SplitOf(absDeg).deg <= limit
    ensures SplitOf(absDeg).deg == limit ==> SplitOf(absDeg).thousandths == 0
  {
  }

  // ---- Writing the field ----

  function MinuteDigits(h: nat): (r: string)
    requires h < 6000
    ensures |r| == 5
  {
    [DigitChar(h / 1000), DigitChar(h / 100 % 10), '.', DigitChar(h / 10 % 10), DigitChar(h % 10)]
  }

  /** "%0<width>d" of a number of degrees. */
  function Degrees(deg: nat, width: nat): (r: string)
    ensures |r| >= width
  {
    var d := Decimal(deg);
    seq(if |d| < width then width - |d| else 0, _ => '0') + d
  }

  lemma TwoDegrees(deg: nat)
    requires deg < 100
    ensures Degrees(deg, 2) == [DigitChar(deg / 10), DigitChar(deg % 10)]
  {
    if deg >= 10 {
      assert Decimal(deg / 10) == [DigitChar(deg / 10)];
    }
  }

  lemma ThreeDegrees(deg: nat)
    requires deg < 1000
    ensures Degrees(deg, 3) == [DigitChar(deg / 100), DigitChar(deg / 10 % 10), DigitChar(deg % 10)]
  {
    TwoDegrees(deg / 10);
    assert deg / 10 / 10 == deg / 100;
    if deg >= 10 {
      assert Decimal(deg) == Decimal(deg / 10) + [DigitChar(deg % 10)];
    }
  }

  /** "DDMM.mmN" in a buffer of eight characters, which cuts off what three digits of
      degrees push out. */
  function LatField(deg: nat, h: nat, north: bool): (r: string)
    requires h < 6000
    ensures |r| == 8
  {
    (Degrees(deg, 2) + MinuteDigits(h) + [if north then 'N' else 'S'])[..8]
  }

  /** "DDDMM.mmE" in a buffer of nine characters. */
  function LonField(deg: nat, h: nat, east: bool): (r: string)
    requires h < 6000
    ensures |r| == 9
  {
    (Degrees(deg, 3) + MinuteDigits(h) + [if east then 'E' else 'W'])[..9]
  }

  const LAT_DIGITS: seq<nat> := [6, 5, 3, 2]
  const LON_DIGITS: seq<nat> := [7, 6, 4, 3]

  /** The field with its `count` least significant minute digits blanked. */
  function Blanked(field: string, digits: seq<nat>, count: nat): (r: string)
    requires count <= |digits|
    ensures |r| == |field|
  {
    seq(|field|, i requires 0 <= i < |field| => if i in digits[..count] then ' ' else field[i])
  }

  method BlankMinuteDigits(field: array<char>, digits: seq<nat>, count: nat)
    requires count <= |digits|
    modifies field
    ensures field[..] == Blanked(old(field[..]), digits, count)
  {
    for i := 0 to count
      invariant field[..] == Blanked(old(field[..]), digits, i)
    {
      assert digits[..i + 1] == digits[..i] + [digits[i]];
      if digits[i] < field.Length {
        field[digits[i]] := ' ';
      }
    }
  }

  /** The pair of fields for any coordinates, at ambiguity 0 to 4 (more is clamped). */
  method FormatAmbiguous(lat: real, lon: real, ambiguity: nat) returns (latOut: string, lonOut: string)
    ensures latOut == LatText(lat, if ambiguity > 4 then 4 else ambiguity)
    ensures lonOut == LonText(lon, if ambiguity > 4 then 4 else ambiguity)
  {
    var level := if ambiguity > 4 then 4 else ambiguity;
    var a, b := SplitOf(Abs(lat)), SplitOf(Abs(lon));
    var latText := LatField(a.deg, a.thousandths / 10, lat >= 0.0);
    var lonText := LonField(b.deg, b.thousandths / 10, lon >= 0.0);
    var latField := new char[8](i requires 0 <= i < 8 => latText[i]);
    var lonField := new char[9](i requires 0 <= i < 9 => lonText[i]);
    assert latField[..] == latText && lonField[..] == lonText;
    BlankMinuteDigits(latField, LAT_DIGITS, level);
    BlankMinuteDigits(lonField, LON_DIGITS, level);
    latOut, lonOut := latField[..], lonField[..];
  }

  function Abs(x: real): (r: real)
    ensures r >= 0.0
  {
    if x < 0.0 then -x else x
  }

  function LatText(lat: real, level: nat): string
    requires level <= 4
  {
    Blanked(LatField(SplitOf(Abs(lat)).deg, SplitOf(Abs(lat)).thousandths / 10, lat >= 0.0), LAT_DIGITS, level)
  }

  function LonText(lon: real, level: nat): string
    requires level <= 4
  {
    Blanked(LonField(SplitOf(Abs(lon)).deg, SplitOf(Abs(lon)).thousandths / 10, lon >= 0.0), LON_DIGITS, level)
  }

  // ---- Reading the field ----

  predicate MinuteByte(c: char) {
    c == ' ' || IsDigit(c)
  }

  predicate MinuteLayout(f: string) {
    |f| == 5 && f[2] == '.' && MinuteByte(f[0]) && MinuteByte(f[1]) && MinuteByte(f[3]) && MinuteByte(f[4])
  }

  /** Only a trailing run of digits may be blank. */
  predicate BlanksTrail(f: string)
    requires |f| == 5
  {
    && (f[0] == ' ' ==> f[1] == ' ')
    && (f[1] == ' ' ==> f[3] == ' ')
    && (f[3] == ' ' ==> f[4] == ' ')
  }

  function Place(i: nat): (p: nat)
    requires i < 4
  {
    [1000, 100, 10, 1][i]
  }

  function FieldIndex(i: nat): (k: nat)
    requires i < 4
    ensures k < 5 && k != 2
  {
    [0, 1, 3, 4][i]
  }

  /** Lowest and highest value, in hundredths of a minute, of the first `n` digits. */
  function Lower(f: string, n: nat): nat
    requires MinuteLayout(f) && n <= 4
  {
    if n == 0 then 0
    else
      var c := f[FieldIndex(n - 1)];
      Lower(f, n - 1) + (if c == ' ' then 0 else DigitValue(c) * Place(n - 1))
  }

  function Upper(f: string, n: nat): nat
    requires MinuteLayout(f) && n <= 4
  {
    if n == 0 then 0
    else
      var c := f[FieldIndex(n - 1)];
      Upper(f, n - 1) + (if c == ' ' then (if n == 1 then 5 else 9) else DigitValue(c)) * Place(n - 1)
  }

  /** Twice the centre of the box a minutes field names, in hundredths of a minute, or
      nothing when the field is malformed. */
  function Centre2(f: string): Option<nat> {
    if MinuteLayout(f) && BlanksTrail(f) then Some(Lower(f, 4) + Upper(f, 4)) else None
  }

  method ParseAmbiguousMinutes(f: string) returns (r: Option<nat>)
    requires |f| == 5
    ensures r == Centre2(f)
  {
    if f[2] != '.' {
      return None;
    }
    for i := 0 to 4
      invariant forall j: nat :: j < i ==> MinuteByte(f[FieldIndex(j)])
    {
      if !MinuteByte(f[FieldIndex(i)]) {
        return None;
      }
    }
    assert MinuteLayout(f) by {
      assert FieldIndex(0) == 0 && FieldIndex(1) == 1 && FieldIndex(2) == 3 && FieldIndex(3) == 4;
    }
    var firstBlank := -1;
    for i := 0 to 4
      invariant firstBlank == -1
      invariant forall j: nat :: j < i ==> f[FieldIndex(j)] != ' '
    {
      if f[FieldIndex(i)] == ' ' {
        firstBlank := i;
        break;
      }
    }
    assert FieldIndex(0) == 0 && FieldIndex(1) == 1 && FieldIndex(2) == 3 && FieldIndex(3) == 4;
    if firstBlank >= 0 {
      for i := firstBlank to 4
        invariant forall j: nat :: firstBlank <= j < i ==> f[FieldIndex(j)] == ' '
      {
        if f[FieldIndex(i)] != ' ' {
          return None;
        }
      }
    }
    var lower, upper := 0, 0;
    for i := 0 to 4
      invariant lower == Lower(f, i) && upper == Upper(f, i)
    {
      var c := f[FieldIndex(i)];
      if c == ' ' {
        upper := upper + (if i == 0 then 5 else 9) * Place(i);
      } else {
        lower := lower + DigitValue(c) * Place(i);
        upper := upper + DigitValue(c) * Place(i);
      }
    }
    return Some(lower + upper);
  }

  // ---- The uncompressed position field ----

  const UNCOMPRESSED_LEN: nat := 19

  /** The pieces a position field is cut into. */
  datatype Fields = Fields(latDeg: string, latMin: string, ns: char, lonDeg: string, lonMin: string, ew: char)

  function CutFields(pos: string): Fields
    requires |pos| >= UNCOMPRESSED_LEN
  {
    Fields(pos[0..2], pos[2..7], pos[7], pos[9..12], pos[12..17], pos[17])
  }

  predicate Layout(f: Fields) {
    && |f.latDeg| == 2 && AllDigits(f.latDeg) && |f.lonDeg| == 3 && AllDigits(f.lonDeg)
    && f.ns in "NnSs" && f.ew in "EeWw"
  }

  function Signed(magnitude: nat, negative: bool): int {
    if negative then 0 - magnitude else magnitude
  }

  function DecodeFields(f: Fields): Option<(int, int)> {
    if !Layout(f) || Centre2(f.latMin).None? || Centre2(f.lonMin).None? then None
    else
      var la := Number(f.latDeg) * 12_000 + Centre2(f.latMin).value;
      var lo := Number(f.lonDeg) * 12_000 + Centre2(f.lonMin).value;
      if la > 90 * 12_000 || lo > 180 * 12_000 then None
      else Some((Signed(la, f.ns in "Ss"), Signed(lo, f.ew in "Ww")))
  }

  /** Latitude and longitude in two-hundredths of a minute; a coordinate beyond 90 or 180
      degrees is refused. */
  function DecodeUncompressed(pos: string): Option<(int, int)> {
    if |pos| < UNCOMPRESSED_LEN then None else DecodeFields(CutFields(pos))
  }

  /** A minutes field with its last n digits blanked. */
  predicate ShowsBut(f: string, n: nat) {
    && |f| == 5 && n <= 4 && f[2] == '.'
    && (if n >= 4 then f[0] == ' ' else IsDigit(f[0])) && (if n >= 3 then f[1] == ' ' else IsDigit(f[1]))
    && (if n >= 2 then f[3] == ' ' else IsDigit(f[3])) && (if n >= 1 then f[4] == ' ' else IsDigit(f[4]))
  }

  predicate Readable(f: string) {
    ShowsBut(f, 0) || ShowsBut(f, 1) || ShowsBut(f, 2) || ShowsBut(f, 3) || ShowsBut(f, 4)
  }

  lemma CentreIff(f: string)
    ensures Centre2(f).Some? <==> Readable(f)
  {
    hide Lower, Upper;
  }

  /** What decodes has digits for its degrees, minutes with at most a tail of blanks, and
      a hemisphere letter of either case on either axis. */
  lemma DecodedLayout(pos: string)
    requires DecodeUncompressed(pos).Some?
    ensures |pos| >= 19 && AllDigits(pos[0..2]) && AllDigits(pos[9..12]) && Readable(pos[2..7]) && Readable(pos[12..17])
    ensures pos[7] in {'N', 'n', 'S', 's'} && pos[17] in {'E', 'e', 'W', 'w'}
  {
    hide Lower, Upper, Number;
    CentreIff(pos[2..7]);
    CentreIff(pos[12..17]);
  }

  // ---- What ambiguity means ----

  /** The hundredths of a minute that share the digits still shown at a level. */
  datatype Box = Box(lo: nat, hi: nat)

  function BoxOf(h: nat, level: nat): (b: Box)
    requires h < 6000 && level <= 4
    ensures b.lo <= h <= b.hi
  {
    if level == 4 then Box(0, 5999)
    else
      var size := [1, 10, 100, 1000][level];
      Box(h / size * size, h / size * size + size - 1)
  }

  function BlankMinutes(h: nat, level: nat): (r: string)
    requires h < 6000 && level <= 4
    ensures |r| == 5
  {
    var d := MinuteDigits(h);
    [if level >= 4 then ' ' else d[0], if level >= 3 then ' ' else d[1], '.',
     if level >= 2 then ' ' else d[3], if level >= 1 then ' ' else d[4]]
  }

  lemma DigitsOf(h: nat)
    requires h < 6000
    ensures h == h / 1000 * 1000 + h / 100 % 10 * 100 + h / 10 % 10 * 10 + h % 10
    ensures h / 10 * 10 == h / 1000 * 1000 + h / 100 % 10 * 100 + h / 10 % 10 * 10
    ensures h / 100 * 100 == h / 1000 * 1000 + h / 100 % 10 * 100
  {
    assert h / 10 / 10 == h / 100 && h / 100 / 10 == h / 1000;
  }

  lemma LowerUpperOf(f: string)
    requires MinuteLayout(f)
    ensures Lower(f, 4) == (if f[0] == ' ' then 0 else DigitValue(f[0]) * 1000)
                           + (if f[1] == ' ' then 0 else DigitValue(f[1]) * 100)
                           + (if f[3] == ' ' then 0 else DigitValue(f[3]) * 10)
                           + (if f[4] == ' ' then 0 else DigitValue(f[4]))
    ensures Upper(f, 4) == (if f[0] == ' ' then 5 else DigitValue(f[0])) * 1000
                           + (if f[1] == ' ' then 9 else DigitValue(f[1])) * 100
                           + (if f[3] == ' ' then 9 else DigitValue(f[3])) * 10
                           + (if f[4] == ' ' then 9 else DigitValue(f[4]))
  {
    assert Lower(f, 2) == Lower(f, 1) + (if f[1] == ' ' then 0 else DigitValue(f[1]) * 100);
    assert Upper(f, 2) == Upper(f, 1) + (if f[1] == ' ' then 9 else DigitValue(f[1])) * 100;
  }

  /** Decoding a blanked minutes field gives exactly the centre of the box. */
  lemma CentreOfBlanked(h: nat, level: nat)
    requires h < 6000 && level <= 4
    ensures Centre2(BlankMinutes(h, level)) == Some(BoxOf(h, level).lo + BoxOf(h, level).hi)
  {
    LowerUpperOf(BlankMinutes(h, level));
    DigitsOf(h);
  }

  lemma LatCut(deg: nat, h: nat, north: bool, level: nat)
    requires deg < 100 && h < 6000 && level <= 4
    ensures var f := Blanked(LatField(deg, h, north), LAT_DIGITS, level);
            && f[0..2] == [DigitChar(deg / 10), DigitChar(deg % 10)]
            && f[2..7] == BlankMinutes(h, level)
            && f[7] == (if north then 'N' else 'S')
  {
    hide Degrees;
    TwoDegrees(deg);
    var f := Blanked(LatField(deg, h, north), LAT_DIGITS, level);
    Prefixes(LAT_DIGITS, level);
    assert f[0..2] == [f[0], f[1]];
    assert f[2..7] == [f[2], f[3], f[4], f[5], f[6]];
  }

  lemma LonCut(deg: nat, h: nat, east: bool, level: nat)
    requires deg < 1000 && h < 6000 && level <= 4
    ensures var f := Blanked(LonField(deg, h, east), LON_DIGITS, level);
            && f[0..3] == [DigitChar(deg / 100), DigitChar(deg / 10 % 10), DigitChar(deg % 10)]
            && f[3..8] == BlankMinutes(h, level)
            && f[8] == (if east then 'E' else 'W')
  {
    hide Degrees;
    ThreeDegrees(deg);
    var f := Blanked(LonField(deg, h, east), LON_DIGITS, level);
    Prefixes(LON_DIGITS, level);
    assert f[0..3] == [f[0], f[1], f[2]];
    assert f[3..8] == [f[3], f[4], f[5], f[6], f[7]];
  }

  lemma Prefixes(d: seq<nat>, level: nat)
    requires |d| == 4 && level <= 4
    ensures forall x :: x in d[..level] <==>
              || (level >= 1 && x == d[0]) || (level >= 2 && x == d[1])
              || (level >= 3 && x == d[2]) || (level >= 4 && x == d[3])
  {
    assert level == 0 ==> d[..level] == [];
    assert level == 1 ==> d[..level] == [d[0]];
    assert level == 2 ==> d[..level] == [d[0], d[1]];
    assert level == 3 ==> d[..level] == [d[0], d[1], d[2]];
    assert level == 4 ==> d[..level] == [d[0], d[1], d[2], d[3]];
  }

  function Position(lat: real, lon: real, level: nat, table: char, code: char, comment: string): string
    requires level <= 4
  {
    LatText(lat, level) + [table] + LonText(lon, level) + [code] + comment
  }

  function AxisCentre(absDeg: real, level: nat): nat
    requires absDeg >= 0.0 && level <= 4
  {
    Centre(SplitOf(absDeg), level)
  }

  lemma PositionCut(a: string, b: string, table: char, code: char, comment: string)
    requires |a| == 8 && |b| == 9
    ensures var pos := a + [table] + b + [code] + comment;
            && |pos| >= UNCOMPRESSED_LEN
            && CutFields(pos) == Fields(a[0..2], a[2..7], a[7], b[0..3], b[3..8], b[8])
            && pos[UNCOMPRESSED_LEN..] == comment
  {
    var pos := a + [table] + b + [code] + comment;
    assert pos[0..2] == a[0..2] && pos[2..7] == a[2..7];
    assert pos[9..12] == b[0..3] && pos[12..17] == b[3..8];
  }

  lemma NumberOf2(a: int, b: int)
    requires 0 <= a <= 9 && 0 <= b <= 9
    ensures Number([DigitChar(a), DigitChar(b)]) == 10 * a + b
  {
    var s := [DigitChar(a), DigitChar(b)];
    assert s[..1] == [DigitChar(a)] && [DigitChar(a)][..0] == "";
    assert Number([DigitChar(a)]) == a;
  }

  lemma NumberOf3(a: int, b: int, c: int)
    requires 0 <= a <= 9 && 0 <= b <= 9 && 0 <= c <= 9
    ensures Number([DigitChar(a), DigitChar(b), DigitChar(c)]) == 100 * a + 10 * b + c
  {
    NumberOf2(a, b);
    assert [DigitChar(a), DigitChar(b), DigitChar(c)][..2] == [DigitChar(a), DigitChar(b)];
  }

  /** The pieces of the field transmitted for two measurements. */
  function SentFields(a: Split, north: bool, b: Split, east: bool, level: nat): Fields
    requires a.deg < 100 && b.deg < 1000 && a.thousandths < 60_000 && b.thousandths < 60_000 && level <= 4
  {
    Fields([DigitChar(a.deg / 10), DigitChar(a.deg % 10)],
           BlankMinutes(a.thousandths / 10, level), if north then 'N' else 'S',
           [DigitChar(b.deg / 100), DigitChar(b.deg / 10 % 10), DigitChar(b.deg % 10)],
           BlankMinutes(b.thousandths / 10, level), if east then 'E' else 'W')
  }

  function Centre(s: Split, level: nat): nat
    requires s.thousandths < 60_000 && level <= 4
  {
    s.deg * 12_000 + BoxOf(s.thousandths / 10, level).lo + BoxOf(s.thousandths / 10, level).hi
  }

  lemma DecodeKnown(f: Fields, latDeg: nat, latMin: nat, lonDeg: nat, lonMin: nat)
    requires Layout(f) && Number(f.latDeg) == latDeg && Number(f.lonDeg) == lonDeg
    requires Centre2(f.latMin) == Some(latMin) && Centre2(f.lonMin) == Some(lonMin)
    ensures var la, lo := latDeg * 12_000 + latMin, lonDeg * 12_000 + lonMin;
            DecodeFields(f) == if la <= 90 * 12_000 && lo <= 180 * 12_000
                               then Some((Signed(la, f.ns in "Ss"), Signed(lo, f.ew in "Ww"))) else None
  {
  }

  lemma SentNumbers(a: Split, north: bool, b: Split, east: bool, level: nat)
    requires a.deg <= 90 && b.deg <= 180 && a.thousandths < 60_000 && b.thousandths < 60_000 && level <= 4
    ensures var f := SentFields(a, north, b, east, level);
            && Layout(f) && Number(f.latDeg) == a.deg && Number(f.lonDeg) == b.deg
            && (f.ns in "Ss" <==> !north) && (f.ew in "Ww" <==> !east)
  {
    NumberOf2(a.deg / 10, a.deg % 10);
    NumberOf3(b.deg / 100, b.deg / 10 % 10, b.deg % 10);
    assert b.deg / 10 / 10 == b.deg / 100;
  }

  lemma SentFieldsDecode(a: Split, north: bool, b: Split, east: bool, level: nat)
    requires a.deg <= 90 && b.deg <= 180 && a.thousandths < 60_000 && b.thousandths < 60_000 && level <= 4
    ensures DecodeFields(SentFields(a, north, b, east, level))
         == if Centre(a, level) <= 90 * 12_000 && Centre(b, level) <= 180 * 12_000
            then Some((Signed(Centre(a, level), !north), Signed(Centre(b, level), !east))) else None
  {
    hide DecodeFields, BlankMinutes;
    var f := SentFields(a, north, b, east, level);
    SentNumbers(a, north, b, east, level);
    CentreOfBlanked(a.thousandths / 10, level);
    CentreOfBlanked(b.thousandths / 10, level);
    var ba, bb := BoxOf(a.thousandths / 10, level), BoxOf(b.thousandths / 10, level);
    DecodeKnown(f, a.deg, ba.lo + ba.hi, b.deg, bb.lo + bb.hi);
  }

  lemma PositionFields(lat: real, lon: real, level: nat, table: char, code: char, comment: string)
    requires -90.0 <= lat <= 90.0 && -180.0 <= lon <= 180.0 && level <= 4
    requires SplitOf(Abs(lat)).deg <= 90 && SplitOf(Abs(lon)).deg <= 180
    ensures var pos := Position(lat, lon, level, table, code, comment);
            && |pos| >= UNCOMPRESSED_LEN && pos[UNCOMPRESSED_LEN..] == comment
            && CutFields(pos) == SentFields(SplitOf(Abs(lat)), lat >= 0.0, SplitOf(Abs(lon)), lon >= 0.0, level)
  {
    var a, b := SplitOf(Abs(lat)), SplitOf(Abs(lon));
    LatCut(a.deg, a.thousandths / 10, lat >= 0.0, level);
    LonCut(b.deg, b.thousandths / 10, lon >= 0.0, level);
    PositionCut(LatText(lat, level), LonText(lon, level), table, code, comment);
  }

  /** For every coordinate and level the receiver gets exactly the centre of the box
      around the transmitted hundredths, on the right side of the equator and meridian -
      except at a blanked pole or antimeridian, whose centre lies beyond it and is
      refused. */
  lemma AmbiguityRoundTrip(lat: real, lon: real, level: nat, table: char, code: char, comment: string)
    requires -90.0 <= lat <= 90.0 && -180.0 <= lon <= 180.0 && level <= 4
    ensures var shown := level == 0 || (SplitOf(Abs(lat)).deg < 90 && SplitOf(Abs(lon)).deg < 180);
            DecodeUncompressed(Position(lat, lon, level, table, code, comment))
            == if shown
               then Some((Signed(AxisCentre(Abs(lat), level), lat < 0.0),
                          Signed(AxisCentre(Abs(lon), level), lon < 0.0)))
               else None
  {
    hide DecodeFields, SentFields, Position;
    SplitBounded(Abs(lat), 90);
    SplitBounded(Abs(lon), 180);
    PositionFields(lat, lon, level, table, code, comment);
    SentFieldsDecode(SplitOf(Abs(lat)), lat >= 0.0, SplitOf(Abs(lon)), lon >= 0.0, level);
  }

  /** The centre is never further from the transmitted value than half the box, and is
      that value when nothing is blanked. All in two-hundredths of a minute. */
  lemma CentreError(h: nat, level: nat)
    requires h < 6000 && level <= 4
    ensures var b := BoxOf(h, level);
            -(b.hi - b.lo) <= 2 * h - (b.lo + b.hi) <= b.hi - b.lo
            && (level == 0 ==> b.lo + b.hi == 2 * h)
            && (level < 4 ==> BoxOf(h, level + 1).lo <= b.lo && b.hi <= BoxOf(h, level + 1).hi)
  {
    DigitsOf(h);
  }

  // ---- The !DAO! extension ----

  function BuildDao(lat: real, lon: real): (t: string)
    ensures |t| == 5
  {
    "!W" + [DigitChar(SplitOf(Abs(lat)).thousandths % 10), DigitChar(SplitOf(Abs(lon)).thousandths % 10)] + "!"
  }

  predicate AxisOk(datum: char, c: char) {
    if 'A' <= datum <= 'Z' then c == ' ' || IsDigit(c)
    else 'a' <= datum <= 'z' && (c == ' ' || '!' <= c <= '{')
  }

  predicate TokenAt(text: string, i: nat) {
    i + 4 < |text| && text[i] == '!' && text[i + 4] == '!'
    && AxisOk(text[i + 1], text[i + 2]) && AxisOk(text[i + 1], text[i + 3])
  }

  /** A capital datum takes digits and blanks, a small one base-91 bytes and blanks; any
      other byte makes it no token. */
  lemma TokenIff(text: string, i: nat)
    requires i + 4 < |text|
    ensures var datum, a, b := text[i + 1], text[i + 2], text[i + 3];
            TokenAt(text, i) <==>
              && text[i] == '!' == text[i + 4]
              && (('A' <= datum <= 'Z' && a in " 0123456789" && b in " 0123456789")
                  || ('a' <= datum <= 'z'
                      && (a == ' ' || 33 <= a as int <= 123) && (b == ' ' || 33 <= b as int <= 123)))
  {
    DigitsAndBlank(text[i + 2]);
    DigitsAndBlank(text[i + 3]);
  }

  lemma DigitsAndBlank(c: char)
    ensures c in " 0123456789" <==> c == ' ' || IsDigit(c)
  {
    var s := " 0123456789";
    if IsDigit(c) {
      assert s[1 + DigitValue(c)] == c;
    }
  }

  /** Minutes an axis byte adds: a third decimal, or a 91st of a hundredth. */
  function AxisMinutes(datum: char, c: char): real
    requires AxisOk(datum, c)
  {
    if c == ' ' then 0.0
    else if 'A' <= datum <= 'Z' then DigitValue(c) as real * 0.001
    else (c as int - '!' as int) as real * (0.01 / 91.0)
  }

  /** The refinement of the first valid token at or after position i. */
  function DaoIn(text: string, i: nat): Option<(real, real)>
    decreases |text| - i
  {
    if i + 4 >= |text| then None
    else if TokenAt(text, i) then Some((AxisMinutes(text[i + 1], text[i + 2]), AxisMinutes(text[i + 1], text[i + 3])))
    else DaoIn(text, i + 1)
  }

  method ParseDao(text: string) returns (r: Option<(real, real)>)
    ensures r == DaoIn(text, 0)
  {
    var i := 0;
    while i + 4 < |text|
      invariant DaoIn(text, 0) == DaoIn(text, i)
    {
      if TokenAt(text, i) {
        return Some((AxisMinutes(text[i + 1], text[i + 2]), AxisMinutes(text[i + 1], text[i + 3])));
      }
      i := i + 1;
    }
    return None;
  }

  lemma {:induction false} DaoInFinds(text: string, i: nat, k: nat)
    requires i <= k && TokenAt(text, k) && forall j: nat :: i <= j < k ==> !TokenAt(text, j)
    ensures DaoIn(text, i) == Some((AxisMinutes(text[k + 1], text[k + 2]), AxisMinutes(text[k + 1], text[k + 3])))
    decreases k - i
  {
    if i < k {
      DaoInFinds(text, i + 1, k);
    }
  }

  /** What a token adds: under a capital datum a third decimal of each minute, under a small
      one a 91st of a hundredth of a minute per step, latitude first, and a blank nothing. */
  lemma TokenValue(text: string, k: nat, datum: char, a: nat, b: nat)
    requires k + 4 < |text| && text[k] == '!' && text[k + 1] == datum && text[k + 4] == '!'
    requires forall j: nat :: j < k ==> !TokenAt(text, j)
    requires ('A' <= datum <= 'Z' && a <= 9 && b <= 9 && text[k + 2] == DigitChar(a) && text[k + 3] == DigitChar(b))
             || ('a' <= datum <= 'z' && a <= 90 && b <= 90
                 && text[k + 2] == (33 + a) as char && text[k + 3] == (33 + b) as char)
    ensures DaoIn(text, 0) == Some(if 'A' <= datum <= 'Z' then (a as real / 1000.0, b as real / 1000.0)
                                   else (a as real / 9100.0, b as real / 9100.0))
  {
    DaoInFinds(text, 0, k);
  }

  lemma BlankAxes(text: string, k: nat)
    requires TokenAt(text, k) && forall j: nat :: j < k ==> !TokenAt(text, j)
    ensures DaoIn(text, 0).Some?
    ensures text[k + 2] == ' ' ==> DaoIn(text, 0).value.0 == 0.0
    ensures text[k + 3] == ' ' ==> DaoIn(text, 0).value.1 == 0.0
  {
    DaoInFinds(text, 0, k);
  }

  /** A decoded coordinate in minutes, moved away from zero by the extension. A decoded
      zero has lost its hemisphere and moves up. */
  function Refined(v: int, extra: real): real {
    v as real / 200.0 + (if v < 0 then -extra else extra)
  }

  // ---- The data extension ahead of the comment ----

  /** Height, gain and directivity codes. */
  predicate HgdOk(p: string)
    requires |p| == 3
  {
    IsDigit(p[0]) && IsDigit(p[1]) && '0' <= p[2] <= '8'
  }

  predicate CourseGroup(p: string)
    requires |p| == 3
  {
    AllDigits(p) || p == "..." || p == "VVV"
  }

  /** The "/BRG/NRQ" of a direction finding report. */
  predicate BearingTail(p: string)
    requires |p| == 8
  {
    p[0] == '/' && AllDigits(p[1..4]) && p[4] == '/' && AllDigits(p[5..8])
  }

  /** How many characters the data extension takes up at the start of the text behind the
      field; 0 when there is none. */
  function ExtensionLen(text: string): (n: nat)
    ensures n <= |text|
  {
    if |text| < 7 then 0
    else if "PHG" <= text then
      if !IsDigit(text[3]) || !HgdOk(text[4..7]) then 0
      else if |text| >= 9 && text[8] == '/' && (IsDigit(text[7]) || 'A' <= text[7] <= 'Z') then 9
      else 7
    else if "RNG" <= text then
      if AllDigits(text[3..7]) then 7 else 0
    else if "DFS" <= text then
      if IsDigit(text[3]) && HgdOk(text[4..7]) then 7 else 0
    else if text[3] == '/' && CourseGroup(text[0..3]) && CourseGroup(text[4..7]) then
      if |text| >= 15 && BearingTail(text[7..15]) then 15 else 7
    else 0
  }

  /** The seven characters of the slot, and what follows them. */
  lemma Slot(name: string, d: string, rest: string)
    requires |name| == 3 && |d| == 4
    ensures var text := name + d + rest;
            && |text| == 7 + |rest| && text[..3] == name && text[0] == name[0]
            && text[3] == d[0] && text[3..7] == d && text[4..7] == [d[1], d[2], d[3]]
            && (forall i :: 0 <= i < |rest| ==> text[7 + i] == rest[i])
  {
  }

  /** A power, height, gain and directivity group is seven characters, nine with a beacon
      rate and its slash. */
  lemma PhgLength(d: string, rest: string)
    requires |d| == 4
    ensures ExtensionLen("PHG" + d + rest)
         == if !AllDigits(d) || d[3] == '9' then 0
            else if |rest| >= 2 && rest[1] == '/' && (IsDigit(rest[0]) || IsUpper(rest[0])) then 9 else 7
  {
    Slot("PHG", d, rest);
  }

  lemma RangeLength(d: string, rest: string)
    requires |d| == 4
    ensures ExtensionLen("RNG" + d + rest) == if AllDigits(d) then 7 else 0
  {
    Slot("RNG", d, rest);
    assert "RNG"[0] == 'R';
  }

  lemma DfsLength(d: string, rest: string)
    requires |d| == 4
    ensures ExtensionLen("DFS" + d + rest) == if !AllDigits(d) || d[3] == '9' then 0 else 7
  {
    Slot("DFS", d, rest);
    assert "DFS"[0] == 'D';
  }

  /** A course and speed is seven characters, fifteen with a bearing behind it. */
  lemma CourseLength(course: string, speed: string, bearing: string, nrq: string, rest: string)
    requires |course| == |speed| == |bearing| == |nrq| == 3 && AllDigits(course) && AllDigits(speed)
    ensures ExtensionLen(course + "/" + speed + ("/" + bearing + "/" + nrq + rest))
         == if AllDigits(bearing) && AllDigits(nrq) then 15 else 7
  {
    var tail := "/" + bearing + "/" + nrq + rest;
    var text := course + "/" + speed + tail;
    assert text[0..3] == course && text[4..7] == speed && text[7..15] == tail[..8];
    assert text[7..15][1..4] == bearing && text[7..15][5..8] == nrq;
    assert text[0] == course[0] && IsDigit(text[0]);
  }

  /** No extension holds a '!', so none swallows the start of a token. */
  lemma NoMarkInExtension(text: string, i: nat)
    requires i < ExtensionLen(text)
    ensures text[i] != '!'
  {
    if "PHG" <= text || "RNG" <= text || "DFS" <= text {
      NoMarkInSlot(text, i);
    } else {
      NoMarkInCourse(text, i);
    }
  }

  lemma NoMarkInSlot(text: string, i: nat)
    requires i < ExtensionLen(text) && ("PHG" <= text || "RNG" <= text || "DFS" <= text)
    ensures text[i] != '!'
  {
    assert i < 3 ==> text[i] == text[..3][i];
    assert text[..3] == "PHG" || text[..3] == "RNG" || text[..3] == "DFS";
    assert 3 <= i < 7 ==> text[i] == text[3..7][i - 3];
    assert 4 <= i < 7 ==> text[i] == text[4..7][i - 4];
  }

  lemma NoMarkInCourse(text: string, i: nat)
    requires i < ExtensionLen(text) && !("PHG" <= text || "RNG" <= text || "DFS" <= text)
    ensures text[i] != '!'
  {
    assert i < 3 ==> text[i] == text[0..3][i];
    assert 4 <= i < 7 ==> text[i] == text[4..7][i - 4];
    if i >= 7 {
      var tail := text[7..15];
      assert text[i] == tail[i - 7];
      assert 8 <= i < 11 ==> tail[i - 7] == tail[1..4][i - 8];
      assert 12 <= i ==> tail[i - 7] == tail[5..8][i - 12];
    }
  }

  /** What follows the data extension. */
  function Comment(text: string): string {
    text[ExtensionLen(text)..]
  }

  function DecodeRefined(pos: string): Option<(real, real)> {
    match DecodeUncompressed(pos)
    case None => None
    case Some((la, lo)) =>
      match DaoIn(Comment(pos[UNCOMPRESSED_LEN..]), 0)
      case None => Some((la as real / 200.0, lo as real / 200.0))
      case Some((a, b)) => Some((Refined(la, a), Refined(lo, b)))
  }

  // ---- The round trip ----

  /** The third decimal of the minutes. */
  function ThirdDigit(x: real): real {
    (SplitOf(Abs(x)).thousandths % 10) as real * 0.001
  }

  /** No valid token stands between the data extension and the one built. */
  predicate TokenFirst(lat: real, lon: real, before: string, after: string) {
    var text := before + BuildDao(lat, lon) + after;
    forall i: nat :: ExtensionLen(text) <= i < |before| ==> !TokenAt(text, i)
  }

  /** The coordinate as measured, in minutes. */
  function Measured(x: real): real {
    var s := SplitOf(Abs(x));
    var m := (60_000 * s.deg + s.thousandths) as real / 1000.0;
    if x < 0.0 then -m else m
  }

  /** South or west of zero, a field of all zeros with a non-zero extra digit. */
  predicate LosesHemisphere(x: real) {
    var s := SplitOf(Abs(x));
    x < 0.0 && s.deg == 0 && s.thousandths / 10 == 0 && s.thousandths % 10 != 0
  }

  /** One axis after the round trip. */
  function Received(x: real): real {
    Refined(Signed(AxisCentre(Abs(x), 0), x < 0.0), ThirdDigit(x))
  }

  lemma AxisRefinedIff(x: real)
    ensures Received(x) == Measured(x) <==> !LosesHemisphere(x)
  {
    var s := SplitOf(Abs(x));
    var h, d := s.thousandths / 10, s.thousandths % 10;
    assert s.thousandths == 10 * h + d;
    assert AxisCentre(Abs(x), 0) == s.deg * 12_000 + 2 * h;
    var m := (60_000 * s.deg + s.thousandths) as real / 1000.0;
    assert (s.deg * 12_000 + 2 * h) as real / 200.0 + d as real * 0.001 == m;
  }

  lemma TokenIsToken(lat: real, lon: real, before: string, after: string)
    ensures var text, k := before + BuildDao(lat, lon) + after, |before|;
            && TokenAt(text, k)
            && AxisMinutes(text[k + 1], text[k + 2]) == ThirdDigit(lat)
            && AxisMinutes(text[k + 1], text[k + 3]) == ThirdDigit(lon)
  {
    var text, k := before + BuildDao(lat, lon) + after, |before|;
    assert text[k] == '!' && text[k + 1] == 'W' && text[k + 4] == '!';
    assert text[k + 2] == BuildDao(lat, lon)[2] && text[k + 3] == BuildDao(lat, lon)[3];
  }

  lemma RefineKnown(pos: string, la: int, lo: int, a: real, b: real)
    requires DecodeUncompressed(pos) == Some((la, lo)) && DaoIn(Comment(pos[UNCOMPRESSED_LEN..]), 0) == Some((a, b))
    ensures DecodeRefined(pos) == Some((Refined(la, a), Refined(lo, b)))
  {
  }

  lemma TokenBehind(text: string, n: nat, i: nat)
    requires n <= |text|
    ensures TokenAt(text[n..], i) <==> TokenAt(text, n + i)
  {
  }

  lemma SentDaoFound(lat: real, lon: real, before: string, after: string)
    requires TokenFirst(lat, lon, before, after)
    ensures DaoIn(Comment(before + BuildDao(lat, lon) + after), 0) == Some((ThirdDigit(lat), ThirdDigit(lon)))
  {
    hide ExtensionLen, AxisMinutes, TokenAt;
    var text := before + BuildDao(lat, lon) + after;
    var n := ExtensionLen(text);
    assert text[|before|] == '!';
    if n > |before| {
      NoMarkInExtension(text, |before|);
      assert false;
    }
    assert text[n..] == before[n..] + BuildDao(lat, lon) + after;
    TokenIsToken(lat, lon, before[n..], after);
    forall i: nat | i < |before| - n
      ensures !TokenAt(text[n..], i)
    {
      TokenBehind(text, n, i);
    }
    DaoInFinds(text[n..], 0, |before| - n);
  }

  /** At full precision the field and the extension together give back the measurement
      to the thousandth of a minute, whatever data extension and other text stand around
      the token, provided no other valid one precedes it - if and only if
      neither axis is a zero field south or west of zero. */
  lemma DaoRoundTripIff(lat: real, lon: real, table: char, code: char, before: string, after: string)
    requires -90.0 <= lat <= 90.0 && -180.0 <= lon <= 180.0
    requires TokenFirst(lat, lon, before, after)
    ensures DecodeRefined(Position(lat, lon, 0, table, code, before + BuildDao(lat, lon) + after))
         == Some((Measured(lat), Measured(lon)))
       <==> !LosesHemisphere(lat) && !LosesHemisphere(lon)
  {
    hide DecodeRefined, DecodeUncompressed, Position, Comment, BuildDao;
    var comment := before + BuildDao(lat, lon) + after;
    SentDaoFound(lat, lon, before, after);
    SplitBounded(Abs(lat), 90);
    SplitBounded(Abs(lon), 180);
    AmbiguityRoundTrip(lat, lon, 0, table, code, comment);
    PositionFields(lat, lon, 0, table, code, comment);
    RefineKnown(Position(lat, lon, 0, table, code, comment), Signed(AxisCentre(Abs(lat), 0), lat < 0.0),
                Signed(AxisCentre(Abs(lon), 0), lon < 0.0), ThirdDigit(lat), ThirdDigit(lon));
    AxisRefinedIff(lat);
    AxisRefinedIff(lon);
  }

  /** Where the hemisphere is lost the refinement goes the wrong way: what was measured
      south of the equator comes back just as far north of it. */
  lemma LostHemisphereFlips(x: real)
    requires LosesHemisphere(x)
    ensures Received(x) == -Measured(x) > 0.0
  {
    var s := SplitOf(Abs(x));
    assert AxisCentre(Abs(x), 0) == 0;
  }

  /** Five thousandths of a minute south of the equator is such a place. */
  lemma EquatorFlips()
    ensures LosesHemisphere(-1.0 / 12_000.0)
  {
    var a := 1.0 / 12_000.0;
    assert Abs(-1.0 / 12_000.0) == a;
    assert a.Floor == 0;
    assert (a - 0.0) * 60.0 * 1000.0 + 0.5 == 5.5;
    assert SplitOf(a) == Split(0, 5);
  }
}
