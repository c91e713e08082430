/** From a position to the report a receiver makes of it: every way an information field
    carries a position, either layout, and the kind the packet counts as. */
module Reports {
  import opened Common
  import opened CivilDate
  import opened Timestamp
  import opened Text
  import opened Base91
  import opened Minutes
  import opened Classifier

  /** The ways of carrying a position field: plain, behind a timestamp, as an object behind
      its name, state and timestamp, as an item behind its name and mark, and behind a late
      '!' in any other text. */
  datatype Carrier =
    | Plain(dti: char)
    | Stamped(dti: char, stamp: string)
    | ObjectAt(head: string)
    | ItemAt(name: string, mark: char)
    | Late(text: string)

  function Carry(k: Carrier, pos: string): string {
    match k
    case Plain(dti) => [dti] + pos
    case Stamped(dti, stamp) => [dti] + stamp + pos
    case ObjectAt(head) => ";" + head + pos
    case ItemAt(name, mark) => ")" + name + [mark] + pos
    case Late(text) => text + "!" + pos
  }

  /** The identifiers the decoder looks at itself, so that no late '!' is searched. */
  const DECODED_DTI: string := "!=/@;_$)},"

  /** The identifiers that settle the kind whatever follows. */
  const KIND_DTI: string := ":>?T#*<{%[&"

  predicate Legal(k: Carrier, pos: string) {
    match k
    case Plain(dti) => dti == '!' || dti == '='
    case Stamped(dti, stamp) => (dti == '/' || dti == '@') && |stamp| == 7
    case ObjectAt(head) => |head| == 17
    case ItemAt(name, mark) => 3 <= |name| <= 9 && '!' !in name && '_' !in name && (mark == '!' || mark == '_')
    case Late(text) =>
      && 0 < |text| < LATE_SCAN_MAX && text[0] !in DECODED_DTI && text[0] !in MIC_E_DTI && WellFormed(pos)
      && forall i: nat :: 0 < i < |text| ==> !LateAt(Carry(k, pos), i)
  }

  /** What stands where a timestamp would. */
  function StampOf(k: Carrier, pos: string, now: int, ref: Date): Option<Stamp> {
    match k
    case Stamped(_, stamp) => DecodeTimestamp7(stamp + pos, now, ref)
    case ObjectAt(head) => if |head| == 17 then DecodeTimestamp7(head[10..] + pos, now, ref) else None
    case _ => None
  }

  lemma ItemMarkBehind(info: string, i: nat, m: nat)
    requires 4 <= i <= m <= 10 && m < |info| && (info[m] == '!' || info[m] == '_')
    requires forall j :: i <= j < m ==> info[j] != '!' && info[j] != '_'
    ensures ItemMark(info, i) == Some(m)
    decreases m - i
  {
    if i < m {
      ItemMarkBehind(info, i + 1, m);
    }
  }

  lemma LateFound(text: string, pos: string)
    requires Legal(Late(text), pos)
    ensures LateOffset(text + "!" + pos) == |text| + 1
  {
    hide WellFormed;
    var info := text + "!" + pos;
    assert info[|text| + 1..] == pos;
    assert LateAt(info, |text|);
    assert Carry(Late(text), pos) == info;
    LateFromFirst(info, 1);
  }

  lemma ItemDecoded(name: string, mark: char, pos: string)
    requires Legal(ItemAt(name, mark), pos)
    ensures var info := ")" + name + [mark] + pos;
            ItemMark(info, 4) == Some(|name| + 1) && info[|name| + 2..] == pos
  {
    var info := ")" + name + [mark] + pos;
    assert forall j :: 1 <= j <= |name| ==> info[j] == name[j - 1];
    ItemMarkBehind(info, 4, |name| + 1);
  }

  /** Whatever carries it, the field is decoded from its own start. */
  lemma ReportedPosition(k: Carrier, pos: string, now: int, ref: Date,
                         micE: Option<(real, real)>, nmea: Option<(real, real)>)
    requires Legal(k, pos) && pos != ""
    ensures var report, stamp := Decode(Carry(k, pos), now, ref, micE, nmea), StampOf(k, pos, now, ref);
            && report == Timed(stamp, DecodeField(pos))
            && (report.Some? <==> stamp.Some? || DecodeField(pos).Some?)
            && (report.Some? ==> report.value.stamp == stamp && report.value.position == DecodeField(pos))
  {
    hide DecodeField, DecodeTimestamp7, DecodeMdhm, WellFormed, LateOffset, ItemMark;
    var info := Carry(k, pos);
    match k {
      case Plain(dti) => assert info[1..] == pos;
      case Stamped(dti, stamp) => assert info[1..] == stamp + pos && info[8..] == pos;
      case ObjectAt(head) => assert info[11..] == head[10..] + pos && info[18..] == pos;
      case ItemAt(name, mark) => ItemDecoded(name, mark, pos);
      case Late(text) =>
        LateFound(text, pos);
        assert info[|text| + 1..] == pos;
    }
  }

  // ---- Uncompressed positions ----

  /** No valid !DAO! token behind the data extension. */
  predicate NoToken(comment: string) {
    forall i: nat :: ExtensionLen(comment) <= i < |comment| ==> !TokenAt(comment, i)
  }

  lemma {:induction false} NoDaoFrom(text: string, i: nat)
    requires forall j: nat :: i <= j < |text| ==> !TokenAt(text, j)
    ensures DaoIn(text, i) == None
    decreases |text| - i
  {
    hide TokenAt;
    if i + 4 < |text| {
      NoDaoFrom(text, i + 1);
    }
  }

  lemma NoDao(comment: string)
    requires NoToken(comment)
    ensures DaoIn(Comment(comment), 0) == None
  {
    hide TokenAt, ExtensionLen;
    var n := ExtensionLen(comment);
    forall j: nat | j < |comment[n..]|
      ensures !TokenAt(comment[n..], j)
    {
      TokenBehind(comment, n, j);
    }
    NoDaoFrom(comment[n..], 0);
  }

  lemma SentStart(lat: real, lon: real, level: nat, table: char, code: char, comment: string)
    requires -90.0 <= lat <= 90.0 && -180.0 <= lon <= 180.0 && level <= 4
    ensures var pos := Minutes.Position(lat, lon, level, table, code, comment);
            && |pos| >= UNCOMPRESSED_LEN && IsDigit(pos[0]) && pos[UNCOMPRESSED_LEN..] == comment
            && pos[8] == table && pos[18] == code
            && CutFields(pos) == SentFields(SplitOf(Abs(lat)), lat >= 0.0, SplitOf(Abs(lon)), lon >= 0.0, level)
  {
    hide SentFields, LatText, LonText;
    SplitBounded(Abs(lat), 90);
    SplitBounded(Abs(lon), 180);
    PositionFields(lat, lon, level, table, code, comment);
    SentDegrees(SplitOf(Abs(lat)), lat >= 0.0, SplitOf(Abs(lon)), lon >= 0.0, level);
    var pos := Minutes.Position(lat, lon, level, table, code, comment);
    assert pos[0] == CutFields(pos).latDeg[0];
    TextLengths(lat, lon, level);
  }

  lemma SentDegrees(a: Split, north: bool, b: Split, east: bool, level: nat)
    requires a.deg < 100 && b.deg < 1000 && a.thousandths < 60_000 && b.thousandths < 60_000 && level <= 4
    ensures var f := SentFields(a, north, b, east, level);
            |f.latDeg| == 2 && IsDigit(f.latDeg[0])
  {
    hide BlankMinutes;
  }

  lemma TextLengths(lat: real, lon: real, level: nat)
    requires level <= 4
    ensures |LatText(lat, level)| == 8 && |LonText(lon, level)| == 9
  {
  }

  /** The coordinate reported is the centre of the box around the transmitted hundredths,
      in degrees, latitude first, unless a pole or the antimeridian is blanked. */
  lemma PositionReported(k: Carrier, lat: real, lon: real, level: nat, table: char, code: char, comment: string,
                         now: int, ref: Date, micE: Option<(real, real)>, nmea: Option<(real, real)>)
    requires -90.0 <= lat <= 90.0 && -180.0 <= lon <= 180.0 && level <= 4 && NoToken(comment)
    requires Legal(k, Minutes.Position(lat, lon, level, table, code, comment))
    ensures var pos := Minutes.Position(lat, lon, level, table, code, comment);
            var shown := level == 0 || (SplitOf(Abs(lat)).deg < 90 && SplitOf(Abs(lon)).deg < 180);
            var place := (Signed(AxisCentre(Abs(lat), level), lat < 0.0) as real / 12_000.0,
                          Signed(AxisCentre(Abs(lon), level), lon < 0.0) as real / 12_000.0);
            Decode(Carry(k, pos), now, ref, micE, nmea)
            == Timed(StampOf(k, pos, now, ref), if shown then Some(place) else None)
  {
    hide Legal, Carry, StampOf, Minutes.Position, CutFields, Comment, Decode, AxisCentre;
    var pos := Minutes.Position(lat, lon, level, table, code, comment);
    SentStart(lat, lon, level, table, code, comment);
    ReportedPosition(k, pos, now, ref, micE, nmea);
    AmbiguityRoundTrip(lat, lon, level, table, code, comment);
    NoDao(comment);
  }

  /** With the !DAO! token the measurement itself is reported, to the thousandth of a
      minute, if and only if neither axis loses its hemisphere. */
  lemma MeasurementReportedIff(k: Carrier, lat: real, lon: real, table: char, code: char, before: string, after: string,
                               now: int, ref: Date, micE: Option<(real, real)>, nmea: Option<(real, real)>)
    requires -90.0 <= lat <= 90.0 && -180.0 <= lon <= 180.0 && TokenFirst(lat, lon, before, after)
    requires Legal(k, Minutes.Position(lat, lon, 0, table, code, before + BuildDao(lat, lon) + after))
    ensures var pos := Minutes.Position(lat, lon, 0, table, code, before + BuildDao(lat, lon) + after);
            (Decode(Carry(k, pos), now, ref, micE, nmea)
             == Timed(StampOf(k, pos, now, ref), Some((Measured(lat) / 60.0, Measured(lon) / 60.0))))
            <==> !LosesHemisphere(lat) && !LosesHemisphere(lon)
  {
    hide Legal, Carry, StampOf, Minutes.Position, CutFields, Comment, Decode, BuildDao, Measured, LosesHemisphere,
         DecodeRefined, TokenFirst;
    var comment := before + BuildDao(lat, lon) + after;
    var pos := Minutes.Position(lat, lon, 0, table, code, comment);
    SentStart(lat, lon, 0, table, code, comment);
    ReportedPosition(k, pos, now, ref, micE, nmea);
    DaoRoundTripIff(lat, lon, table, code, before, after);
    MinutesAsDegrees(pos, Measured(lat), Measured(lon));
  }

  lemma MinutesAsDegrees(pos: string, a: real, b: real)
    requires pos != "" && IsDigit(pos[0])
    ensures DecodeField(pos) == Some((a / 60.0, b / 60.0)) <==> DecodeRefined(pos) == Some((a, b))
  {
    hide DecodeRefined;
  }

  // ---- Compressed positions ----

  /** A compressed position is reported to within half a quantisation step on either axis. */
  lemma CompressedReported(k: Carrier, lat: real, lon: real, table: char, code: char, csT: string, comment: string,
                           now: int, ref: Date, micE: Option<(real, real)>, nmea: Option<(real, real)>)
    requires -90.0 <= lat <= 90.0 && -180.0 <= lon <= 180.0 && |csT| == 3
    requires Legal(k, Field(lat, lon, table, code, csT) + comment)
    ensures var report := Decode(Carry(k, Field(lat, lon, table, code, csT) + comment), now, ref, micE, nmea);
            && report.Some? && report.value.position.Some?
            && -0.5 <= LAT_SCALE * (report.value.position.value.0 - lat) <= 0.5
            && -0.5 <= LON_SCALE * (report.value.position.value.1 - lon) <= 0.5
  {
    hide Legal, Carry, StampOf, Field, DecodeCompressed, Decode;
    var pos := Field(lat, lon, table, code, csT) + comment;
    CompressedRoundTrip(lat, lon, table, code, csT, comment);
    ReportedPosition(k, pos, now, ref, micE, nmea);
  }

  // ---- The kind of what is carried ----

  function PlainKind(k: Carrier): Kind {
    match k
    case ObjectAt(_) => Object
    case ItemAt(_, _) => Item
    case _ => Kind.Position
  }

  /** A weather station and a buoy are told by their symbol, whatever carries them. */
  function SentKind(k: Carrier, table: char, code: char): Kind {
    if code == '_' then Weather else if table == '/' && code == 'N' then Buoy else PlainKind(k)
  }

  lemma CarriedKind(k: Carrier, pos: string)
    requires Legal(k, pos) && pos != "" && (k.Late? ==> k.text[0] !in KIND_DTI)
    ensures Classify(Carry(k, pos)) == Some(BySymbol(pos, PlainKind(k)))
  {
    hide WellFormed, LateOffset, ItemMark, BySymbol, TelemetryMetadata;
    var info := Carry(k, pos);
    match k {
      case Plain(dti) => assert info[1..] == pos;
      case Stamped(dti, stamp) => assert info[8..] == pos;
      case ObjectAt(head) => assert info[18..] == pos;
      case ItemAt(name, mark) => ItemDecoded(name, mark, pos);
      case Late(text) =>
        LateFound(text, pos);
        assert info[|text| + 1..] == pos;
    }
  }

  /** The kind of an uncompressed position. */
  lemma PositionKind(k: Carrier, lat: real, lon: real, level: nat, table: char, code: char, comment: string)
    requires -90.0 <= lat <= 90.0 && -180.0 <= lon <= 180.0 && level <= 4
    requires Legal(k, Minutes.Position(lat, lon, level, table, code, comment))
    requires k.Late? ==> k.text[0] !in KIND_DTI
    ensures Classify(Carry(k, Minutes.Position(lat, lon, level, table, code, comment)))
         == Some(SentKind(k, table, code))
  {
    hide Legal, Carry, Classify, Minutes.Position, CutFields;
    SentStart(lat, lon, level, table, code, comment);
    CarriedKind(k, Minutes.Position(lat, lon, level, table, code, comment));
  }

  /** The kind of a compressed position; what is no symbol table was sent as '/'. */
  lemma CompressedKind(k: Carrier, lat: real, lon: real, table: char, code: char, csT: string, comment: string)
    requires -90.0 <= lat <= 90.0 && -180.0 <= lon <= 180.0 && |csT| == 3
    requires Legal(k, Field(lat, lon, table, code, csT) + comment)
    requires k.Late? ==> k.text[0] !in KIND_DTI
    ensures Classify(Carry(k, Field(lat, lon, table, code, csT) + comment))
         == Some(SentKind(k, if TableValid(table) then table else '/', code))
  {
    hide Legal, Carry, Classify, DecodeCompressed;
    var pos := Field(lat, lon, table, code, csT) + comment;
    OverlaySurvives(table);
    assert pos[0] == CompressedTable(table) && pos[9] == code;
    CarriedKind(k, pos);
  }

  lemma SentMinutes(h: nat, level: nat)
    requires h < 6000 && level <= 4
    ensures var m := BlankMinutes(h, level);
            && m[2] == '.' && MinuteByte(m[3]) && MinuteByte(m[4])
            && (IsDigit(m[0]) && IsDigit(m[1]) <==> level <= 2)
  {
  }

  lemma SentBytes(pos: string, f: Fields)
    requires |pos| >= UNCOMPRESSED_LEN && CutFields(pos) == f
    ensures |f.latDeg| == 2 && |f.latMin| == 5 && |f.lonDeg| == 3 && |f.lonMin| == 5
    ensures pos[0..4] == [f.latDeg[0], f.latDeg[1], f.latMin[0], f.latMin[1]]
    ensures pos[9..14] == [f.lonDeg[0], f.lonDeg[1], f.lonDeg[2], f.lonMin[0], f.lonMin[1]]
    ensures pos[4] == f.latMin[2] && pos[5] == f.latMin[3] && pos[6] == f.latMin[4] && pos[7] == f.ns
    ensures pos[14] == f.lonMin[2] && pos[15] == f.lonMin[3] && pos[16] == f.lonMin[4] && pos[17] == f.ew
  {
  }

  lemma FourDigits(a: char, b: char, c: char, d: char)
    ensures AllDigits([a, b, c, d]) <==> IsDigit(a) && IsDigit(b) && IsDigit(c) && IsDigit(d)
  {
    var s := [a, b, c, d];
    assert s[0] == a && s[1] == b && s[2] == c && s[3] == d;
  }

  lemma FiveDigits(a: char, b: char, c: char, d: char, e: char)
    ensures AllDigits([a, b, c, d, e]) <==> IsDigit(a) && IsDigit(b) && IsDigit(c) && IsDigit(d) && IsDigit(e)
  {
    var s := [a, b, c, d, e];
    assert s[0] == a && s[1] == b && s[2] == c && s[3] == d && s[4] == e;
  }

  lemma SentDegreeBytes(pos: string, a: Split, north: bool, b: Split, east: bool, level: nat)
    requires a.deg < 100 && b.deg < 1000 && a.thousandths < 60_000 && b.thousandths < 60_000 && level <= 4
    requires |pos| >= UNCOMPRESSED_LEN && CutFields(pos) == SentFields(a, north, b, east, level)
    ensures IsDigit(pos[0]) && IsDigit(pos[1]) && IsDigit(pos[9]) && IsDigit(pos[10]) && IsDigit(pos[11])
    ensures DigitAt(pos, 0) * 10 + DigitAt(pos, 1) == a.deg
    ensures DigitAt(pos, 9) * 100 + DigitAt(pos, 10) * 10 + DigitAt(pos, 11) == b.deg
  {
    hide BlankMinutes;
    var f := CutFields(pos);
    assert pos[0] == f.latDeg[0] && pos[1] == f.latDeg[1];
    assert pos[9] == f.lonDeg[0] && pos[10] == f.lonDeg[1] && pos[11] == f.lonDeg[2];
    assert b.deg / 10 / 10 == b.deg / 100;
  }

  /** The scan that accepts a late position takes exactly the fields with a valid symbol
      and no blank before the point: an ambiguity of three or four digits is turned away. */
  lemma SentAcceptedIff(lat: real, lon: real, level: nat, table: char, code: char, comment: string)
    requires -90.0 <= lat <= 90.0 && -180.0 <= lon <= 180.0 && level <= 4
    ensures WellFormed(Minutes.Position(lat, lon, level, table, code, comment))
       <==> level <= 2 && TableValid(table) && CodeValid(code)
  {
    hide Minutes.Position, CutFields, BlankMinutes, AllDigits, LatText, LonText, DigitAt, DigitChar, SplitOf;
    var a, b := SplitOf(Abs(lat)), SplitOf(Abs(lon));
    var pos := Minutes.Position(lat, lon, level, table, code, comment);
    SplitBounded(Abs(lat), 90);
    SplitBounded(Abs(lon), 180);
    var f := SentFields(a, lat >= 0.0, b, lon >= 0.0, level);
    SentStart(lat, lon, level, table, code, comment);
    SentBytes(pos, f);
    SentMinutes(a.thousandths / 10, level);
    SentMinutes(b.thousandths / 10, level);
    FourDigits(f.latDeg[0], f.latDeg[1], f.latMin[0], f.latMin[1]);
    FiveDigits(f.lonDeg[0], f.lonDeg[1], f.lonDeg[2], f.lonMin[0], f.lonMin[1]);
    SentDegreeBytes(pos, a, lat >= 0.0, b, lon >= 0.0, level);
  }

  /** Of the compressed fields, those with a valid symbol code and a course and speed token
      that is absent, blank or printable in base 91. */
  lemma CompressedAcceptedIff(lat: real, lon: real, table: char, code: char, csT: string, comment: string)
    requires |csT| == 3
    ensures WellFormed(Field(lat, lon, table, code, csT) + comment)
       <==> CodeValid(code) && ('\0' in csT || forall i :: 0 <= i < 3 ==> csT[i] == ' ' || Base91Byte(csT[i]))
  {
    hide LatValue, LonValue, Digits4, Clamp4, CompressedTable;
    OverlaySurvives(table);
    var a, b := Digits4(Clamp4(LatValue(lat))), Digits4(Clamp4(LonValue(lon)));
    var cs := if '\0' in csT then "   " else csT;
    var pos := Field(lat, lon, table, code, csT) + comment;
    assert pos == [CompressedTable(table)] + a + b + [code] + cs + comment;
    assert forall i :: 1 <= i <= 4 ==> pos[i] == a[i - 1];
    assert forall i :: 5 <= i <= 8 ==> pos[i] == b[i - 5];
    assert pos[9] == code && pos[10] == cs[0] && pos[11] == cs[1] && pos[12] == cs[2];
  }

  // ---- The kinds that carry no position field ----

  /** A message that names, scales or labels telemetry channels. */
  predicate Metadata(info: string) {
    |info| >= 16 && info[0] == ':' && info[10] == ':' && info[11..16] in {"PARM.", "UNIT.", "EQNS.", "BITS."}
  }

  lemma StartsWith(text: string, word: string)
    requires |word| == 5 <= |text|
    ensures word <= text <==> text[..5] == word
  {
  }

  lemma MetadataIff(info: string)
    requires info != "" && info[0] == ':'
    ensures Metadata(info) <==> |info| >= 16 && info[10] == ':' && TelemetryMetadata(info[11..])
  {
    if |info| >= 16 {
      var text := info[11..];
      assert text[..5] == info[11..16];
      StartsWith(text, "PARM.");
      StartsWith(text, "UNIT.");
      StartsWith(text, "EQNS.");
      StartsWith(text, "BITS.");
    }
  }

  /** Which identifiers a message, status report, query, telemetry and unclassifiable or
      other packet has, in both directions, and which an object and an item have. */
  lemma KindByIdentifier(info: string)
    requires info != ""
    ensures Classify(info) == Some(Message) <==> info[0] == ':' && !Metadata(info)
    ensures Classify(info) == Some(Telemetry) <==> info[0] == 'T' || Metadata(info)
    ensures Classify(info) == Some(Status) <==> info[0] == '>'
    ensures Classify(info) == Some(Query) <==> info[0] == '?'
    ensures Classify(info) == Some(Other) <==> info[0] in {'<', '{', '%', '[', '&'}
    ensures Classify(info) == Some(Object) ==> info[0] == ';'
    ensures Classify(info) == Some(Item) ==> info[0] == ')'
    ensures info[0] in {'_', '#', '*'} ==> Classify(info) == Some(Weather)
    ensures info[0] == '$' ==>
              Classify(info) == Some(if |info| >= 5 && info[..5] == "$ULTW" then Weather else Kind.Position)
    ensures info[0] in {'}', ','} ==> Classify(info) == None
  {
    hide WellFormed, LateOffset, ItemMark, Symbol, TelemetryMetadata;
    if info[0] == ':' {
      MetadataIff(info);
    } else if |info| >= 5 {
      StartsWith(info, "$ULTW");
    }
  }

  /** Mic-E keeps its symbol behind the position bytes, code first. */
  lemma MicEKind(info: string)
    requires |info| >= 9 && info[0] in {'`', '\'', '\U{1c}', '\U{1d}'}
    ensures Classify(info) == Some(if info[7] == '_' then Weather
                                   else if info[8] == '/' && info[7] == 'N' then Buoy else Kind.Position)
  {
    hide WellFormed, LateOffset, ItemMark, Symbol, TelemetryMetadata;
  }
}
