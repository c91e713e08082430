/** What kind of packet an information field is, which position it reports, and the scan
    for a position that starts further in. */
module Classifier {
  import opened Common
  import opened CivilDate
  import opened Timestamp
  import opened Text
  import opened Base91
  import opened Minutes

  /** The filter bits; an unclassified field has none. */
  datatype Kind =
    Message | Status | Telemetry | Weather | Object | Item | Query | Buoy | Position | Other

  const LATE_SCAN_MAX: nat := 40

  function Min(a: nat, b: nat): nat {
    if a < b then a else b
  }

  // ---- Symbols ----

  /** The symbol pair of a position field of either layout. */
  function Symbol(pos: string): Option<(char, char)> {
    if pos != "" && IsDigit(pos[0]) then
      if |pos| < UNCOMPRESSED_LEN then None else Some((pos[8], pos[18]))
    else
      if |pos| < 10 then None else Some((pos[0], pos[9]))
  }

  function BySymbol(pos: string, plain: Kind): Kind {
    match Symbol(pos)
    case None => plain
    case Some((table, code)) =>
      if code == '_' then Weather else if code == 'N' && table == '/' then Buoy else plain
  }

  // ---- The late position ----

  predicate WellFormedUncompressed(pos: string) {
    && |pos| >= UNCOMPRESSED_LEN
    && AllDigits(pos[0..4]) && pos[4] == '.' && MinuteByte(pos[5]) && MinuteByte(pos[6])
    && pos[7] in "NnSs" && TableValid(pos[8])
    && AllDigits(pos[9..14]) && pos[14] == '.' && MinuteByte(pos[15]) && MinuteByte(pos[16])
    && pos[17] in "EeWw"
    && DigitAt(pos, 0) * 10 + DigitAt(pos, 1) <= 90
    && DigitAt(pos, 9) * 100 + DigitAt(pos, 10) * 10 + DigitAt(pos, 11) <= 180
    && CodeValid(pos[18])
  }

  predicate WellFormedCompressed(pos: string) {
    && |pos| >= COMPRESSED_LEN
    && TableByteCompressed(pos[0])
    && (forall i :: 1 <= i <= 8 ==> Base91Byte(pos[i]))
    && CodeValid(pos[9])
    && (forall i :: 10 <= i <= 12 ==> pos[i] == ' ' || Base91Byte(pos[i]))
  }

  function DigitAt(pos: string, i: nat): int
    requires i < |pos|
  {
    pos[i] as int - '0' as int
  }

  predicate WellFormed(pos: string) {
    if pos != "" && IsDigit(pos[0]) then WellFormedUncompressed(pos) else WellFormedCompressed(pos)
  }

  predicate LateAt(info: string, i: nat) {
    i < |info| && info[i] == '!' && WellFormed(info[i + 1..])
  }

  /** Where the position starts behind the first late '!' at or after index i, 0 when
      there is none. */
  function LateFrom(info: string, i: nat): nat
    decreases |info| - i
  {
    if i >= Min(|info|, LATE_SCAN_MAX) then 0
    else if LateAt(info, i) then i + 1
    else LateFrom(info, i + 1)
  }

  function LateOffset(info: string): nat {
    LateFrom(info, 1)
  }

  method LatePositionOffset(info: string) returns (at: nat)
    ensures at == LateOffset(info)
  {
    var limit := if |info| < LATE_SCAN_MAX then |info| else LATE_SCAN_MAX;
    var i := 1;
    while i < limit
      invariant 1 <= i && LateFrom(info, i) == LateOffset(info)
    {
      if info[i] == '!' && WellFormed(info[i + 1..]) {
        return i + 1;
      }
      i := i + 1;
    }
    return 0;
  }

  /** The scan finds the first '!' within the first 40 characters, past the first, that
      a complete position field follows, and nothing else. */
  lemma {:induction false} LateFromFirst(info: string, i: nat)
    requires i >= 1
    ensures var at := LateFrom(info, i);
            && (at == 0 <==> forall j :: i <= j < Min(|info|, LATE_SCAN_MAX) ==> !LateAt(info, j))
            && (at != 0 ==> i < at <= LATE_SCAN_MAX && LateAt(info, at - 1)
                            && forall j :: i <= j < at - 1 ==> !LateAt(info, j))
    decreases |info| - i
  {
    hide LateAt;
    if i < Min(|info|, LATE_SCAN_MAX) && !LateAt(info, i) {
      LateFromFirst(info, i + 1);
    }
  }

  // ---- Items ----

  /** The end of an item's name: the first '!' or '_' at index 4 to 10. */
  function ItemMark(info: string, i: nat): Option<nat>
    decreases 11 - i
  {
    if i > 10 || i >= |info| then None
    else if info[i] == '!' || info[i] == '_' then Some(i)
    else ItemMark(info, i + 1)
  }

  method FindItemMark(info: string) returns (r: Option<nat>)
    ensures r == ItemMark(info, 4)
  {
    var i := 4;
    while i <= 10 && i < |info|
      invariant 4 <= i <= 11 && ItemMark(info, i) == ItemMark(info, 4)
    {
      if info[i] == '!' || info[i] == '_' {
        return Some(i);
      }
      i := i + 1;
    }
    return None;
  }

  predicate MarkAt(info: string, i: nat) {
    4 <= i <= 10 && i < |info| && (info[i] == '!' || info[i] == '_')
  }

  /** An item's name ends at the first mark behind three to nine characters; with none
      there the field is no item. */
  lemma {:induction false} ItemMarkFirst(info: string, i: nat)
    requires i >= 4
    ensures ItemMark(info, i).None? <==> forall j: nat :: i <= j ==> !MarkAt(info, j)
    ensures ItemMark(info, i).Some? ==>
              var m := ItemMark(info, i).value;
              i <= m && MarkAt(info, m) && forall j: nat :: i <= j < m ==> !MarkAt(info, j)
    decreases 11 - i
  {
    if i <= 10 && i < |info| && !MarkAt(info, i) {
      ItemMarkFirst(info, i + 1);
    }
  }

  // ---- Classification ----

  predicate TelemetryMetadata(text: string) {
    "PARM." <= text || "UNIT." <= text || "EQNS." <= text || "BITS." <= text
  }

  /** The four identifiers of Mic-E, current and old. */
  const MIC_E_DTI: string := "`'\U{1c}\U{1d}"

  function ClassifyPosition(info: string): Option<Kind>
    requires info != ""
  {
    var c := info[0];
    if c == '!' || c == '=' then
      if |info| < 2 then None else Some(BySymbol(info[1..], Position))
    else if c == '/' || c == '@' then
      if |info| < 9 then None else Some(BySymbol(info[8..], Position))
    else if c == ';' then
      if |info| < 19 then None else Some(BySymbol(info[18..], Object))
    else if c == ')' then
      match ItemMark(info, 4)
      case None => None
      case Some(i) => if i + 1 >= |info| then None else Some(BySymbol(info[i + 1..], Item))
    else if LateOffset(info) > 0 then
      LateFromFirst(info, 1);
      Some(BySymbol(info[LateOffset(info)..], Position))
    else None
  }

  function Classify(info: string): Option<Kind> {
    if info == "" then None
    else
      var c := info[0];
      if c == ':' then
        if |info| >= 16 && info[10] == ':' && TelemetryMetadata(info[11..]) then Some(Telemetry) else Some(Message)
      else if c == '>' then Some(Status)
      else if c == '?' then Some(Query)
      else if c == 'T' then Some(Telemetry)
      else if c == '_' || c == '#' || c == '*' then Some(Weather)
      else if c == '$' then Some(if "$ULTW" <= info then Weather else Position)
      else if c in MIC_E_DTI then
        if |info| >= 9 && info[7] == '_' then Some(Weather)
        else if |info| >= 9 && info[7] == 'N' && info[8] == '/' then Some(Buoy)
        else Some(Position)
      else if c in "<{%[&" then Some(Other)
      else if c == '}' || c == ',' then None
      else ClassifyPosition(info)
  }

  function ClassifyLine(line: string): Option<Kind> {
    var colon := IndexOf(line, ':');
    if colon + 1 >= |line| then None else Classify(line[colon + 1..])
  }

  /** A packet inside a third-party field is classified like any other. */
  function ClassifyInner(info: string): Option<Kind> {
    if info == "" || info[0] != '}' then None else ClassifyLine(info[1..])
  }

  // ---- Decoding ----

  /** Degrees north and east. The comment behind an uncompressed field may refine it. */
  function DecodeField(pos: string): Option<(real, real)> {
    if pos == "" then None
    else if IsDigit(pos[0]) then
      match DecodeRefined(pos)
      case None => None
      case Some((la, lo)) => Some((la / 60.0, lo / 60.0))
    else DecodeCompressed(pos)
  }

  datatype Report = Report(position: Option<(real, real)>, stamp: Option<Stamp>)

  function Timed(stamp: Option<Stamp>, position: Option<(real, real)>): Option<Report> {
    if stamp.Some? || position.Some? then Some(Report(position, stamp)) else None
  }

  function Placed(position: Option<(real, real)>): Option<Report> {
    Timed(None, position)
  }

  /** `micE` and `nmea` are what the Mic-E and NMEA decoders make of the field. */
  function Decode(info: string, now: int, ref: Date,
                  micE: Option<(real, real)>, nmea: Option<(real, real)>): Option<Report>
  {
    if info == "" then None
    else
      var c := info[0];
      if c == '!' || c == '=' then
        if |info| < 2 then None else Placed(DecodeField(info[1..]))
      else if c == '/' || c == '@' then
        if |info| < 9 then None
        else Timed(DecodeTimestamp7(info[1..], now, ref), DecodeField(info[8..]))
      else if c == ';' then
        if |info| < 19 then None
        else Timed(DecodeTimestamp7(info[11..], now, ref), DecodeField(info[18..]))
      else if c == '_' then Timed(DecodeMdhm(info[1..], now, ref), None)
      else if c == '$' then Placed(nmea)
      else if c == ')' then
        match ItemMark(info, 4)
        case None => None
        case Some(i) => if i + 1 >= |info| then None else Placed(DecodeField(info[i + 1..]))
      else if c in MIC_E_DTI then Placed(micE)
      else if c == '}' || c == ',' then None
      else if LateOffset(info) > 0 then
        LateFromFirst(info, 1);
        Placed(DecodeField(info[LateOffset(info)..]))
      else None
  }

  /** What decodes is always classified, and what reports a position is classified as
      something that has one - unless the position came from a late '!', which the decoder
      also looks for in messages, status reports and the other kinds. */
  lemma DecodedIsClassified(info: string, now: int, ref: Date, micE: Option<(real, real)>, nmea: Option<(real, real)>)
    ensures var r := Decode(info, now, ref, micE, nmea);
            && (r.Some? ==> Classify(info).Some?)
            && (r.Some? && r.value.position.Some? ==>
                  Classify(info).value in {Weather, Object, Item, Buoy, Position} || LateOffset(info) > 0)
  {
    hide DecodeField, DecodeTimestamp7, DecodeMdhm, WellFormed, LateFrom;
  }

  /** The first byte alone settles what the gateway keys on. */
  lemma KindOfDti(info: string)
    requires info != ""
    ensures info[0] == '}' ==> Classify(info) == None
    ensures info[0] == '?' ==> Classify(info) == Some(Query)
    ensures Classify(info) == Some(Query) ==> info[0] == '?'
    ensures Classify(info) == Some(Message) ==> info[0] == ':'
    ensures info[0] == ':' ==> Classify(info) in {Some(Message), Some(Telemetry)}
  {
    hide WellFormed, LateFrom, ItemMark;
  }

  // ---- The scan against the decoder ----

  /** Twice the hundredths the two fraction bytes stand for, a blank one for the middle
      of what it may be. */
  function Fraction2(a: char, b: char): nat
    requires MinuteByte(a) && MinuteByte(b)
  {
    if a == ' ' then 99
    else if b == ' ' then DigitValue(a) * 20 + 9
    else DigitValue(a) * 20 + DigitValue(b) * 2
  }

  predicate BlankThenDigit(a: char, b: char) {
    a == ' ' && b != ' '
  }

  function Latitude2(pos: string): nat
    requires WellFormedUncompressed(pos)
  {
    assert forall i :: 0 <= i < 4 ==> pos[i] == pos[0..4][i];
    (DigitAt(pos, 0) * 10 + DigitAt(pos, 1)) * 12_000 + DigitAt(pos, 2) * 2000 + DigitAt(pos, 3) * 200
    + Fraction2(pos[5], pos[6])
  }

  function Longitude2(pos: string): nat
    requires WellFormedUncompressed(pos)
  {
    assert forall i :: 0 <= i < 5 ==> pos[9 + i] == pos[9..14][i];
    (DigitAt(pos, 9) * 100 + DigitAt(pos, 10) * 10 + DigitAt(pos, 11)) * 12_000
    + DigitAt(pos, 12) * 2000 + DigitAt(pos, 13) * 200 + Fraction2(pos[15], pos[16])
  }

  lemma MinutesRead(f: string)
    requires |f| == 5 && IsDigit(f[0]) && IsDigit(f[1]) && f[2] == '.' && MinuteByte(f[3]) && MinuteByte(f[4])
    ensures Centre2(f) == if BlankThenDigit(f[3], f[4]) then None
                          else Some(DigitValue(f[0]) * 2000 + DigitValue(f[1]) * 200 + Fraction2(f[3], f[4]))
  {
    LowerUpperOf(f);
  }

  lemma Number2(s: string)
    requires |s| == 2 && AllDigits(s)
    ensures Number(s) == DigitValue(s[0]) * 10 + DigitValue(s[1])
  {
    assert s == [DigitChar(DigitValue(s[0])), DigitChar(DigitValue(s[1]))];
    NumberOf2(DigitValue(s[0]), DigitValue(s[1]));
  }

  lemma Number3(s: string)
    requires |s| == 3 && AllDigits(s)
    ensures Number(s) == DigitValue(s[0]) * 100 + DigitValue(s[1]) * 10 + DigitValue(s[2])
  {
    assert s == [DigitChar(DigitValue(s[0])), DigitChar(DigitValue(s[1])), DigitChar(DigitValue(s[2]))];
    NumberOf3(DigitValue(s[0]), DigitValue(s[1]), DigitValue(s[2]));
  }

  /** The cut fields of an accepted field, read. */
  lemma AcceptedFields(pos: string)
    requires WellFormedUncompressed(pos)
    ensures var f := CutFields(pos);
            && Layout(f)
            && Number(f.latDeg) == DigitAt(pos, 0) * 10 + DigitAt(pos, 1)
            && Number(f.lonDeg) == DigitAt(pos, 9) * 100 + DigitAt(pos, 10) * 10 + DigitAt(pos, 11)
  {
    var f := CutFields(pos);
    assert forall i :: 0 <= i < 2 ==> f.latDeg[i] == pos[0..4][i];
    assert forall i :: 0 <= i < 3 ==> f.lonDeg[i] == pos[9..14][i];
    Number2(f.latDeg);
    Number3(f.lonDeg);
  }

  lemma AcceptedMinutes(pos: string)
    requires WellFormedUncompressed(pos)
    ensures var f := CutFields(pos);
            && Centre2(f.latMin)
               == (if BlankThenDigit(pos[5], pos[6]) then None
                   else Some(DigitAt(pos, 2) * 2000 + DigitAt(pos, 3) * 200 + Fraction2(pos[5], pos[6])))
            && Centre2(f.lonMin)
               == (if BlankThenDigit(pos[15], pos[16]) then None
                   else Some(DigitAt(pos, 12) * 2000 + DigitAt(pos, 13) * 200 + Fraction2(pos[15], pos[16])))
  {
    var f := CutFields(pos);
    assert f.latMin[0] == pos[0..4][2] && f.latMin[1] == pos[0..4][3] && f.latMin[2] == pos[4];
    assert f.lonMin[0] == pos[9..14][3] && f.lonMin[1] == pos[9..14][4] && f.lonMin[2] == pos[14];
    MinutesRead(f.latMin);
    MinutesRead(f.lonMin);
  }

  lemma StartsWithDigit(pos: string)
    requires WellFormedUncompressed(pos)
    ensures |pos| >= UNCOMPRESSED_LEN && IsDigit(pos[0])
  {
    assert IsDigit(pos[0..4][0]);
  }

  /** An uncompressed field that the scan accepts decodes exactly when neither fraction
      is a blank followed by a digit and the coordinate stays within 90 and 180 degrees,
      and then to the coordinate its digits and hemispheres name, latitude first. */
  lemma AcceptedDecodesIff(pos: string)
    requires WellFormedUncompressed(pos)
    ensures DecodeField(pos).Some? <==>
              && !BlankThenDigit(pos[5], pos[6]) && !BlankThenDigit(pos[15], pos[16])
              && Latitude2(pos) <= 90 * 12_000 && Longitude2(pos) <= 180 * 12_000
    ensures DecodeField(pos).Some? && DaoIn(Comment(pos[UNCOMPRESSED_LEN..]), 0).None? ==>
              DecodeField(pos).value == (Signed(Latitude2(pos), pos[7] in "Ss") as real / 12_000.0,
                                         Signed(Longitude2(pos), pos[17] in "Ww") as real / 12_000.0)
  {
    hide WellFormedUncompressed, Layout, Centre2, DaoIn, Comment;
    StartsWithDigit(pos);
    AcceptedFields(pos);
    AcceptedMinutes(pos);
  }

  /** No accepted field lies further beyond a pole or the antimeridian than the hundred
      minutes that its two digits can spell. */
  lemma AcceptedBounds(pos: string)
    requires WellFormedUncompressed(pos)
    ensures Latitude2(pos) < 90 * 12_000 + 100 * 200 && Longitude2(pos) < 180 * 12_000 + 100 * 200
  {
    hide IsDigit;
    MinuteBounds(pos);
  }

  lemma MinuteBounds(pos: string)
    requires WellFormedUncompressed(pos)
    ensures Fraction2(pos[5], pos[6]) < 200 && Fraction2(pos[15], pos[16]) < 200
    ensures 0 <= DigitAt(pos, 2) <= 9 && 0 <= DigitAt(pos, 3) <= 9
    ensures 0 <= DigitAt(pos, 12) <= 9 && 0 <= DigitAt(pos, 13) <= 9
  {
    assert forall i :: 0 <= i < 4 ==> pos[i] == pos[0..4][i];
    assert forall i :: 0 <= i < 5 ==> pos[9 + i] == pos[9..14][i];
  }

  /** A compressed field that the scan accepts always decodes. */
  lemma AcceptedCompressedDecodes(pos: string)
    requires WellFormedCompressed(pos)
    ensures DecodeField(pos).Some?
  {
    ValueOf4(pos[1..5]);
    ValueOf4(pos[5..9]);
  }

  lemma LateOnly(info: string, now: int, ref: Date, micE: Option<(real, real)>, nmea: Option<(real, real)>)
    requires info != "" && info[0] == 'X' && 0 < LateOffset(info) <= |info|
    ensures Classify(info) == Some(BySymbol(info[LateOffset(info)..], Position))
    ensures Decode(info, now, ref, micE, nmea) == Placed(DecodeField(info[LateOffset(info)..]))
  {
    hide BySymbol, DecodeField, LateOffset, ItemMark, DecodeTimestamp7, DecodeMdhm, TelemetryMetadata;
  }

  lemma LateBlankThenDigit(pos: string, now: int, ref: Date,
                           micE: Option<(real, real)>, nmea: Option<(real, real)>)
    requires WellFormedUncompressed(pos) && BlankThenDigit(pos[5], pos[6]) && BySymbol(pos, Position) == Position
    ensures Classify("X!" + pos) == Some(Position) && Decode("X!" + pos, now, ref, micE, nmea) == None
  {
    hide WellFormedUncompressed, BlankThenDigit, BySymbol, DecodeField, Classify, Decode;
    var info := "X!" + pos;
    assert info[2..] == pos;
    AcceptedDecodesIff(pos);
    StartsWithDigit(pos);
    assert LateAt(info, 1);
    LateOnly(info, now, ref, micE, nmea);
  }

  const BLANK_THEN_DIGIT: string := "1234. 5N/01234.56E>"

  lemma BlankThenDigitAccepted()
    ensures WellFormedUncompressed(BLANK_THEN_DIGIT)
    ensures BlankThenDigit(BLANK_THEN_DIGIT[5], BLANK_THEN_DIGIT[6])
    ensures BySymbol(BLANK_THEN_DIGIT, Position) == Position
  {
    var pos := BLANK_THEN_DIGIT;
    assert pos[0..4] == "1234" && pos[9..14] == "01234";
    assert AllDigits("1234") && AllDigits("01234");
  }

  /** So a late position that is classified is not always decodable: here the fraction
      is a blank and then a digit. */
  lemma ClassifiedButUndecodable(now: int, ref: Date, micE: Option<(real, real)>, nmea: Option<(real, real)>)
    ensures var info := "X!" + BLANK_THEN_DIGIT;
            Classify(info) == Some(Position) && Decode(info, now, ref, micE, nmea) == None
  {
    BlankThenDigitAccepted();
    LateBlankThenDigit(BLANK_THEN_DIGIT, now, ref, micE, nmea);
  }
}
