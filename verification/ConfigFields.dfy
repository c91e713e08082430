/** The settings of five configuration files, as a table: each field's key in its file and
    what its reader does with a value it finds there. */
module ConfigFields {
  import opened Common
  import opened JsonText

  datatype RadioField =
    | ModemEn | Preamble | TxTail | TxBuffers | TimeSlot | Persist | SlotTime | BusyMax | MinUnkey | DutyEn
    | DutyPct | AmplPct | DacRate | MaxKeyed | RxPreset | RxCount | RxTilt0 | RxTilt1 | RxTilt2 | RxLowEdge
    | RxHighEdge | RxTaps | RxGate | RxHighPass | RxAgcMode | RxAgcGain | RxFixBits | RxBlank

  datatype IGateField =
    | Inet2Rf | Budlist | DupSize | DupTimeout | Rf2InetRangeKm | RangeEn | RangeKm | PositionRequired
    | HeardOnly | MinInterval | MsgGate | LocalWindow | MsgMaxHops | Servers | Mycall | IGateSymbol | ExtType
    | RangeMiles | DfsStrength | DfBearing | DfN | DfR | DfQ

  datatype BrandMeisterField =
    | BmEn | BmMonitor | BmMsgInetOnly | BmGateways

  datatype DigipeaterField =
    | DigiEn | Alias | AliasMaxN | AliasMode | Preempt | DigiSymbol | DigiExtType | DigiRangeMiles
    | DigiDfsStrength | DigiDfBearing | DigiDfN | DigiDfR | DigiDfQ | Paths

  datatype TrackerField =
    | MicEMsg | TrackerSymbol | SbEn | SlowInterval | FastInterval | LowSpeed | HighSpeed | TurnAngle
    | TurnSlope | MinTurnTime

  datatype Field =
    | Radio(radio: RadioField)
    | IGate(igate: IGateField)
    | BrandMeister(brand: BrandMeisterField)
    | Digipeater(digi: DigipeaterField)
    | Tracker(tracker: TrackerField)

  datatype Section = RadioFile | IGateFile | BrandMeisterFile | DigipeaterFile | TrackerFile

  // The settings the load looks at together.
  const MONITOR := BrandMeister(BmMonitor)
  const INET_TO_RF := IGate(Inet2Rf)
  const RANGE_GATE := IGate(RangeEn)
  const RANGE_KM := IGate(RangeKm)
  const LOW_SPEED := Tracker(LowSpeed)
  const HIGH_SPEED := Tracker(HighSpeed)

  const U8 := 255
  const U16 := 65_535
  const U32 := 0xFFFF_FFFF
  const I32 := 0x7FFF_FFFF

  /** How a reader brings a number into range. Clamp, OneOf, Reset, AtLeast and Wrap360
      narrow the number to the field's C type first; Early, Snap and Odd bound it before
      they narrow it. */
  datatype Fix =
    | Clamp(castLo: int, castHi: int, lo: int, hi: int)
    | Early(lo: int, hi: int)
    | OneOf(castHi: int, low: int, high: int)
    | Reset(castHi: int, top: int, fallback: int)
    | AtLeast(castHi: int, low: int, fallback: int)
    | Snap(top: int, fallback: int)
    | Odd(lo: int, hi: int)
    | Wrap360

  /** The bounds of a rule fit its cast. */
  predicate FixOk(fix: Fix) {
    match fix
    case Clamp(castLo, castHi, lo, hi) => castLo <= lo <= hi <= castHi
    case Early(lo, hi) => lo <= hi
    case OneOf(castHi, low, high) => 0 <= low <= high <= castHi
    case Reset(castHi, top, fallback) => 0 <= fallback <= top <= castHi
    case AtLeast(castHi, low, fallback) => 0 <= low <= fallback <= castHi
    case Snap(top, fallback) => 0 <= fallback <= top
    case Odd(lo, hi) => lo <= hi && hi % 2 == 1
    case Wrap360 => true
  }

  type Rule = fix: Fix | FixOk(fix) witness Wrap360

  type Size = n: nat | n > 0 witness 1

  /** A distance may be a fraction. Texts, Numbers and Hosts are arrays of fixed length, Hosts of three items a server;
      a text field holds `size` - 1 characters, and a symbol two. */
  datatype Shape =
    | Flag
    | Number(fix: Rule)
    | Distance(top: nat)
    | Text(size: Size)
    | Symbol
    | Texts(count: nat, size: Size)
    | Numbers(count: nat, fix: Rule)
    | Hosts(count: nat, size: Size, port: Rule)

  function ShapeOf(f: Field): Shape {
    match f
    case Radio(r) => RadioShape(r)
    case IGate(g) => IGateShape(g)
    case BrandMeister(b) => BrandMeisterShape(b)
    case Digipeater(d) => DigipeaterShape(d)
    case Tracker(t) => TrackerShape(t)
  }

  function RadioShape(r: RadioField): Shape {
    match r
    case ModemEn => Flag
    case Preamble => Number(Clamp(0, U16, 50, 2000))
    case TxTail => Number(Early(0, 500))
    case TxBuffers => Number(Clamp(0, U8, 1, 11))
    case TimeSlot => Number(Clamp(0, U16, 0, 10_000))
    case Persist => Number(Clamp(0, U8, 1, U8))
    case SlotTime => Number(Early(10, 2550))
    case BusyMax => Number(Early(0, 600))
    case MinUnkey => Number(Clamp(0, U16, 0, 5000))
    case DutyEn => Flag
    case DutyPct => Number(Clamp(0, U8, 1, 100))
    case AmplPct => Number(Clamp(0, U8, 20, 100))
    case DacRate => Number(OneOf(U32, 38_400, 76_800))
    case MaxKeyed => Number(Clamp(0, U32, 0, 60_000))
    case RxPreset => Number(Snap(6, 5))
    case RxCount => Number(Early(1, 3))
    case RxTilt0 => Number(Early(-9, 9))
    case RxTilt1 => Number(Early(-9, 9))
    case RxTilt2 => Number(Early(-9, 9))
    case RxLowEdge => Number(Early(600, 1100))
    case RxHighEdge => Number(Early(2300, 3000))
    case RxTaps => Number(Odd(9, 31))
    case RxGate => Number(Early(0, 50))
    case RxHighPass => Number(Early(0, 800))
    case RxAgcMode => Number(Snap(1, 0))
    case RxAgcGain => Number(Early(-12, 18))
    case RxFixBits => Number(Early(0, 2))
    case RxBlank => Flag
  }

  function IGateShape(g: IGateField): Shape {
    match g
    case Inet2Rf => Flag
    case Budlist => Texts(8, 10)
    case DupSize => Number(Early(4, 40))
    case DupTimeout => Number(Clamp(0, U32, 1000, 120_000))
    case Rf2InetRangeKm => Distance(20_038)
    case RangeEn => Flag
    case RangeKm => Distance(20_038)
    case PositionRequired => Flag
    case HeardOnly => Flag
    case MinInterval => Number(Clamp(-I32 - 1, I32, 0, 3600))
    case MsgGate => Flag
    case LocalWindow => Number(Clamp(0, U16, 60, 3600))
    case MsgMaxHops => Number(Clamp(-I32 - 1, I32, 0, 8))
    case Servers => Hosts(4, 20, AtLeast(U16, 1, 14_580))
    case Mycall => Text(10)
    case IGateSymbol => Symbol
    case ExtType => Number(Reset(U8, 3, 0))
    case RangeMiles => Number(Clamp(0, U16, 0, 9999))
    case DfsStrength => Number(Clamp(0, U8, 0, 9))
    case DfBearing => Number(Wrap360)
    case DfN => Number(Clamp(-I32 - 1, I32, 0, 9))
    case DfR => Number(Clamp(-I32 - 1, I32, 0, 9))
    case DfQ => Number(Clamp(-I32 - 1, I32, 0, 9))
  }

  function BrandMeisterShape(b: BrandMeisterField): Shape {
    match b
    case BmEn => Flag
    case BmMonitor => Flag
    case BmMsgInetOnly => Flag
    case BmGateways => Texts(4, 10)
  }

  function DigipeaterShape(d: DigipeaterField): Shape {
    match d
    case DigiEn => Flag
    case Alias => Texts(4, 7)
    case AliasMaxN => Numbers(4, Clamp(0, U8, 1, 7))
    case AliasMode => Numbers(4, Reset(U8, 2, 0))
    case Preempt => Number(Reset(U8, 2, 0))
    case DigiSymbol => Symbol
    case DigiExtType => Number(Reset(U8, 3, 0))
    case DigiRangeMiles => Number(Clamp(0, U16, 0, 9999))
    case DigiDfsStrength => Number(Clamp(0, U8, 0, 9))
    case DigiDfBearing => Number(Wrap360)
    case DigiDfN => Number(Clamp(-I32 - 1, I32, 0, 9))
    case DigiDfR => Number(Clamp(-I32 - 1, I32, 0, 9))
    case DigiDfQ => Number(Clamp(-I32 - 1, I32, 0, 9))
    case Paths => Texts(4, 72)
  }

  function TrackerShape(t: TrackerField): Shape {
    match t
    case MicEMsg => Number(Reset(U8, 13, 0))
    case TrackerSymbol => Symbol
    case SbEn => Flag
    case SlowInterval => Number(Clamp(-I32 - 1, I32, 30, U16))
    case FastInterval => Number(Clamp(-I32 - 1, I32, 5, U16))
    case LowSpeed => Number(Clamp(-I32 - 1, I32, 0, 999))
    case HighSpeed => Number(Clamp(-I32 - 1, I32, 0, 999))
    case TurnAngle => Number(Clamp(-I32 - 1, I32, 1, 180))
    case TurnSlope => Number(Clamp(-I32 - 1, I32, 0, 3600))
    case MinTurnTime => Number(Clamp(-I32 - 1, I32, 0, 3600))
  }

  function Name(f: Field): string {
    match f
    case Radio(r) => RadioName(r)
    case IGate(g) => IGateName(g)
    case BrandMeister(b) => BrandMeisterName(b)
    case Digipeater(d) => DigipeaterName(d)
    case Tracker(t) => TrackerName(t)
  }

  function RadioName(r: RadioField): string {
    match r
    case ModemEn => "audioModemEn"
    case Preamble => "rfPreamble"
    case TxTail => "rfTxTail"
    case TxBuffers => "rfTxBuffers"
    case TimeSlot => "txTimeSlot"
    case Persist => "csmaPersist"
    case SlotTime => "csmaSlotTime"
    case BusyMax => "csmaBusyMax"
    case MinUnkey => "pttMinUnkeyMs"
    case DutyEn => "dutyCycleEn"
    case DutyPct => "dutyCyclePct"
    case AmplPct => "dacAmplPct"
    case DacRate => "dacRate"
    case MaxKeyed => "txMaxKeyedMs"
    case RxPreset => "rxEqPreset"
    case RxCount => "rxEqCount"
    case RxTilt0 => "rxTilt0"
    case RxTilt1 => "rxTilt1"
    case RxTilt2 => "rxTilt2"
    case RxLowEdge => "rxBpfLoHz"
    case RxHighEdge => "rxBpfHiHz"
    case RxTaps => "rxBpfTaps"
    case RxGate => "rxGateMv"
    case RxHighPass => "rxHpfHz"
    case RxAgcMode => "rxAgcMode"
    case RxAgcGain => "rxAgcGainDb"
    case RxFixBits => "rxFixBits"
    case RxBlank => "rxBlank"
  }

  function IGateName(g: IGateField): string {
    match g
    case Inet2Rf => "inet2rf"
    case Budlist => "budlist"
    case DupSize => "dupCacheSize"
    case DupTimeout => "dupCacheTimeoutMs"
    case Rf2InetRangeKm => "rf2inetRangeKm"
    case RangeEn => "inet2rfRangeEn"
    case RangeKm => "inet2rfRangeKm"
    case PositionRequired => "inet2rfPositionRequired"
    case HeardOnly => "inet2rfHeardOnly"
    case MinInterval => "inet2rfMinIntervalSec"
    case MsgGate => "igateMsgGateEn"
    case LocalWindow => "igateLocalWindowSec"
    case MsgMaxHops => "igateMsgMaxHops"
    case Servers => "igateServers"
    case Mycall => "igateMycall"
    case IGateSymbol => "igateSymbol"
    case ExtType => "igateExtType"
    case RangeMiles => "igateRng"
    case DfsStrength => "igateDfsS"
    case DfBearing => "igateDfBrg"
    case DfN => "igateDfN"
    case DfR => "igateDfR"
    case DfQ => "igateDfQ"
  }

  function BrandMeisterName(b: BrandMeisterField): string {
    match b
    case BmEn => "bmEn"
    case BmMonitor => "bmMonitor"
    case BmMsgInetOnly => "bmMsgInetOnly"
    case BmGateways => "bmGateways"
  }

  function DigipeaterName(d: DigipeaterField): string {
    match d
    case DigiEn => "digiEn"
    case Alias => "digiAlias"
    case AliasMaxN => "digiAliasMaxN"
    case AliasMode => "digiAliasMode"
    case Preempt => "digiPreempt"
    case DigiSymbol => "digiSymbol"
    case DigiExtType => "digiExtType"
    case DigiRangeMiles => "digiRng"
    case DigiDfsStrength => "digiDfsS"
    case DigiDfBearing => "digiDfBrg"
    case DigiDfN => "digiDfN"
    case DigiDfR => "digiDfR"
    case DigiDfQ => "digiDfQ"
    case Paths => "path"
  }

  function TrackerName(t: TrackerField): string {
    match t
    case MicEMsg => "trkMiceMsg"
    case TrackerSymbol => "trkSymbol"
    case SbEn => "trkSbEn"
    case SlowInterval => "trkSbSlowIntv"
    case FastInterval => "trkSbFastIntv"
    case LowSpeed => "trkSbLowSpd"
    case HighSpeed => "trkSbHighSpd"
    case TurnAngle => "trkSbTurnAngle"
    case TurnSlope => "trkSbTurnSlope"
    case MinTurnTime => "trkSbMinTurnTime"
  }

  function SectionOf(f: Field): Section {
    match f
    case Radio(_) => RadioFile
    case IGate(_) => IGateFile
    case BrandMeister(_) => BrandMeisterFile
    case Digipeater(_) => DigipeaterFile
    case Tracker(_) => TrackerFile
  }

  /** Where a field stands in its file. */
  function Place(f: Field): nat {
    match f
    case Radio(r) => RadioPlace(r)
    case IGate(g) => IGatePlace(g)
    case BrandMeister(b) => BrandMeisterPlace(b)
    case Digipeater(d) => DigipeaterPlace(d)
    case Tracker(t) => TrackerPlace(t)
  }

  function RadioPlace(r: RadioField): nat {
    match r
    case ModemEn => 0 case Preamble => 1 case TxTail => 2 case TxBuffers => 3 case TimeSlot => 4
    case Persist => 5 case SlotTime => 6 case BusyMax => 7 case MinUnkey => 8 case DutyEn => 9
    case DutyPct => 10 case AmplPct => 11 case DacRate => 12 case MaxKeyed => 13 case RxPreset => 14
    case RxCount => 15 case RxTilt0 => 16 case RxTilt1 => 17 case RxTilt2 => 18 case RxLowEdge => 19
    case RxHighEdge => 20 case RxTaps => 21 case RxGate => 22 case RxHighPass => 23 case RxAgcMode => 24
    case RxAgcGain => 25 case RxFixBits => 26 case RxBlank => 27
  }

  function IGatePlace(g: IGateField): nat {
    match g
    case Inet2Rf => 0 case Budlist => 1 case DupSize => 2 case DupTimeout => 3 case Rf2InetRangeKm => 4
    case RangeEn => 5 case RangeKm => 6 case PositionRequired => 7 case HeardOnly => 8 case MinInterval => 9
    case MsgGate => 10 case LocalWindow => 11 case MsgMaxHops => 12 case Servers => 13 case Mycall => 14
    case IGateSymbol => 15 case ExtType => 16 case RangeMiles => 17 case DfsStrength => 18 case DfBearing => 19
    case DfN => 20 case DfR => 21 case DfQ => 22
  }

  function BrandMeisterPlace(b: BrandMeisterField): nat {
    match b
    case BmEn => 0 case BmMonitor => 1 case BmMsgInetOnly => 2 case BmGateways => 3
  }

  function DigipeaterPlace(d: DigipeaterField): nat {
    match d
    case DigiEn => 0 case Alias => 1 case AliasMaxN => 2 case AliasMode => 3 case Preempt => 4
    case DigiSymbol => 5 case DigiExtType => 6 case DigiRangeMiles => 7 case DigiDfsStrength => 8
    case DigiDfBearing => 9 case DigiDfN => 10 case DigiDfR => 11 case DigiDfQ => 12 case Paths => 13
  }

  function TrackerPlace(t: TrackerField): nat {
    match t
    case MicEMsg => 0 case TrackerSymbol => 1 case SbEn => 2 case SlowInterval => 3 case FastInterval => 4
    case LowSpeed => 5 case HighSpeed => 6 case TurnAngle => 7 case TurnSlope => 8 case MinTurnTime => 9
  }

  /** The fields of a file, in the order they are written. */
  function Fields(s: Section): seq<Field> {
    match s
    case RadioFile => RadioFields()
    case IGateFile => IGateFields()
    case BrandMeisterFile => BrandMeisterFields()
    case DigipeaterFile => DigipeaterFields()
    case TrackerFile => TrackerFields()
  }

  function RadioFields(): seq<Field> {
    TransmitFields() + ReceiveFields()
  }

  function TransmitFields(): seq<Field> {
    [
      Radio(ModemEn), Radio(Preamble), Radio(TxTail), Radio(TxBuffers), Radio(TimeSlot), Radio(Persist),
      Radio(SlotTime), Radio(BusyMax), Radio(MinUnkey), Radio(DutyEn), Radio(DutyPct), Radio(AmplPct),
      Radio(DacRate), Radio(MaxKeyed)
    ]
  }

  function ReceiveFields(): seq<Field> {
    [
      Radio(RxPreset), Radio(RxCount), Radio(RxTilt0), Radio(RxTilt1), Radio(RxTilt2), Radio(RxLowEdge),
      Radio(RxHighEdge), Radio(RxTaps), Radio(RxGate), Radio(RxHighPass), Radio(RxAgcMode), Radio(RxAgcGain),
      Radio(RxFixBits), Radio(RxBlank)
    ]
  }

  function IGateFields(): seq<Field> {
    GatingFields() + StationFields()
  }

  function GatingFields(): seq<Field> {
    [
      IGate(Inet2Rf), IGate(Budlist), IGate(DupSize), IGate(DupTimeout), IGate(Rf2InetRangeKm), IGate(RangeEn),
      IGate(RangeKm), IGate(PositionRequired), IGate(HeardOnly), IGate(MinInterval), IGate(MsgGate),
      IGate(LocalWindow), IGate(MsgMaxHops)
    ]
  }

  function StationFields(): seq<Field> {
    [
      IGate(Servers), IGate(Mycall), IGate(IGateSymbol), IGate(ExtType), IGate(RangeMiles), IGate(DfsStrength),
      IGate(DfBearing), IGate(DfN), IGate(DfR), IGate(DfQ)
    ]
  }

  function BrandMeisterFields(): seq<Field> {
    [
      BrandMeister(BmEn), BrandMeister(BmMonitor), BrandMeister(BmMsgInetOnly), BrandMeister(BmGateways)
    ]
  }

  function DigipeaterFields(): seq<Field> {
    [
      Digipeater(DigiEn), Digipeater(Alias), Digipeater(AliasMaxN), Digipeater(AliasMode), Digipeater(Preempt),
      Digipeater(DigiSymbol), Digipeater(DigiExtType), Digipeater(DigiRangeMiles), Digipeater(DigiDfsStrength),
      Digipeater(DigiDfBearing), Digipeater(DigiDfN), Digipeater(DigiDfR), Digipeater(DigiDfQ), Digipeater(Paths)
    ]
  }

  function TrackerFields(): seq<Field> {
    [
      Tracker(MicEMsg), Tracker(TrackerSymbol), Tracker(SbEn), Tracker(SlowInterval), Tracker(FastInterval),
      Tracker(LowSpeed), Tracker(HighSpeed), Tracker(TurnAngle), Tracker(TurnSlope), Tracker(MinTurnTime)
    ]
  }

  /** Tells the keys apart by their length and a letter or two. */
  function FieldOf(s: string): Option<Field> {
    if |s| == 4 then
      if s[0] == 'b' then Some(BrandMeister(BmEn)) else Some(Digipeater(Paths))
    else if |s| == 6 then Some(Digipeater(DigiEn))
    else if |s| == 7 then
      if s[6] == 'e' then Some(Radio(DacRate)) else if s[6] == '0' then Some(Radio(RxTilt0)) else
      if s[6] == '1' then Some(Radio(RxTilt1)) else if s[6] == '2' then Some(Radio(RxTilt2)) else
      if s[6] == 'z' then Some(Radio(RxHighPass)) else if s[6] == 'k' then Some(Radio(RxBlank)) else
      if s[6] == 'f' then Some(IGate(Inet2Rf)) else if s[6] == 't' then Some(IGate(Budlist)) else
      if s[6] == 'g' then Some(Digipeater(DigiRangeMiles)) else
      if s[6] == 'N' then Some(Digipeater(DigiDfN)) else if s[6] == 'R' then Some(Digipeater(DigiDfR)) else
      if s[6] == 'Q' then Some(Digipeater(DigiDfQ)) else Some(Tracker(SbEn))
    else if |s| == 8 then
      if s[7] == 'l' then Some(Radio(TxTail)) else if s[7] == 'v' then Some(Radio(RxGate)) else
      if s[7] == 'g' then Some(IGate(RangeMiles)) else if s[7] == 'N' then Some(IGate(DfN)) else
      if s[7] == 'R' then Some(IGate(DfR)) else if s[7] == 'Q' then Some(IGate(DfQ)) else
      Some(Digipeater(DigiDfsStrength))
    else if |s| == 9 then
      if s[5] == 'o' then Some(Radio(RxCount)) else if s[5] == 'L' then Some(Radio(RxLowEdge)) else
      if s[5] == 'H' then Some(Radio(RxHighEdge)) else if s[5] == 'T' then Some(Radio(RxTaps)) else
      if s[5] == 'M' then Some(Radio(RxAgcMode)) else if s[5] == 'B' then Some(Radio(RxFixBits)) else
      if s[5] == 'D' then Some(IGate(DfsStrength)) else if s[5] == 'i' then Some(BrandMeister(BmMonitor)) else
      if s[5] == 'l' then Some(Digipeater(Alias)) else if s[5] == 'f' then Some(Digipeater(DigiDfBearing)) else
      Some(Tracker(TrackerSymbol))
    else if |s| == 10 then
      if s[2] == 'P' then Some(Radio(Preamble)) else if s[2] == 'T' then Some(Radio(TimeSlot)) else
      if s[2] == 'c' then Some(Radio(AmplPct)) else if s[2] == 'E' then Some(Radio(RxPreset)) else
      if s[2] == 'a' then Some(IGate(DfBearing)) else if s[2] == 'G' then Some(BrandMeister(BmGateways)) else
      if s[2] == 'g' then Some(Digipeater(DigiSymbol)) else Some(Tracker(MicEMsg))
    else if |s| == 11 then
      if s[7] == 'f' then Some(Radio(TxBuffers)) else if s[7] == 's' then Some(Radio(Persist)) else
      if s[7] == 'y' then Some(Radio(BusyMax)) else if s[7] == 'l' then Some(Radio(DutyEn)) else
      if s[7] == 'i' then Some(Radio(RxAgcGain)) else if s[7] == 'c' then Some(IGate(Mycall)) else
      if s[7] == 'm' then Some(IGate(IGateSymbol)) else if s[7] == 'e' then Some(Digipeater(Preempt)) else
      if s[7] == 'T' then Some(Digipeater(DigiExtType)) else Some(Tracker(LowSpeed))
    else if |s| == 12 then
      if s[5] == 'M' then Some(Radio(ModemEn)) else if s[5] == 'l' then Some(Radio(SlotTime)) else
      if s[5] == 'y' then Some(Radio(DutyPct)) else if s[5] == 'K' then Some(Radio(MaxKeyed)) else
      if s[5] == 'c' then Some(IGate(DupSize)) else if s[5] == 'S' then Some(IGate(Servers)) else
      if s[5] == 'E' then Some(IGate(ExtType)) else Some(Tracker(HighSpeed))
    else if |s| == 13 then
      if s[5] == 'n' then Some(Radio(MinUnkey)) else if s[5] == 'I' then Some(BrandMeister(BmMsgInetOnly)) else
      if s[5] == 'l' then (if s[10] == 'a' then Some(Digipeater(AliasMaxN)) else  Some(Digipeater(AliasMode))) else
      if s[5] == 'S' then Some(Tracker(SlowInterval)) else Some(Tracker(FastInterval))
    else if |s| == 14 then
      if s[1] == 'f' then Some(IGate(Rf2InetRangeKm)) else
      if s[1] == 'n' then (if s[12] == 'E' then Some(IGate(RangeEn)) else  Some(IGate(RangeKm))) else
      if s[1] == 'g' then Some(IGate(MsgGate)) else
      if s[9] == 'A' then Some(Tracker(TurnAngle)) else  Some(Tracker(TurnSlope))
    else if |s| == 15 then Some(IGate(MsgMaxHops))
    else if |s| == 16 then
      if s[0] == 'i' then Some(IGate(HeardOnly)) else Some(Tracker(MinTurnTime))
    else if |s| == 17 then Some(IGate(DupTimeout))
    else if |s| == 19 then Some(IGate(LocalWindow))
    else if |s| == 21 then Some(IGate(MinInterval))
    else if |s| == 23 then Some(IGate(PositionRequired))
    else None
  }

  lemma KeyIsOwn(f: Field)
    ensures FieldOf(Name(f)) == Some(f)
  {
    match f
    case Radio(r) => RadioKey(r);
    case IGate(g) => IGateKey(g);
    case _ =>
  }

  lemma RadioKey(r: RadioField)
    ensures FieldOf(RadioName(r)) == Some(Radio(r))
  {
  }

  lemma IGateKey(g: IGateField)
    ensures FieldOf(IGateName(g)) == Some(IGate(g))
  {
  }

  /** No two settings share a key. */
  lemma KeysDiffer(a: Field, b: Field)
    requires Name(a) == Name(b)
    ensures a == b
  {
    KeyIsOwn(a);
    KeyIsOwn(b);
  }

  /** Every field stands in exactly one place of one file. */
  lemma FieldsComplete(f: Field)
    ensures Place(f) < |Fields(SectionOf(f))| && Fields(SectionOf(f))[Place(f)] == f
  {
    match f
    case Radio(r) => RadioComplete(r);
    case IGate(g) => IGateComplete(g);
    case _ =>
  }

  lemma RadioComplete(r: RadioField)
    ensures RadioPlace(r) < |RadioFields()| && RadioFields()[RadioPlace(r)] == Radio(r)
  {
  }

  lemma IGateComplete(g: IGateField)
    ensures IGatePlace(g) < |IGateFields()| && IGateFields()[IGatePlace(g)] == IGate(g)
  {
  }

  lemma FieldsOrdered(s: Section, i: nat)
    requires i < |Fields(s)|
    ensures SectionOf(Fields(s)[i]) == s && Place(Fields(s)[i]) == i
  {
    match s
    case RadioFile => RadioOrdered(i);
    case IGateFile => IGateOrdered(i);
    case _ =>
  }

  lemma RadioOrdered(i: nat)
    requires i < |RadioFields()|
    ensures RadioFields()[i].Radio? && Place(RadioFields()[i]) == i
  {
    if i < 14 {
      TransmitOrdered(i);
    } else {
      ReceiveOrdered(i - 14);
    }
  }

  lemma TransmitOrdered(i: nat)
    requires i < |TransmitFields()|
    ensures TransmitFields()[i].Radio? && Place(TransmitFields()[i]) == i
  {
  }

  lemma ReceiveOrdered(i: nat)
    requires i < |ReceiveFields()|
    ensures ReceiveFields()[i].Radio? && Place(ReceiveFields()[i]) == i + 14
  {
  }

  lemma IGateOrdered(i: nat)
    requires i < |IGateFields()|
    ensures IGateFields()[i].IGate? && Place(IGateFields()[i]) == i
  {
    if i < 13 {
      GatingOrdered(i);
    } else {
      StationOrdered(i - 13);
    }
  }

  lemma GatingOrdered(i: nat)
    requires i < |GatingFields()|
    ensures GatingFields()[i].IGate? && Place(GatingFields()[i]) == i
  {
  }

  lemma StationOrdered(i: nat)
    requires i < |StationFields()|
    ensures StationFields()[i].IGate? && Place(StationFields()[i]) == i + 13
  {
  }
}
