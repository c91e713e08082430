/** What the configuration store guarantees over a whole load, and over saving and loading
    again. */
module ConfigLaws {
  import opened Common
  import opened JsonText
  import opened ConfigFields
  import opened ConfigReaders
  import opened ConfigStore

  /** What every set of defaults satisfies: in range, monitor off, speeds ordered. */
  ghost predicate GoodDefaults(d: Config) {
    Normal(d) && !IsOn(d, MONITOR) && SpeedsOrdered(d)
  }

  function DefaultOf(f: Field): Value {
    match f
    case Radio(r) => RadioDefault(r)
    case IGate(g) => IGateDefault(g)
    case BrandMeister(b) => BrandMeisterDefault(b)
    case Digipeater(d) => DigipeaterDefault(d)
    case Tracker(t) => TrackerDefault(t)
  }

  function RadioDefault(r: RadioField): Value {
    match r
    case ModemEn | RxBlank => One(Bool(true))
    case DutyEn => One(Bool(false))
    case Preamble => One(Num(300))
    case TxTail => One(Num(20))
    case TxBuffers => One(Num(1))
    case TimeSlot => One(Num(2000))
    case Persist => One(Num(63))
    case SlotTime => One(Num(100))
    case BusyMax => One(Num(30))
    case DutyPct => One(Num(25))
    case AmplPct => One(Num(60))
    case DacRate => One(Num(38_400))
    case RxPreset => One(Num(5))
    case RxCount => One(Num(3))
    case RxTilt0 => One(Num(4))
    case RxTilt2 => One(Num(-5))
    case RxLowEdge => One(Num(900))
    case RxHighEdge => One(Num(2600))
    case RxTaps => One(Num(31))
    case RxHighPass => One(Num(300))
    case MinUnkey | MaxKeyed | RxTilt1 | RxGate | RxAgcMode | RxAgcGain | RxFixBits => One(Num(0))
  }

  function IGateDefault(g: IGateField): Value {
    match g
    case PositionRequired | HeardOnly | MsgGate => One(Bool(true))
    case Inet2Rf | RangeEn => One(Bool(false))
    case DupSize => One(Num(20))
    case DupTimeout => One(Num(30_000))
    case MinInterval => One(Num(30))
    case LocalWindow => One(Num(3600))
    case MsgMaxHops => One(Num(2))
    case Budlist => Arr(seq(8, _ => Str("")))
    case Servers => Arr(DefaultServer(true) + DefaultServer(false) + DefaultServer(false) + DefaultServer(false))
    case Mycall => One(Str("NOCALL"))
    case IGateSymbol => One(Str("N&"))
    case Rf2InetRangeKm | RangeKm | ExtType | RangeMiles | DfsStrength | DfBearing | DfN | DfR | DfQ => One(Num(0))
  }

  function DefaultServer(on: bool): seq<Scalar> {
    [Bool(on), Str("aprs.dprns.com"), Num(14_580)]
  }

  function BrandMeisterDefault(b: BrandMeisterField): Value {
    match b
    case BmMsgInetOnly => One(Bool(true))
    case BmEn | BmMonitor => One(Bool(false))
    case BmGateways => Arr(seq(4, _ => Str("")))
  }

  function DigipeaterDefault(d: DigipeaterField): Value {
    match d
    case DigiEn => One(Bool(false))
    case Alias => Arr([Str("WIDE1"), Str("WIDE2"), Str("WIDE#"), Str("")])
    case AliasMaxN => Arr([Num(1), Num(2), Num(2), Num(1)])
    case AliasMode => Arr([Num(1), Num(1), Num(1), Num(0)])
    case DigiSymbol => One(Str("N&"))
    case Paths => Arr([Str("WIDE1-1,WIDE2-1"), Str(""), Str(""), Str("")])
    case Preempt | DigiExtType | DigiRangeMiles | DigiDfsStrength | DigiDfBearing | DigiDfN | DigiDfR | DigiDfQ =>
      One(Num(0))
  }

  function TrackerDefault(t: TrackerField): Value {
    match t
    case SbEn => One(Bool(false))
    case TrackerSymbol => One(Str("\\>"))
    case SlowInterval => One(Num(600))
    case FastInterval => One(Num(60))
    case LowSpeed => One(Num(4))
    case HighSpeed => One(Num(100))
    case TurnAngle => One(Num(25))
    case TurnSlope => One(Num(255))
    case MinTurnTime => One(Num(15))
    case MicEMsg => One(Num(0))
  }

  ghost function Factory(): Config {
    (map r: RadioField :: Radio(r) := RadioDefault(r))
    + (map g: IGateField :: IGate(g) := IGateDefault(g))
    + (map b: BrandMeisterField :: BrandMeister(b) := BrandMeisterDefault(b))
    + (map d: DigipeaterField :: Digipeater(d) := DigipeaterDefault(d))
    + (map t: TrackerField :: Tracker(t) := TrackerDefault(t))
  }

  /** The factory set is in range itself. */
  lemma FactoryIsGood()
    ensures GoodDefaults(Factory())
  {
    hide Factory, DefaultOf;
    FactoryInRange();
    FactoryAt(LOW_SPEED);
    FactoryAt(HIGH_SPEED);
    FactoryAt(MONITOR);
    SpeedDefaults();
  }

  lemma FactoryInRange()
    ensures Normal(Factory())
  {
    forall f: Field
      ensures f in Factory() && Ok(f, Factory()[f])
    {
      FactoryAt(f);
      DefaultOk(f);
    }
  }

  lemma FactoryAt(f: Field)
    ensures f in Factory() && Factory()[f] == DefaultOf(f)
  {
    match f
    case Radio(_) =>
    case IGate(_) =>
    case BrandMeister(_) =>
    case Digipeater(_) =>
    case Tracker(_) =>
  }

  lemma DefaultOk(f: Field)
    ensures Ok(f, DefaultOf(f))
  {
    match f
    case Radio(r) => RadioDefaultOk(r);
    case IGate(g) => IGateDefaultOk(g);
    case BrandMeister(_) =>
    case Digipeater(d) => DigipeaterDefaultOk(d);
    case Tracker(_) =>
  }

  lemma RadioDefaultOk(r: RadioField)
    ensures Fits(RadioShape(r), RadioDefault(r))
  {
  }

  lemma IGateDefaultOk(g: IGateField)
    ensures Fits(IGateShape(g), IGateDefault(g))
  {
    if g.Servers? {
      ServersDefaultOk();
    } else {
      IGateScalars(g);
    }
  }

  lemma IGateScalars(g: IGateField)
    requires !g.Servers?
    ensures Fits(IGateShape(g), IGateDefault(g))
  {
  }

  lemma ServersDefaultOk()
    ensures Fits(IGateShape(Servers), IGateDefault(Servers))
  {
    var items := DefaultServer(true) + DefaultServer(false) + DefaultServer(false) + DefaultServer(false);
    forall i | 0 <= i < 12
      ensures HostOk(items[i], i, 20, AtLeast(U16, 1, 14_580))
    {
      assert items[i] == DefaultServer(i < 3)[i % 3];
    }
  }

  lemma FourTexts(a: string, b: string, c: string, d: string, size: Size)
    requires Plain(a, size) && Plain(b, size) && Plain(c, size) && Plain(d, size)
    ensures TextsOk([Str(a), Str(b), Str(c), Str(d)], 4, size)
  {
    hide Plain;
  }

  lemma FourNumbers(a: int, b: int, c: int, d: int, fix: Rule)
    requires InRange(fix, a) && InRange(fix, b) && InRange(fix, c) && InRange(fix, d)
    ensures NumbersOk([Num(a), Num(b), Num(c), Num(d)], 4, fix)
  {
    hide InRange;
  }

  lemma DigipeaterDefaultOk(d: DigipeaterField)
    ensures Fits(DigipeaterShape(d), DigipeaterDefault(d))
  {
    hide TextsOk, NumbersOk;
    match d
    case Alias => FourTexts("WIDE1", "WIDE2", "WIDE#", "", 7);
    case AliasMaxN => FourNumbers(1, 2, 2, 1, Clamp(0, U8, 1, 7));
    case AliasMode => FourNumbers(1, 1, 1, 0, Reset(U8, 2, 0));
    case Paths => FourTexts("WIDE1-1,WIDE2-1", "", "", "", 72);
    case _ =>
  }

  lemma SpeedDefaults()
    ensures DefaultOf(LOW_SPEED) == One(Num(4)) && DefaultOf(HIGH_SPEED) == One(Num(100))
    ensures DefaultOf(MONITOR) == One(Bool(false))
  {
  }

  // ---- One section, one field ----

  lemma SectionFields(s: Section)
    ensures forall i, j :: 0 <= i < j < |Fields(s)| ==> Fields(s)[i] != Fields(s)[j]
    ensures forall f: Field :: f in Fields(s) <==> SectionOf(f) == s
  {
    var fs := Fields(s);
    forall i, j | 0 <= i < j < |fs|
      ensures fs[i] != fs[j]
    {
      FieldsOrdered(s, i);
      FieldsOrdered(s, j);
    }
    forall f: Field
      ensures f in fs <==> SectionOf(f) == s
    {
      FieldsComplete(f);
      if f in fs {
        var i :| 0 <= i < |fs| && fs[i] == f;
        FieldsOrdered(s, i);
      }
    }
  }

  lemma {:induction false} ReadFieldsAt(fs: seq<Field>, doc: seq<Member>, c: Config, junk: int -> int, f: Field)
    requires Total(c) && forall i, j :: 0 <= i < j < |fs| ==> fs[i] != fs[j]
    ensures ReadFields(fs, doc, c, junk)[f] == if f in fs then ReadField(f, Find(doc, Name(f)), c[f], junk) else c[f]
  {
    if fs != [] {
      ReadFieldsAt(fs[..|fs| - 1], doc, c, junk, f);
      ReadFieldsAt(fs[..|fs| - 1], doc, c, junk, fs[|fs| - 1]);
      assert f in fs <==> f in fs[..|fs| - 1] || f == fs[|fs| - 1];
      assert fs[|fs| - 1] !in fs[..|fs| - 1];
    }
  }

  lemma ReadSectionAt(s: Section, doc: seq<Member>, c: Config, junk: int -> int, f: Field)
    requires Total(c)
    ensures SectionOf(f) != s ==> ReadSection(s, Doc(doc), c, junk)[f] == c[f]
    ensures SectionOf(f) == s && f != HIGH_SPEED && f != MONITOR ==>
              ReadSection(s, Doc(doc), c, junk)[f] == ReadField(f, Find(doc, Name(f)), c[f], junk)
  {
    hide Fields, ReadField;
    SectionFields(s);
    ReadFieldsAt(Fields(s), doc, c, junk, f);
  }

  // ---- The whole load, field by field ----

  function Index(s: Section): (i: nat)
    ensures i < |SECTIONS| && SECTIONS[i] == s
  {
    match s
    case RadioFile => 0
    case IGateFile => 1
    case BrandMeisterFile => 2
    case DigipeaterFile => 3
    case TrackerFile => 4
  }

  lemma {:induction false} UntouchedBefore(files: Files, oom: Section -> bool, n: nat, d: Config, junk: int -> int,
                                           f: Field)
    requires Present(files) && Total(d) && n <= Index(SectionOf(f))
    ensures LoadFrom(files, oom, n, d, junk)[f] == d[f]
  {
    if n > 0 {
      UntouchedBefore(files, oom, n - 1, d, junk, f);
      OtherSection(files, oom, n - 1, d, junk, f);
    }
  }

  lemma OtherSection(files: Files, oom: Section -> bool, n: nat, d: Config, junk: int -> int, f: Field)
    requires Present(files) && Total(d) && n < |SECTIONS| && SECTIONS[n] != SectionOf(f)
    ensures LoadFrom(files, oom, n + 1, d, junk)[f] == LoadFrom(files, oom, n, d, junk)[f]
  {
    var file := Seen(files, oom, SECTIONS[n]);
    if file.Doc? {
      ReadSectionAt(SECTIONS[n], file.members, LoadFrom(files, oom, n, d, junk), junk, f);
    }
  }

  lemma {:induction false} UntouchedAfter(files: Files, oom: Section -> bool, n: nat, d: Config, junk: int -> int,
                                          f: Field)
    requires Present(files) && Total(d) && Index(SectionOf(f)) < n <= |SECTIONS|
    ensures LoadFrom(files, oom, n, d, junk)[f] == LoadFrom(files, oom, Index(SectionOf(f)) + 1, d, junk)[f]
    decreases n
  {
    if n > Index(SectionOf(f)) + 1 {
      UntouchedAfter(files, oom, n - 1, d, junk, f);
      OtherSection(files, oom, n - 1, d, junk, f);
    }
  }

  /** The field as its own file and its default give it. */
  ghost function Raw(files: Files, oom: Section -> bool, d: Config, junk: int -> int, f: Field): Value
    requires Present(files) && Total(d)
  {
    match Seen(files, oom, SectionOf(f))
    case Unusable => d[f]
    case Doc(doc) => ReadField(f, Find(doc, Name(f)), d[f], junk)
  }

  lemma RawOk(files: Files, oom: Section -> bool, d: Config, junk: int -> int, f: Field)
    requires Present(files) && Normal(d)
    ensures Ok(f, Raw(files, oom, d, junk, f))
  {
    var file := Seen(files, oom, SectionOf(f));
    if file.Doc? {
      ReadNormalises(f, Find(file.members, Name(f)), d[f], junk);
    }
  }

  /** A loaded field depends on nothing but its own file and its default. */
  lemma LoadedField(files: Files, oom: Section -> bool, d: Config, junk: int -> int, f: Field)
    requires Present(files) && Total(d) && f != HIGH_SPEED && f != MONITOR
    ensures Loaded(files, oom, d, junk)[f] == Raw(files, oom, d, junk, f)
  {
    var s := SectionOf(f);
    UntouchedBefore(files, oom, Index(s), d, junk, f);
    UntouchedAfter(files, oom, |SECTIONS|, d, junk, f);
    var file := Seen(files, oom, s);
    if file.Doc? {
      ReadSectionAt(s, file.members, LoadFrom(files, oom, Index(s), d, junk), junk, f);
    }
  }

  lemma ReadAt(s: Section, doc: seq<Member>, c: Config, junk: int -> int, f: Field)
    requires Total(c)
    ensures ReadFields(Fields(s), doc, c, junk)[f]
         == if SectionOf(f) == s then ReadField(f, Find(doc, Name(f)), c[f], junk) else c[f]
  {
    SectionFields(s);
    ReadFieldsAt(Fields(s), doc, c, junk, f);
  }

  /** The two thresholds, raised into order when they come from a document. */
  lemma LoadedSpeeds(files: Files, oom: Section -> bool, d: Config, junk: int -> int)
    requires Present(files) && Total(d)
    ensures var low, high := Raw(files, oom, d, junk, LOW_SPEED), Raw(files, oom, d, junk, HIGH_SPEED);
            Loaded(files, oom, d, junk)[HIGH_SPEED]
            == if Seen(files, oom, TrackerFile).Doc? && NumberOf(high) < NumberOf(low) then low else high
  {
    var file := Seen(files, oom, TrackerFile);
    var c := LoadFrom(files, oom, 4, d, junk);
    UntouchedBefore(files, oom, 4, d, junk, LOW_SPEED);
    UntouchedBefore(files, oom, 4, d, junk, HIGH_SPEED);
    if file.Doc? {
      ReadAt(TrackerFile, file.members, c, junk, LOW_SPEED);
      ReadAt(TrackerFile, file.members, c, junk, HIGH_SPEED);
    }
  }

  /** The monitor flag, withdrawn when the gating its own load settled on leaves nothing
      between the feed and the transmitter. */
  lemma LoadedMonitor(files: Files, oom: Section -> bool, d: Config, junk: int -> int)
    requires Present(files) && Total(d)
    ensures var c := Loaded(files, oom, d, junk);
            var monitor := Raw(files, oom, d, junk, MONITOR);
            c[MONITOR] == if Seen(files, oom, BrandMeisterFile).Doc? && monitor == One(Bool(true))
                             && IsOn(c, INET_TO_RF) && !IsOn(c, RANGE_GATE)
                            then One(Bool(false)) else monitor
  {
    var file := Seen(files, oom, BrandMeisterFile);
    var c := LoadFrom(files, oom, 2, d, junk);
    UntouchedBefore(files, oom, 2, d, junk, MONITOR);
    UntouchedAfter(files, oom, |SECTIONS|, d, junk, MONITOR);
    GatingSettled(files, oom, d, junk, INET_TO_RF);
    GatingSettled(files, oom, d, junk, RANGE_GATE);
    if file.Doc? {
      ReadAt(BrandMeisterFile, file.members, c, junk, MONITOR);
      ReadAt(BrandMeisterFile, file.members, c, junk, INET_TO_RF);
      ReadAt(BrandMeisterFile, file.members, c, junk, RANGE_GATE);
    }
  }

  lemma GatingSettled(files: Files, oom: Section -> bool, d: Config, junk: int -> int, f: Field)
    requires Present(files) && Total(d) && SectionOf(f) == IGateFile
    ensures LoadFrom(files, oom, 2, d, junk)[f] == Loaded(files, oom, d, junk)[f]
  {
    UntouchedAfter(files, oom, |SECTIONS|, d, junk, f);
  }

  // ---- The guarantees ----

  lemma LoadInRange(files: Files, oom: Section -> bool, d: Config, junk: int -> int)
    requires Present(files) && Normal(d)
    ensures Normal(Loaded(files, oom, d, junk))
  {
    forall f: Field
      ensures Ok(f, Loaded(files, oom, d, junk)[f])
    {
      LoadedOk(files, oom, d, junk, f);
    }
  }

  /** Whatever the files hold, whichever cannot be read, and whatever the casts make of
      wild numbers: after a load every field is in range, the thresholds are ordered, and
      the worldwide monitor is never on with ungated INET->RF. */
  lemma LoadNormalises(files: Files, oom: Section -> bool, d: Config, junk: int -> int)
    requires Present(files) && GoodDefaults(d)
    ensures var c := Loaded(files, oom, d, junk);
            Normal(c) && Interlock(c) && SpeedsOrdered(c)
  {
    LoadInRange(files, oom, d, junk);
    LoadedMonitor(files, oom, d, junk);
    LoadedSpeeds(files, oom, d, junk);
    LoadedField(files, oom, d, junk, LOW_SPEED);
  }

  lemma LoadedOk(files: Files, oom: Section -> bool, d: Config, junk: int -> int, f: Field)
    requires Present(files) && Normal(d)
    ensures Ok(f, Loaded(files, oom, d, junk)[f])
  {
    hide Raw, Loaded;
    RawOk(files, oom, d, junk, f);
    if f == HIGH_SPEED {
      LoadedSpeeds(files, oom, d, junk);
      RawOk(files, oom, d, junk, LOW_SPEED);
    } else if f == MONITOR {
      LoadedMonitor(files, oom, d, junk);
    } else {
      LoadedField(files, oom, d, junk, f);
    }
  }

  lemma SavedFind(f: Field, c: Config)
    requires Total(c)
    ensures Find(SectionDoc(SectionOf(f), c), Name(f)) == Some(c[f])
  {
    var s, k := SectionOf(f), Place(f);
    FieldsComplete(f);
    forall j | 0 <= j < k
      ensures Name(Fields(s)[j]) != Name(f)
    {
      FieldsOrdered(s, j);
      if Name(Fields(s)[j]) == Name(f) {
        KeysDiffer(Fields(s)[j], f);
      }
    }
    FindAt(SectionDoc(s, c), k);
  }

  /** A section just saved gives every one of its fields back, whatever the defaults. */
  lemma SavedFieldBack(files: Files, oom: Section -> bool, d: Config, junk: int -> int, c: Config, f: Field)
    requires Present(files) && Normal(d) && Normal(c)
    requires Seen(files, oom, SectionOf(f)) == Doc(SectionDoc(SectionOf(f), c))
    ensures Raw(files, oom, d, junk, f) == c[f]
  {
    SavedFind(f, c);
    ReadNormalises(f, Some(c[f]), d[f], junk);
  }

  /** Saving everything and loading it gives back the whole configuration, from any
      defaults. */
  lemma LoadOfSaved(files: Files, commits: Section -> bool, oom: Section -> bool, c: Config, d: Config,
                    junk: int -> int)
    requires Present(files) && Normal(c) && Interlock(c) && SpeedsOrdered(c) && Normal(d)
    requires forall s: Section :: commits(s) && !oom(s)
    ensures Loaded(Saved(files, Everything(), commits, c), oom, d, junk) == c
  {
    var saved := Saved(files, Everything(), commits, c);
    forall f: Field
      ensures Raw(saved, oom, d, junk, f) == c[f]
    {
      SavedFieldBack(saved, oom, d, junk, c, f);
    }
    SameWhenRaw(saved, oom, d, junk, c);
  }

  ghost function Everything(): set<Section> {
    {RadioFile, IGateFile, BrandMeisterFile, DigipeaterFile, TrackerFile}
  }

  /** A configuration that satisfies both rules and agrees with every file is the one
      loaded. */
  lemma SameWhenRaw(files: Files, oom: Section -> bool, d: Config, junk: int -> int, c: Config)
    requires Present(files) && Total(c) && Interlock(c) && SpeedsOrdered(c) && Total(d)
    requires forall f: Field :: Raw(files, oom, d, junk, f) == c[f]
    ensures Loaded(files, oom, d, junk) == c
  {
    forall f: Field
      ensures Loaded(files, oom, d, junk)[f] == c[f]
    {
      SameField(files, oom, d, junk, c, f);
    }
  }

  lemma SameField(files: Files, oom: Section -> bool, d: Config, junk: int -> int, c: Config, f: Field)
    requires Present(files) && Total(c) && Interlock(c) && SpeedsOrdered(c) && Total(d)
    requires forall g: Field :: Raw(files, oom, d, junk, g) == c[g]
    ensures Loaded(files, oom, d, junk)[f] == c[f]
  {
    if f == HIGH_SPEED {
      LoadedSpeeds(files, oom, d, junk);
    } else if f == MONITOR {
      LoadedField(files, oom, d, junk, INET_TO_RF);
      LoadedField(files, oom, d, junk, RANGE_GATE);
      LoadedMonitor(files, oom, d, junk);
    } else {
      LoadedField(files, oom, d, junk, f);
    }
  }

  // ---- Loading twice ----

  /** A section whose file is not usable is loaded as its defaults. */
  lemma RewrittenField(files: Files, oom: Section -> bool, d: Config, junk: int -> int, f: Field)
    requires Present(files) && Total(d) && Seen(files, oom, SectionOf(f)).Unusable?
    ensures Loaded(files, oom, d, junk)[f] == d[f]
  {
    UntouchedBefore(files, oom, Index(SectionOf(f)), d, junk, f);
    UntouchedAfter(files, oom, |SECTIONS|, d, junk, f);
  }

  lemma RawAgain(files: Files, commits: Section -> bool, oom: Section -> bool, d: Config, junk: int -> int, f: Field)
    requires Present(files) && GoodDefaults(d) && forall s: Section :: commits(s) && !oom(s)
    ensures var again := Saved(files, Rewrites(files), commits, Loaded(files, oom, d, junk));
            Raw(again, oom, d, junk, f) == Raw(files, oom, d, junk, f)
  {
    var c := Loaded(files, oom, d, junk);
    if files[SectionOf(f)].Unusable? {
      LoadInRange(files, oom, d, junk);
      RewrittenField(files, oom, d, junk, f);
      SavedFieldBack(Saved(files, Rewrites(files), commits, c), oom, d, junk, c, f);
    }
  }

  /** Two sets of files that give the same raw fields load alike, if neither rule would
      act on a section that only one of them has. */
  ghost predicate Alike(files: Files, again: Files, oom: Section -> bool, d: Config, junk: int -> int)
    requires Present(files) && Present(again) && Total(d)
  {
    && (forall f: Field :: Raw(again, oom, d, junk, f) == Raw(files, oom, d, junk, f))
    && RulesIdle(files, again, oom, d, junk)
  }

  ghost predicate RulesIdle(files: Files, again: Files, oom: Section -> bool, d: Config, junk: int -> int)
    requires Present(files) && Present(again) && Total(d)
  {
    SpeedsIdle(files, again, oom, d, junk) && MonitorIdle(files, again, oom, d, junk)
  }

  ghost predicate SpeedsIdle(files: Files, again: Files, oom: Section -> bool, d: Config, junk: int -> int)
    requires Present(files) && Present(again) && Total(d)
  {
    || Seen(again, oom, TrackerFile).Doc? == Seen(files, oom, TrackerFile).Doc?
    || NumberOf(Raw(files, oom, d, junk, LOW_SPEED)) <= NumberOf(Raw(files, oom, d, junk, HIGH_SPEED))
  }

  ghost predicate MonitorIdle(files: Files, again: Files, oom: Section -> bool, d: Config, junk: int -> int)
    requires Present(files) && Present(again) && Total(d)
  {
    || Seen(again, oom, BrandMeisterFile).Doc? == Seen(files, oom, BrandMeisterFile).Doc?
    || Raw(files, oom, d, junk, MONITOR) != One(Bool(true))
  }

  lemma FieldAlike(files: Files, again: Files, oom: Section -> bool, d: Config, junk: int -> int, f: Field)
    requires Present(files) && Present(again) && Total(d) && Alike(files, again, oom, d, junk)
    requires f != HIGH_SPEED && f != MONITOR
    ensures Loaded(again, oom, d, junk)[f] == Loaded(files, oom, d, junk)[f]
  {
    LoadedField(files, oom, d, junk, f);
    LoadedField(again, oom, d, junk, f);
  }

  lemma LoadsAlike(files: Files, again: Files, oom: Section -> bool, d: Config, junk: int -> int, f: Field)
    requires Present(files) && Present(again) && Total(d) && Alike(files, again, oom, d, junk)
    ensures Loaded(again, oom, d, junk)[f] == Loaded(files, oom, d, junk)[f]
  {
    if f == HIGH_SPEED {
      LoadedSpeeds(files, oom, d, junk);
      LoadedSpeeds(again, oom, d, junk);
    } else if f == MONITOR {
      FieldAlike(files, again, oom, d, junk, INET_TO_RF);
      FieldAlike(files, again, oom, d, junk, RANGE_GATE);
      LoadedMonitor(files, oom, d, junk);
      LoadedMonitor(again, oom, d, junk);
    } else {
      FieldAlike(files, again, oom, d, junk, f);
    }
  }

  lemma UnusableRaw(files: Files, oom: Section -> bool, d: Config, junk: int -> int, f: Field)
    requires Present(files) && Total(d) && Seen(files, oom, SectionOf(f)).Unusable?
    ensures Raw(files, oom, d, junk, f) == d[f]
  {
  }

  lemma NothingLeft(files: Files, commits: Section -> bool, c: Config)
    requires Present(files) && Total(c) && forall s: Section :: commits(s)
    ensures Rewrites(Saved(files, Rewrites(files), commits, c)) == {}
  {
  }

  /** A completed load leaves files that load to the very same configuration, with
      nothing left to create. */
  lemma LoadIsStable(files: Files, commits: Section -> bool, oom: Section -> bool, d: Config, junk: int -> int)
    requires Present(files) && GoodDefaults(d) && forall s: Section :: commits(s) && !oom(s)
    ensures var c := Loaded(files, oom, d, junk);
            var again := Saved(files, Rewrites(files), commits, c);
            Loaded(again, oom, d, junk) == c && Rewrites(again) == {}
  {
    var c := Loaded(files, oom, d, junk);
    var again := Saved(files, Rewrites(files), commits, c);
    forall f: Field
      ensures Raw(again, oom, d, junk, f) == Raw(files, oom, d, junk, f)
    {
      RawAgain(files, commits, oom, d, junk, f);
    }
    forall f: Field
      ensures Loaded(again, oom, d, junk)[f] == c[f]
    {
      LoadsAlike(files, again, oom, d, junk, f);
    }
    NothingLeft(files, commits, c);
  }

  // ---- What the interlock leaves open ----

  /** With the worldwide monitor on, INET->RF gating has a range limit. */
  predicate Limited(c: Config)
    requires RANGE_KM in c
  {
    IsOn(c, MONITOR) && IsOn(c, INET_TO_RF) ==> IsOn(c, RANGE_GATE) && NumberOf(c[RANGE_KM]) > 0.0
  }

  /** What a field's own file and default switch on. */
  ghost predicate TurnsOn(files: Files, oom: Section -> bool, d: Config, junk: int -> int, f: Field)
    requires Present(files) && Total(d)
  {
    Raw(files, oom, d, junk, f) == One(Bool(true))
  }

  /** The interlock asks for the range gate's switch, not for a radius, and a radius of 0
      means no limit: a load leaves the monitor without a range limit exactly when the
      files and defaults turn the monitor, the gating and the range gate on and give the
      radius as 0. */
  lemma LimitedIff(files: Files, oom: Section -> bool, d: Config, junk: int -> int)
    requires Present(files) && GoodDefaults(d)
    ensures Limited(Loaded(files, oom, d, junk)) <==>
              !(TurnsOn(files, oom, d, junk, MONITOR) && TurnsOn(files, oom, d, junk, INET_TO_RF)
                && TurnsOn(files, oom, d, junk, RANGE_GATE) && NumberOf(Raw(files, oom, d, junk, RANGE_KM)) == 0.0)
  {
    hide Raw, Loaded;
    LoadedMonitor(files, oom, d, junk);
    if Seen(files, oom, BrandMeisterFile).Unusable? {
      UnusableRaw(files, oom, d, junk, MONITOR);
    }
    LoadedField(files, oom, d, junk, INET_TO_RF);
    LoadedField(files, oom, d, junk, RANGE_GATE);
    LoadedField(files, oom, d, junk, RANGE_KM);
    RawOk(files, oom, d, junk, RANGE_KM);
    assert DistanceOk(Raw(files, oom, d, junk, RANGE_KM).v, 20_038);
  }

  const ON := One(Bool(true))

  /** An IGate file that turns gating and the range gate on but leaves the radius out, and
      a BrandMeister file that turns the monitor on. */
  function ZeroRadiusFile(s: Section): File {
    match s
    case IGateFile => Doc([Member("inet2rf", ON), Member("inet2rfRangeEn", ON)])
    case BrandMeisterFile => Doc([Member("bmMonitor", ON)])
    case _ => Unusable
  }

  function ZeroRadiusFiles(): (files: Files)
    ensures Present(files)
    ensures forall s: Section :: files[s] == ZeroRadiusFile(s)
  {
    map s: Section :: ZeroRadiusFile(s)
  }

  /** A switch that its file has on, at the first member with its key. */
  lemma SwitchFound(files: Files, oom: Section -> bool, d: Config, junk: int -> int, f: Field, doc: seq<Member>, k: nat)
    requires Present(files) && Total(d) && ShapeOf(f).Flag? && Seen(files, oom, SectionOf(f)) == Doc(doc)
    requires k < |doc| && doc[k] == Member(Name(f), ON) && forall j :: 0 <= j < k ==> doc[j].key != Name(f)
    ensures TurnsOn(files, oom, d, junk, f)
  {
    FindAt(doc, k);
  }

  lemma {:induction false} NotFound(doc: seq<Member>, key: string)
    requires forall i :: 0 <= i < |doc| ==> doc[i].key != key
    ensures Find(doc, key).None?
  {
    if doc != [] {
      NotFound(doc[1..], key);
    }
  }

  lemma ZeroRadiusRaw(oom: Section -> bool, d: Config, junk: int -> int)
    requires Normal(d) && !oom(IGateFile) && !oom(BrandMeisterFile)
    ensures var files := ZeroRadiusFiles();
            && TurnsOn(files, oom, d, junk, MONITOR) && TurnsOn(files, oom, d, junk, INET_TO_RF)
            && TurnsOn(files, oom, d, junk, RANGE_GATE) && Raw(files, oom, d, junk, RANGE_KM) == d[RANGE_KM]
  {
    hide TurnsOn, Raw, ReadField;
    var files := ZeroRadiusFiles();
    var gating, feed := ZeroRadiusFile(IGateFile).members, ZeroRadiusFile(BrandMeisterFile).members;
    SwitchFound(files, oom, d, junk, MONITOR, feed, 0);
    SwitchFound(files, oom, d, junk, INET_TO_RF, gating, 0);
    SwitchFound(files, oom, d, junk, RANGE_GATE, gating, 1);
    RadiusMissing(files, oom, d, junk, gating);
  }

  lemma RadiusMissing(files: Files, oom: Section -> bool, d: Config, junk: int -> int, doc: seq<Member>)
    requires Present(files) && Normal(d) && Seen(files, oom, IGateFile) == Doc(doc)
    requires doc == [Member("inet2rf", ON), Member("inet2rfRangeEn", ON)]
    ensures Raw(files, oom, d, junk, RANGE_KM) == d[RANGE_KM]
  {
    hide ReadField;
    assert Name(RANGE_KM) == "inet2rfRangeKm" && "inet2rfRangeEn"[12] != "inet2rfRangeKm"[12];
    NotFound(doc, Name(RANGE_KM));
    ReadNormalises(RANGE_KM, None, d[RANGE_KM], junk);
  }

  lemma RadiusDefault()
    ensures RANGE_KM in Factory() && Factory()[RANGE_KM] == One(Num(0))
  {
    FactoryAt(RANGE_KM);
  }

  /** Loaded over the factory defaults they gate the worldwide feed without a limit. */
  lemma ZeroRadiusLoads(junk: int -> int)
    ensures Total(Factory()) && !Limited(Loaded(ZeroRadiusFiles(), s => false, Factory(), junk))
  {
    hide Raw, Factory;
    FactoryIsGood();
    RadiusDefault();
    ZeroRadiusRaw(s => false, Factory(), junk);
    LimitedIff(ZeroRadiusFiles(), s => false, Factory(), junk);
  }
}
