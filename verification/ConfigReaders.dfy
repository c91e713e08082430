/** What a section reader makes of an arbitrary document, field by field. */
module ConfigReaders {
  import opened Common
  import opened JsonText
  import Numerals = Text
  import opened ConfigFields

  // ---- Numbers ----

  function Pow10(n: nat): (r: nat)
    ensures r > 0
  {
    if n == 0 then 1 else 10 * Pow10(n - 1)
  }

  predicate Numeric(v: Scalar) {
    v.Num? || v.Frac?
  }

  /** The value of a numeral. */
  function RealOf(v: Scalar): real
    requires Numeric(v)
  {
    match v
    case Num(n) => n as real
    case Frac(negative, whole, digits) =>
      var m := whole as real + Numerals.Number(digits) as real / Pow10(|digits|) as real;
      if negative then -m else m
  }

  /** What a cast to an integer makes of it. */
  function Truncated(v: Scalar): int
    requires Numeric(v)
  {
    match v
    case Num(n) => n
    case Frac(negative, whole, _) => if negative then -(whole as int) else whole
  }

  lemma {:induction false} DigitsBelow(d: string)
    requires Numerals.AllDigits(d)
    ensures Numerals.Number(d) < Pow10(|d|)
    ensures d != "" && d[|d| - 1] != '0' ==> Numerals.Number(d) > 0
  {
    if d != "" {
      DigitsBelow(d[..|d| - 1]);
    }
  }

  /** Truncation is toward zero, and a fraction is never whole. */
  lemma TruncatesTowardZero(v: Scalar)
    requires Numeric(v)
    ensures var x, n := RealOf(v), Truncated(v);
            && (x >= 0.0 ==> n as real <= x < n as real + 1.0)
            && (x <= 0.0 ==> n as real - 1.0 < x <= n as real)
            && (v.Frac? ==> x != n as real)
  {
    if v.Frac? {
      DigitsBelow(v.digits);
      Proper(Numerals.Number(v.digits), Pow10(|v.digits|));
    }
  }

  lemma Proper(a: nat, b: nat)
    requires 0 < a < b
    ensures 0.0 < a as real / b as real < 1.0
  {
  }

  /** A C cast: exact for values the type holds. What it gives for other values the
      language leaves open; `junk` stands for whatever that is. */
  function Narrow(v: int, lo: int, hi: int, junk: int -> int): (r: int)
    requires lo <= hi
    ensures lo <= r <= hi
    ensures lo <= v <= hi ==> r == v
  {
    if lo <= v <= hi then v else lo + junk(v) % (hi - lo + 1)
  }

  function Bound(v: int, lo: int, hi: int): int {
    if v < lo then lo else if v > hi then hi else v
  }

  /** The values a field may hold. */
  predicate InRange(fix: Fix, n: int) {
    match fix
    case Clamp(_, _, lo, hi) => lo <= n <= hi
    case Early(lo, hi) => lo <= n <= hi
    case OneOf(_, low, high) => n == low || n == high
    case Reset(_, top, _) => 0 <= n <= top
    case AtLeast(castHi, low, _) => low <= n <= castHi
    case Snap(top, _) => 0 <= n <= top
    case Odd(lo, hi) => lo <= n <= hi && n % 2 == 1
    case Wrap360 => 0 <= n < 360
  }

  function Apply(fix: Rule, v: int, junk: int -> int): int {
    match fix
    case Clamp(castLo, castHi, lo, hi) => Bound(Narrow(v, castLo, castHi, junk), lo, hi)
    case Early(lo, hi) => Bound(v, lo, hi)
    case OneOf(castHi, low, high) =>
      var x := Narrow(v, 0, castHi, junk);
      if x != low && x != high then low else x
    case Reset(castHi, top, fallback) =>
      var x := Narrow(v, 0, castHi, junk);
      if x > top then fallback else x
    case AtLeast(castHi, low, fallback) =>
      var x := Narrow(v, 0, castHi, junk);
      if x < low then fallback else x
    case Snap(top, fallback) => if v < 0 then 0 else if v > top then fallback else v
    case Odd(lo, hi) =>
      var x := Bound(v, lo, hi);
      if x % 2 == 0 then x + 1 else x
    case Wrap360 => Narrow(v, -I32 - 1, I32, junk) % 360
  }

  /** Whatever the number and whatever the cast makes of it, the field ends up in range,
      and a number in range is kept. */
  lemma ApplyLands(fix: Rule, v: int, junk: int -> int)
    ensures InRange(fix, Apply(fix, v, junk))
    ensures InRange(fix, v) ==> Apply(fix, v, junk) == v
  {
    hide Narrow;
  }

  /** The cast of the rule, if it has one, is exact for the number. */
  predicate Castable(fix: Fix, v: int) {
    match fix
    case Clamp(castLo, castHi, _, _) => castLo <= v <= castHi
    case OneOf(castHi, _, _) => 0 <= v <= castHi
    case Reset(castHi, _, _) => 0 <= v <= castHi
    case AtLeast(castHi, _, _) => 0 <= v <= castHi
    case Wrap360 => -I32 - 1 <= v <= I32
    case _ => true
  }

  /** Where a number that is out of range ends up: at the nearer bound, at the rule's
      fallback, on the next odd number, or on the same point of the circle. */
  lemma OutOfRangeLands(fix: Rule, v: int, junk: int -> int)
    requires Castable(fix, v) && !InRange(fix, v)
    ensures var r := Apply(fix, v, junk);
            match fix
            case Clamp(_, _, lo, hi) => (v < lo && r == lo) || (v > hi && r == hi)
            case Early(lo, hi) => (v < lo && r == lo) || (v > hi && r == hi)
            case OneOf(_, low, _) => r == low
            case Reset(_, _, fallback) => r == fallback
            case AtLeast(_, _, fallback) => r == fallback
            case Snap(top, fallback) => (v < 0 && r == 0) || (v > top && r == fallback)
            case Odd(lo, hi) => (v > hi && r == hi) || (lo <= v <= hi && r == v + 1) || (v < lo && r in {lo, lo + 1})
            case Wrap360 => (r - v) % 360 == 0
  {
    hide Narrow;
  }

  /** No number the field may hold is nearer than the one a bounding rule takes. */
  lemma NearestLands(fix: Rule, v: int, junk: int -> int, n: int)
    requires fix.Clamp? || fix.Early? || fix.Odd?
    requires Castable(fix, v) && InRange(fix, n)
    ensures var r := Apply(fix, v, junk);
            if r >= v then r - v <= (if n >= v then n - v else v - n)
            else v - r <= (if n >= v then n - v else v - n)
  {
    hide Narrow;
  }

  /** The rules may as well be applied after the cast: bounding a double between two
      integers and then casting it comes to the same. */
  lemma BoundThenCast(v: Scalar, lo: int, hi: int)
    requires Numeric(v) && lo <= hi
    ensures (if RealOf(v) < lo as real then lo else if RealOf(v) > hi as real then hi else Truncated(v))
         == Bound(Truncated(v), lo, hi)
  {
    TruncatesTowardZero(v);
  }

  // ---- Text ----

  predicate LineBreak(c: char) {
    c == '\r' || c == '\n'
  }

  /** A stored string: no line breaks, and no longer than its buffer. */
  predicate Plain(s: string, size: nat) {
    |s| < size && forall i :: 0 <= i < |s| ==> !LineBreak(s[i])
  }

  function Strip(s: string): (r: string)
    ensures forall i :: 0 <= i < |r| ==> !LineBreak(r[i])
    ensures (forall i :: 0 <= i < |s| ==> !LineBreak(s[i])) ==> r == s
  {
    if s == "" then ""
    else if LineBreak(s[|s| - 1]) then Strip(s[..|s| - 1])
    else Strip(s[..|s| - 1]) + [s[|s| - 1]]
  }

  function Stored(s: string, size: Size): (r: string)
    ensures Plain(r, size)
    ensures Plain(s, size) ==> r == s
  {
    var t := Strip(s);
    if |t| < size then t else t[..size - 1]
  }

  /** Stripping drops the line breaks and keeps everything else, in order. */
  lemma {:induction false} StripJoins(a: string, b: string)
    ensures Strip(a + b) == Strip(a) + Strip(b)
    ensures |b| == 1 ==> Strip(b) == if b[0] == '\r' || b[0] == '\n' then "" else b
    decreases |b|
  {
    if b == "" {
      assert a + b == a;
    } else {
      assert (a + b)[..|a + b| - 1] == a + b[..|b| - 1];
      StripJoins(a, b[..|b| - 1]);
    }
  }

  /** What is stored is as much of that as the buffer holds. */
  lemma StoredIsPrefix(s: string, size: Size)
    ensures Stored(s, size) <= Strip(s)
    ensures |Stored(s, size)| == if |Strip(s)| < size then |Strip(s)| else size - 1
  {
  }

  lemma {:induction false} StripGrows(s: string, i: nat)
    requires i <= |s|
    ensures Strip(s[..i]) <= Strip(s)
  {
    if i < |s| {
      assert s[..|s| - 1][..i] == s[..i];
      StripGrows(s[..|s| - 1], i);
    } else {
      assert s[..i] == s;
    }
  }

  /** The copy loop stops when the buffer is full. */
  method CopyStripped(s: string, size: Size) returns (r: string)
    ensures r == Stored(s, size)
  {
    r := "";
    var i := 0;
    while i < |s| && |r| < size - 1
      invariant 0 <= i <= |s| && |r| <= size - 1
      invariant r == Strip(s[..i])
    {
      assert s[..i + 1][..i] == s[..i];
      if !LineBreak(s[i]) {
        r := r + [s[i]];
      }
      i := i + 1;
    }
    StripGrows(s, i);
    assert i == |s| ==> s[..i] == s;
  }

  // ---- Symbols ----

  /** A symbol the station may beacon: a table identifier and a code. */
  predicate SymbolOk(s: string) {
    |s| == 2 && TableValid(s[0]) && CodeValid(s[1])
  }

  /** The text copied over a two-character symbol, each byte folded to its default when it
      is not valid. A text of one character ends in a terminator, which is no code; an
      empty text leaves the code byte as it was. */
  function Folded(text: string, held: string): (r: string)
    ensures SymbolOk(r)
    ensures SymbolOk(text) ==> r == text
    ensures text == "" && SymbolOk(held) ==> r == ['/', held[1]]
    ensures text != "" ==> r[0] == text[0] || (!TableValid(text[0]) && r[0] == '/')
    ensures |text| > 1 ==> r[1] == text[1] || (!CodeValid(text[1]) && r[1] == '&')
    ensures |text| == 1 ==> r[1] == '&'
  {
    var table := if text != "" && TableValid(text[0]) then text[0] else '/';
    var code := if |text| == 1 then '&' else if |text| > 1 then text[1] else if |held| > 1 then held[1] else '&';
    [table, if CodeValid(code) then code else '&']
  }

  // ---- Values ----

  /** Every value a normalised configuration may hold for a field. */
  predicate Ok(f: Field, v: Value) {
    Fits(ShapeOf(f), v)
  }

  predicate Fits(shape: Shape, v: Value) {
    match shape
    case Flag => v.One? && v.v.Bool?
    case Number(fix) => v.One? && v.v.Num? && InRange(fix, v.v.n)
    case Distance(top) => v.One? && DistanceOk(v.v, top)
    case Text(size) => v.One? && v.v.Str? && Plain(v.v.s, size)
    case Symbol => v.One? && v.v.Str? && SymbolOk(v.v.s)
    case Texts(count, size) => v.Arr? && TextsOk(v.items, count, size)
    case Numbers(count, fix) => v.Arr? && NumbersOk(v.items, count, fix)
    case Hosts(count, size, port) => v.Arr? && HostsOk(v.items, count, size, port)
  }

  predicate DistanceOk(v: Scalar, top: nat) {
    Numeric(v) && 0.0 <= RealOf(v) <= top as real
  }

  predicate TextsOk(items: seq<Scalar>, count: nat, size: nat) {
    |items| == count && forall i :: 0 <= i < count ==> TextOk(items[i], size)
  }

  predicate NumbersOk(items: seq<Scalar>, count: nat, fix: Fix) {
    |items| == count && forall i :: 0 <= i < count ==> NumOk(items[i], fix)
  }

  predicate HostsOk(items: seq<Scalar>, count: nat, size: nat, port: Fix) {
    |items| == 3 * count && forall i :: 0 <= i < |items| ==> HostOk(items[i], i, size, port)
  }

  /** The i-th item of a server list: a switch, a host name or a port. */
  predicate HostOk(v: Scalar, i: nat, size: nat, port: Fix) {
    if i % 3 == 0 then v.Bool? else if i % 3 == 1 then TextOk(v, size) else NumOk(v, port)
  }

  predicate TextOk(v: Scalar, size: nat) {
    v.Str? && Plain(v.s, size)
  }

  predicate NumOk(v: Scalar, fix: Fix) {
    v.Num? && InRange(fix, v.n)
  }

  function AsScalar(v: Option<Value>): Option<Scalar> {
    if v.Some? && v.value.One? then Some(v.value.v) else None
  }

  function Item(v: Option<Value>, i: nat): Option<Scalar> {
    if v.Some? && v.value.Arr? && i < |v.value.items| then Some(v.value.items[i]) else None
  }

  predicate IsNum(v: Option<Scalar>) {
    v.Some? && Numeric(v.value)
  }

  predicate IsStr(v: Option<Scalar>) {
    v.Some? && v.value.Str?
  }

  /** The number found, or else the one the field holds, brought into range. */
  function NumberFrom(found: Option<Scalar>, cur: Option<Scalar>, fix: Rule, junk: int -> int): Scalar {
    Num(Apply(fix, Truncated(NumeralFrom(found, cur)), junk))
  }

  function NumeralFrom(found: Option<Scalar>, cur: Option<Scalar>): (v: Scalar)
    ensures Numeric(v)
  {
    if IsNum(found) then found.value else if IsNum(cur) then cur.value else Num(0)
  }

  /** A distance keeps its fraction; one below 0 is 0. */
  function DistanceFrom(found: Option<Scalar>, cur: Option<Scalar>, top: nat): (v: Scalar)
    ensures DistanceOk(v, top)
    ensures var x := RealOf(NumeralFrom(found, cur));
            RealOf(v) == x || (x < 0.0 == RealOf(v)) || (x > top as real == RealOf(v))
  {
    var v := NumeralFrom(found, cur);
    if RealOf(v) < 0.0 then Num(0) else if RealOf(v) > top as real then Num(top) else v
  }

  function TextFrom(found: Option<Scalar>, cur: Option<Scalar>, size: Size): Scalar {
    Str(Stored(if IsStr(found) then found.value.s else if IsStr(cur) then cur.value.s else "", size))
  }

  function SymbolFrom(found: Option<Scalar>, cur: Option<Scalar>): Scalar {
    var held := if IsStr(cur) then cur.value.s else "";
    Str(Folded(Stored(if IsStr(found) then found.value.s else held, 3), held))
  }

  /** One item of a server list. A switch that is present but not true is off. */
  function HostFrom(found: Option<Scalar>, cur: Option<Scalar>, i: nat, size: Size, port: Rule, junk: int -> int)
      : Scalar
  {
    if i % 3 == 0 then Bool((if found.Some? then found else cur) == Some(Bool(true)))
    else if i % 3 == 1 then TextFrom(found, cur, size)
    else NumberFrom(found, cur, port, junk)
  }

  /** What a field becomes: the value found for its key if it has the right type, else
      what the field held, brought into range either way. */
  function ReadField(f: Field, found: Option<Value>, cur: Value, junk: int -> int): Value {
    ReadShape(ShapeOf(f), found, cur, junk)
  }

  function ReadShape(shape: Shape, found: Option<Value>, cur: Value, junk: int -> int): Value {
    match shape
    case Flag => if found.Some? && found.value.One? && found.value.v.Bool? then found.value else cur
    case Number(fix) => One(NumberFrom(AsScalar(found), AsScalar(Some(cur)), fix, junk))
    case Distance(top) => One(DistanceFrom(AsScalar(found), AsScalar(Some(cur)), top))
    case Text(size) => One(TextFrom(AsScalar(found), AsScalar(Some(cur)), size))
    case Symbol => One(SymbolFrom(AsScalar(found), AsScalar(Some(cur))))
    case Texts(count, size) => Arr(TextItems(found, cur, count, size))
    case Numbers(count, fix) => Arr(NumberItems(found, cur, count, fix, junk))
    case Hosts(count, size, port) =>
      if found.Some? && found.value.Arr? then Arr(HostItems(found, cur, count, size, port, junk)) else cur
  }

  function TextItems(found: Option<Value>, cur: Value, count: nat, size: Size): seq<Scalar> {
    seq(count, i requires 0 <= i < count => TextFrom(Item(found, i), Item(Some(cur), i), size))
  }

  function NumberItems(found: Option<Value>, cur: Value, count: nat, fix: Rule, junk: int -> int): seq<Scalar> {
    seq(count, i requires 0 <= i < count => NumberFrom(Item(found, i), Item(Some(cur), i), fix, junk))
  }

  function HostItem(found: Option<Value>, cur: Value, i: nat, size: Size, port: Rule, junk: int -> int): Scalar {
    HostFrom(Item(found, i), Item(Some(cur), i), i, size, port, junk)
  }

  function HostItems(found: Option<Value>, cur: Value, count: nat, size: Size, port: Rule, junk: int -> int)
      : seq<Scalar>
  {
    seq(3 * count, i requires 0 <= i < 3 * count => HostItem(found, cur, i, size, port, junk))
  }

  /** The three items of one server. */
  function HostRow(found: Option<Value>, cur: Value, i: nat, size: Size, port: Rule, junk: int -> int): seq<Scalar> {
    [HostItem(found, cur, 3 * i, size, port, junk),
     HostItem(found, cur, 3 * i + 1, size, port, junk),
     HostItem(found, cur, 3 * i + 2, size, port, junk)]
  }

  /** The document's value is of the type the field is read from. */
  predicate RightType(shape: Shape, v: Value) {
    match shape
    case Flag => v.One? && v.v.Bool?
    case Number(_) => v.One? && Numeric(v.v)
    case Distance(_) => v.One? && Numeric(v.v)
    case Text(_) => v.One? && v.v.Str?
    case Symbol => v.One? && v.v.Str?
    case _ => v.Arr?
  }

  /** Any document at all leaves the field in range, a value in range that the document
      carries is taken as it is, whatever the field held, and one of the wrong type leaves
      the field as it was. */
  lemma ReadNormalises(f: Field, found: Option<Value>, cur: Value, junk: int -> int)
    requires Ok(f, cur)
    ensures Ok(f, ReadField(f, found, cur, junk))
    ensures found.Some? && Ok(f, found.value) ==> ReadField(f, found, cur, junk) == found.value
    ensures found.None? ==> ReadField(f, found, cur, junk) == cur
    ensures found.Some? && !RightType(ShapeOf(f), found.value) ==> ReadField(f, found, cur, junk) == cur
  {
    ShapeNormalises(ShapeOf(f), found, cur, junk);
  }

  lemma ShapeNormalises(shape: Shape, found: Option<Value>, cur: Value, junk: int -> int)
    requires Fits(shape, cur)
    ensures Fits(shape, ReadShape(shape, found, cur, junk))
    ensures found.Some? && Fits(shape, found.value) ==> ReadShape(shape, found, cur, junk) == found.value
    ensures found.None? ==> ReadShape(shape, found, cur, junk) == cur
    ensures found.Some? && !RightType(shape, found.value) ==> ReadShape(shape, found, cur, junk) == cur
  {
    match shape
    case Flag =>
    case Number(fix) => NumberLands(AsScalar(found), AsScalar(Some(cur)), fix, junk);
    case Distance(_) =>
    case Text(size) =>
    case Symbol =>
    case Texts(count, size) => TextsRead(found, cur, count, size);
    case Numbers(count, fix) => NumbersRead(found, cur, count, fix, junk);
    case Hosts(count, size, port) => HostsRead(found, cur, count, size, port, junk);
  }

  lemma NumberLands(found: Option<Scalar>, cur: Option<Scalar>, fix: Rule, junk: int -> int)
    requires cur.Some? && NumOk(cur.value, fix)
    ensures NumOk(NumberFrom(found, cur, fix, junk), fix)
    ensures found.Some? && NumOk(found.value, fix) ==> NumberFrom(found, cur, fix, junk) == found.value
    ensures !IsNum(found) ==> NumberFrom(found, cur, fix, junk) == cur.value
  {
    ApplyLands(fix, Truncated(NumeralFrom(found, cur)), junk);
  }

  lemma TextsRead(found: Option<Value>, cur: Value, count: nat, size: Size)
    requires cur.Arr? && TextsOk(cur.items, count, size)
    ensures var r := TextItems(found, cur, count, size);
            && TextsOk(r, count, size)
            && (found.None? || !found.value.Arr? ==> r == cur.items)
            && (forall i :: 0 <= i < count && !IsStr(Item(found, i)) ==> r[i] == cur.items[i])
            && (found.Some? && found.value.Arr? && TextsOk(found.value.items, count, size) ==> r == found.value.items)
  {
    var r := TextItems(found, cur, count, size);
    forall i | 0 <= i < count
      ensures TextOk(r[i], size)
      ensures !IsStr(Item(found, i)) ==> r[i] == cur.items[i]
      ensures Item(found, i).Some? && TextOk(Item(found, i).value, size) ==> r[i] == Item(found, i).value
    {
      assert TextOk(cur.items[i], size);
    }
  }

  lemma NumbersRead(found: Option<Value>, cur: Value, count: nat, fix: Rule, junk: int -> int)
    requires cur.Arr? && NumbersOk(cur.items, count, fix)
    ensures var r := NumberItems(found, cur, count, fix, junk);
            && NumbersOk(r, count, fix)
            && (found.None? || !found.value.Arr? ==> r == cur.items)
            && (forall i :: 0 <= i < count && !IsNum(Item(found, i)) ==> r[i] == cur.items[i])
            && (found.Some? && found.value.Arr? && NumbersOk(found.value.items, count, fix) ==> r == found.value.items)
  {
    var r := NumberItems(found, cur, count, fix, junk);
    forall i | 0 <= i < count
      ensures NumOk(r[i], fix)
      ensures !IsNum(Item(found, i)) ==> r[i] == cur.items[i]
      ensures Item(found, i).Some? && NumOk(Item(found, i).value, fix) ==> r[i] == Item(found, i).value
    {
      assert NumOk(cur.items[i], fix);
      NumberLands(Item(found, i), Item(Some(cur), i), fix, junk);
    }
  }

  /** An item of a server that is there but of the wrong type. */
  predicate WrongHost(found: Option<Scalar>, i: nat) {
    found.Some?
    && !(if i % 3 == 0 then found.value.Bool? else if i % 3 == 1 then found.value.Str? else Numeric(found.value))
  }

  lemma HostLands(found: Option<Scalar>, cur: Scalar, i: nat, size: Size, port: Rule, junk: int -> int)
    requires HostOk(cur, i, size, port)
    ensures var r := HostFrom(found, Some(cur), i, size, port, junk);
            && HostOk(r, i, size, port)
            && (found.None? ==> r == cur)
            && (found.Some? && HostOk(found.value, i, size, port) ==> r == found.value)
            && (WrongHost(found, i) ==> r == if i % 3 == 0 then Bool(false) else cur)
  {
    if i % 3 == 2 {
      NumberLands(found, Some(cur), port, junk);
    }
  }

  lemma HostsRead(found: Option<Value>, cur: Value, count: nat, size: Size, port: Rule, junk: int -> int)
    requires cur.Arr? && HostsOk(cur.items, count, size, port)
    ensures var r := HostItems(found, cur, count, size, port, junk);
            && HostsOk(r, count, size, port)
            && (found.None? ==> r == cur.items)
            && (forall i :: 0 <= i < 3 * count && WrongHost(Item(found, i), i) ==>
                  r[i] == if i % 3 == 0 then Bool(false) else cur.items[i])
            && ((found.Some? && found.value.Arr? && HostsOk(found.value.items, count, size, port)) ==>
                  r == found.value.items)
  {
    var r := HostItems(found, cur, count, size, port, junk);
    forall i | 0 <= i < 3 * count
      ensures HostOk(r[i], i, size, port)
      ensures Item(found, i).None? ==> r[i] == cur.items[i]
      ensures Item(found, i).Some? && HostOk(Item(found, i).value, i, size, port) ==> r[i] == Item(found, i).value
      ensures WrongHost(Item(found, i), i) ==> r[i] == if i % 3 == 0 then Bool(false) else cur.items[i]
    {
      assert HostOk(cur.items[i], i, size, port);
      HostLands(Item(found, i), cur.items[i], i, size, port, junk);
    }
  }

  method ReadText(found: Option<Scalar>, cur: Option<Scalar>, size: Size) returns (text: Scalar)
    ensures text == TextFrom(found, cur, size)
  {
    var s := CopyStripped(if IsStr(found) then found.value.s else if IsStr(cur) then cur.value.s else "", size);
    text := Str(s);
  }

  /** The rows of a text array, one after another. */
  method ReadTexts(found: Option<Value>, cur: Value, count: nat, size: Size) returns (items: seq<Scalar>)
    ensures items == TextItems(found, cur, count, size)
  {
    items := [];
    ghost var all := TextItems(found, cur, count, size);
    for i := 0 to count
      invariant items == all[..i]
    {
      var text := ReadText(Item(found, i), Item(Some(cur), i), size);
      items := items + [text];
    }
  }

  /** The rows of a number array. */
  method ReadNumbers(found: Option<Value>, cur: Value, count: nat, fix: Rule, junk: int -> int)
      returns (items: seq<Scalar>)
    ensures items == NumberItems(found, cur, count, fix, junk)
  {
    items := [];
    ghost var all := NumberItems(found, cur, count, fix, junk);
    for i := 0 to count
      invariant items == all[..i]
    {
      items := items + [NumberFrom(Item(found, i), Item(Some(cur), i), fix, junk)];
    }
  }

  lemma HostPlaces(i: nat)
    ensures (3 * i) % 3 == 0 && (3 * i + 1) % 3 == 1 && (3 * i + 2) % 3 == 2
  {
  }

  method ReadHost(found: Option<Value>, cur: Value, i: nat, size: Size, port: Rule, junk: int -> int)
      returns (row: seq<Scalar>)
    ensures row == HostRow(found, cur, i, size, port, junk)
  {
    hide NumberFrom, TextFrom, Item;
    HostPlaces(i);
    var on := Item(found, 3 * i);
    var enabled := (if on.Some? then on else Item(Some(cur), 3 * i)) == Some(Bool(true));
    var name := ReadText(Item(found, 3 * i + 1), Item(Some(cur), 3 * i + 1), size);
    var number := NumberFrom(Item(found, 3 * i + 2), Item(Some(cur), 3 * i + 2), port, junk);
    assert Bool(enabled) == HostItem(found, cur, 3 * i, size, port, junk);
    assert name == HostItem(found, cur, 3 * i + 1, size, port, junk);
    assert number == HostItem(found, cur, 3 * i + 2, size, port, junk);
    row := [Bool(enabled), name, number];
  }

  /** The servers of a list. */
  method ReadHosts(found: Option<Value>, cur: Value, count: nat, size: Size, port: Rule, junk: int -> int)
      returns (items: seq<Scalar>)
    ensures items == HostItems(found, cur, count, size, port, junk)
  {
    items := [];
    for i := 0 to count
      invariant items == HostItems(found, cur, i, size, port, junk)
    {
      var row := ReadHost(found, cur, i, size, port, junk);
      items := items + row;
      HostsGrow(found, cur, i, size, port, junk);
    }
  }

  lemma HostsGrow(found: Option<Value>, cur: Value, i: nat, size: Size, port: Rule, junk: int -> int)
    ensures HostItems(found, cur, i + 1, size, port, junk)
         == HostItems(found, cur, i, size, port, junk) + HostRow(found, cur, i, size, port, junk)
  {
    hide HostItem;
    var less, more := HostItems(found, cur, i, size, port, junk), HostItems(found, cur, i + 1, size, port, junk);
    var row := HostRow(found, cur, i, size, port, junk);
    forall k | 0 <= k < 3 * i
      ensures more[k] == less[k]
    {
      HostAt(found, cur, i, k, size, port, junk);
      HostAt(found, cur, i + 1, k, size, port, junk);
    }
    HostRowAt(found, cur, i, size, port, junk);
  }

  lemma HostRowAt(found: Option<Value>, cur: Value, i: nat, size: Size, port: Rule, junk: int -> int)
    ensures var more, row := HostItems(found, cur, i + 1, size, port, junk), HostRow(found, cur, i, size, port, junk);
            more[3 * i] == row[0] && more[3 * i + 1] == row[1] && more[3 * i + 2] == row[2]
  {
    hide HostItem, HostItems;
    HostAt(found, cur, i + 1, 3 * i, size, port, junk);
    HostAt(found, cur, i + 1, 3 * i + 1, size, port, junk);
    HostAt(found, cur, i + 1, 3 * i + 2, size, port, junk);
  }

  lemma HostAt(found: Option<Value>, cur: Value, count: nat, k: nat, size: Size, port: Rule, junk: int -> int)
    requires k < 3 * count
    ensures HostItems(found, cur, count, size, port, junk)[k] == HostItem(found, cur, k, size, port, junk)
  {
  }

  method ReadOne(f: Field, found: Option<Value>, cur: Value, junk: int -> int) returns (v: Value)
    ensures v == ReadField(f, found, cur, junk)
  {
    v := ReadShaped(ShapeOf(f), found, cur, junk);
  }

  method ReadShaped(shape: Shape, found: Option<Value>, cur: Value, junk: int -> int) returns (v: Value)
    ensures v == ReadShape(shape, found, cur, junk)
  {
    match shape
    case Flag => v := if found.Some? && found.value.One? && found.value.v.Bool? then found.value else cur;
    case Number(fix) => v := One(NumberFrom(AsScalar(found), AsScalar(Some(cur)), fix, junk));
    case Distance(top) => v := One(DistanceFrom(AsScalar(found), AsScalar(Some(cur)), top));
    case Text(size) => v := One(TextFrom(AsScalar(found), AsScalar(Some(cur)), size));
    case Symbol => v := One(SymbolFrom(AsScalar(found), AsScalar(Some(cur))));
    case Texts(count, size) =>
      var items := ReadTexts(found, cur, count, size);
      v := Arr(items);
    case Numbers(count, fix) =>
      var items := ReadNumbers(found, cur, count, fix, junk);
      v := Arr(items);
    case Hosts(count, size, port) =>
      if found.Some? && found.value.Arr? {
        var items := ReadHosts(found, cur, count, size, port, junk);
        v := Arr(items);
      } else {
        v := cur;
      }
  }

  // ---- Documents ----

  /** The first member with a key. */
  function Find(doc: seq<Member>, key: string): Option<Value> {
    if doc == [] then None else if doc[0].key == key then Some(doc[0].value) else Find(doc[1..], key)
  }

  lemma {:induction false} FindAt(doc: seq<Member>, k: nat)
    requires k < |doc| && forall j :: 0 <= j < k ==> doc[j].key != doc[k].key
    ensures Find(doc, doc[k].key) == Some(doc[k].value)
  {
    if k > 0 {
      FindAt(doc[1..], k - 1);
    }
  }
}
