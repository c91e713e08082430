/** The JSON the configuration files hold - one object of scalars and flat arrays - and a
    strict parser for it. */
module JsonText {
  import opened Common
  import opened Text

  /** The digits behind a decimal point. */
  type Digits = d: string | AllDigits(d) && d != "" && d[|d| - 1] != '0' witness "5"

  datatype Scalar =
    | Str(s: string)
    | Num(n: int)
    | Frac(negative: bool, whole: nat, digits: Digits)
    | Bool(b: bool)
    | Null

  datatype Value = One(v: Scalar) | Arr(items: seq<Scalar>)

  datatype Member = Member(key: string, value: Value)

  // ---- Writing ----

  function HexDigit(d: int): (c: char)
    requires 0 <= d < 16
  {
    "0123456789abcdef"[d]
  }

  function EscapeChar(c: char): (r: string)
    ensures r != ""
  {
    if c == '"' then "\\\""
    else if c == '\\' then "\\\\"
    else if c == '\U{8}' then "\\b"
    else if c == '\U{c}' then "\\f"
    else if c == '\n' then "\\n"
    else if c == '\r' then "\\r"
    else if c == '\t' then "\\t"
    else if c < ' ' then "\\u00" + [HexDigit(c as int / 16), HexDigit(c as int % 16)]
    else [c]
  }

  function Escape(s: string): string {
    if s == "" then "" else Escape(s[..|s| - 1]) + EscapeChar(s[|s| - 1])
  }

  function Quote(s: string): string {
    "\"" + Escape(s) + "\""
  }

  function ScalarText(v: Scalar): string {
    match v
    case Str(s) => Quote(s)
    case Num(n) => if n < 0 then "-" + Decimal(-n) else Decimal(n)
    case Frac(negative, whole, digits) => (if negative then "-" else "") + FracText(whole, digits)
    case Bool(b) => if b then "true" else "false"
    case Null => "null"
  }

  function FracText(whole: nat, digits: string): string {
    Decimal(whole) + ("." + digits)
  }

  /** Texts separated by commas. */
  function Joined(parts: seq<string>): string {
    if parts == [] then "" else if |parts| == 1 then parts[0] else parts[0] + "," + Joined(parts[1..])
  }

  function Comma(needed: bool): string {
    if needed then "," else ""
  }

  lemma {:induction false} JoinedAppend(parts: seq<string>, last: string)
    ensures Joined(parts + [last]) == Joined(parts) + Comma(parts != []) + last
  {
    if parts == [] {
    } else {
      assert (parts + [last])[1..] == parts[1..] + [last];
      JoinedAppend(parts[1..], last);
      if |parts| == 1 {
        assert parts[1..] == [];
        assert Joined([last]) == last;
      }
    }
  }

  lemma JoinedSplit(parts: seq<string>, end: string)
    requires |parts| > 1
    ensures Joined(parts) + end == parts[0] + ("," + (Joined(parts[1..]) + end))
  {
  }

  function ItemTexts(items: seq<Scalar>): (t: seq<string>)
    ensures |t| == |items|
  {
    seq(|items|, i requires 0 <= i < |items| => ScalarText(items[i]))
  }

  function ItemsText(items: seq<Scalar>): string {
    Joined(ItemTexts(items))
  }

  function ValueText(v: Value): string {
    match v
    case One(s) => ScalarText(s)
    case Arr(items) => "[" + ItemsText(items) + "]"
  }

  function MemberText(m: Member): string {
    Quote(m.key) + ":" + ValueText(m.value)
  }

  function MemberTexts(members: seq<Member>): (t: seq<string>)
    ensures |t| == |members|
  {
    seq(|members|, i requires 0 <= i < |members| => MemberText(members[i]))
  }

  function MembersText(members: seq<Member>): string {
    Joined(MemberTexts(members))
  }

  function DocText(members: seq<Member>): string {
    "{" + MembersText(members) + "}"
  }

  // ---- Reading ----

  function HexValue(c: char): Option<nat> {
    if IsDigit(c) then Some(DigitValue(c))
    else if 'a' <= c <= 'f' then Some(c as int - 'a' as int + 10)
    else if 'A' <= c <= 'F' then Some(c as int - 'A' as int + 10)
    else None
  }

  function ReadHex4(t: string): Option<char>
    requires |t| >= 4
  {
    match (HexValue(t[0]), HexValue(t[1]), HexValue(t[2]), HexValue(t[3]))
    case (Some(a), Some(b), Some(c), Some(d)) =>
      var v := ((a * 16 + b) * 16 + c) * 16 + d;
      if v < 0xD800 then Some(v as char) else None
    case _ => None
  }

  /** One character of a string literal; raw control characters are not JSON. */
  function ReadChar(t: string): (r: Option<(char, string)>)
    requires t != ""
    ensures r.Some? ==> |r.value.1| < |t|
  {
    if t[0] < ' ' then None
    else if t[0] != '\\' then Some((t[0], t[1..]))
    else if |t| < 2 then None
    else if t[1] == '"' || t[1] == '\\' || t[1] == '/' then Some((t[1], t[2..]))
    else if t[1] == 'b' then Some(('\U{8}', t[2..]))
    else if t[1] == 'f' then Some(('\U{c}', t[2..]))
    else if t[1] == 'n' then Some(('\n', t[2..]))
    else if t[1] == 'r' then Some(('\r', t[2..]))
    else if t[1] == 't' then Some(('\t', t[2..]))
    else if t[1] == 'u' && |t| >= 6 then
      match ReadHex4(t[2..6]) case None => None case Some(c) => Some((c, t[6..]))
    else None
  }

  /** The rest of a string literal, up to its closing quote. */
  function ReadBody(t: string): (r: Option<(string, string)>)
    ensures r.Some? ==> |r.value.1| < |t|
    decreases |t|
  {
    if t == "" then None
    else if t[0] == '"' then Some(("", t[1..]))
    else
      match ReadChar(t)
      case None => None
      case Some((c, rest)) =>
        match ReadBody(rest) case None => None case Some((s, end)) => Some(([c] + s, end))
  }

  function DigitRun(t: string): (n: nat)
    ensures n <= |t| && AllDigits(t[..n])
    ensures n < |t| ==> !IsDigit(t[n])
  {
    if t == "" || !IsDigit(t[0]) then 0
    else
      var n := 1 + DigitRun(t[1..]);
      assert t[..n] == [t[0]] + t[1..][..n - 1];
      n
  }

  /** Digits with no leading zero. */
  function ReadDigits(t: string): (r: Option<(nat, string)>)
    ensures r.Some? ==> |r.value.1| < |t|
  {
    var n := DigitRun(t);
    if n == 0 || (n > 1 && t[0] == '0') then None else Some((Number(t[..n]), t[n..]))
  }

  function TrimZeros(d: string): (r: string)
    requires AllDigits(d)
    ensures AllDigits(r) && (r != "" ==> r[|r| - 1] != '0')
    ensures d != "" && d[|d| - 1] != '0' ==> r == d
  {
    if d == "" || d[|d| - 1] != '0' then d else TrimZeros(d[..|d| - 1])
  }

  /** The digits of a fraction, if one follows, and the rest. */
  function ReadFraction(t: string): (r: (string, string))
    ensures |r.1| <= |t| && AllDigits(r.0) && (r.0 != "" ==> r.0[|r.0| - 1] != '0')
  {
    if t == "" || t[0] != '.' || DigitRun(t[1..]) == 0 then ("", t)
    else
      var n := DigitRun(t[1..]);
      (TrimZeros(t[1..][..n]), t[1..][n..])
  }

  function MakeNumber(negative: bool, whole: nat, digits: string): Scalar
    requires AllDigits(digits) && (digits != "" ==> digits[|digits| - 1] != '0')
  {
    if digits != "" then Frac(negative, whole, digits) else Num(if negative then -(whole as int) else whole)
  }

  function ReadNumber(negative: bool, t: string): (r: Option<(Scalar, string)>)
    ensures r.Some? ==> |r.value.1| < |t|
  {
    match ReadDigits(t)
    case None => None
    case Some((n, rest)) => Some((MakeNumber(negative, n, ReadFraction(rest).0), ReadFraction(rest).1))
  }

  function ReadScalar(t: string): (r: Option<(Scalar, string)>)
    ensures r.Some? ==> |r.value.1| < |t|
  {
    if t == "" then None
    else if t[0] == '"' then
      match ReadBody(t[1..]) case None => None case Some((s, rest)) => Some((Str(s), rest))
    else if "true" <= t then Some((Bool(true), t[4..]))
    else if "false" <= t then Some((Bool(false), t[5..]))
    else if "null" <= t then Some((Null, t[4..]))
    else if t[0] == '-' then ReadNumber(true, t[1..])
    else ReadNumber(false, t)
  }

  /** One or more items and the closing bracket. */
  function ReadItems(t: string): (r: Option<(seq<Scalar>, string)>)
    ensures r.Some? ==> |r.value.1| < |t|
    decreases |t|
  {
    match ReadScalar(t)
    case None => None
    case Some((v, rest)) =>
      if rest == "" then None
      else if rest[0] == ']' then Some(([v], rest[1..]))
      else if rest[0] == ',' then
        match ReadItems(rest[1..]) case None => None case Some((vs, end)) => Some(([v] + vs, end))
      else None
  }

  function ReadValue(t: string): (r: Option<(Value, string)>)
    ensures r.Some? ==> |r.value.1| < |t|
  {
    if t == "" || t[0] != '[' then
      match ReadScalar(t) case None => None case Some((v, rest)) => Some((One(v), rest))
    else if |t| >= 2 && t[1] == ']' then Some((Arr([]), t[2..]))
    else match ReadItems(t[1..]) case None => None case Some((vs, rest)) => Some((Arr(vs), rest))
  }

  function ReadMember(t: string): (r: Option<(Member, string)>)
    ensures r.Some? ==> |r.value.1| < |t|
  {
    if t == "" || t[0] != '"' then None
    else
      match ReadBody(t[1..])
      case None => None
      case Some((k, rest)) =>
        if rest == "" || rest[0] != ':' then None
        else match ReadValue(rest[1..]) case None => None case Some((v, end)) => Some((Member(k, v), end))
  }

  /** One or more members and the closing brace. */
  function ReadMembers(t: string): (r: Option<(seq<Member>, string)>)
    ensures r.Some? ==> |r.value.1| < |t|
    decreases |t|
  {
    match ReadMember(t)
    case None => None
    case Some((m, rest)) =>
      if rest == "" then None
      else if rest[0] == '}' then Some(([m], rest[1..]))
      else if rest[0] == ',' then
        match ReadMembers(rest[1..]) case None => None case Some((ms, end)) => Some(([m] + ms, end))
      else None
  }

  /** A whole document: every comma separates two members, and nothing follows. */
  function ParseDoc(t: string): Option<seq<Member>> {
    if t == "{}" then Some([])
    else if t == "" || t[0] != '{' then None
    else match ReadMembers(t[1..]) case None => None case Some((ms, rest)) => if rest == "" then Some(ms) else None
  }

  // ---- Reading back what is written ----

  lemma CharBack(c: char, rest: string)
    ensures EscapeChar(c)[0] != '"' && ReadChar(EscapeChar(c) + rest) == Some((c, rest))
  {
    var t := EscapeChar(c) + rest;
    if c < ' ' && |EscapeChar(c)| == 6 {
      var hi, lo := c as int / 16, c as int % 16;
      assert hi < 2;
      assert HexValue(HexDigit(hi)) == Some(hi) && HexValue(HexDigit(lo)) == Some(lo);
      var h := t[2..6];
      assert h == ['0', '0', HexDigit(hi), HexDigit(lo)];
      assert ReadHex4(h) == Some(c);
      assert t[6..] == rest;
    }
  }

  lemma BodyStep(c: char, done: string, tail: string, rest: string)
    requires ReadBody(tail) == Some((done, rest))
    ensures ReadBody(EscapeChar(c) + tail) == Some(([c] + done, rest))
  {
    CharBack(c, tail);
    assert (EscapeChar(c) + tail)[0] == EscapeChar(c)[0];
  }

  lemma EscapeLast(s: string, tail: string)
    requires s != ""
    ensures Escape(s) + tail == Escape(s[..|s| - 1]) + (EscapeChar(s[|s| - 1]) + tail)
  {
  }

  lemma MoveLast(s: string, done: string)
    requires s != ""
    ensures s[..|s| - 1] + ([s[|s| - 1]] + done) == s + done
  {
  }

  /** An escaped text ends at its own closing quote and nowhere before. */
  lemma {:induction false} BodyBack(s: string, done: string, tail: string, rest: string)
    requires ReadBody(tail) == Some((done, rest))
    ensures ReadBody(Escape(s) + tail) == Some((s + done, rest))
  {
    if s == "" {
      assert Escape(s) + tail == tail && s + done == done;
    } else {
      BodyStep(s[|s| - 1], done, tail, rest);
      EscapeLast(s, tail);
      MoveLast(s, done);
      BodyBack(s[..|s| - 1], [s[|s| - 1]] + done, EscapeChar(s[|s| - 1]) + tail, rest);
    }
  }

  lemma QuoteEnds(rest: string)
    ensures ReadBody("\"" + rest) == Some(("", rest))
  {
  }

  lemma QuoteBack(s: string, rest: string)
    ensures (Quote(s) + rest)[0] == '"' && ReadBody((Quote(s) + rest)[1..]) == Some((s, rest))
  {
    hide Escape, ReadBody;
    QuoteEnds(rest);
    BodyBack(s, "", "\"" + rest, rest);
    assert (Quote(s) + rest)[1..] == Escape(s) + ("\"" + rest);
    assert s + "" == s;
  }

  lemma {:induction false} DigitRunOf(d: string, rest: string)
    requires AllDigits(d) && (rest == "" || !IsDigit(rest[0]))
    ensures DigitRun(d + rest) == |d|
  {
    if d == "" {
      assert d + rest == rest;
    } else {
      assert (d + rest)[1..] == d[1..] + rest;
      DigitRunOf(d[1..], rest);
    }
  }

  lemma DigitsBack(n: nat, rest: string)
    requires rest == "" || !IsDigit(rest[0])
    ensures ReadDigits(Decimal(n) + rest) == Some((n, rest))
  {
    var d := Decimal(n);
    DigitRunOf(d, rest);
    NumberOfDecimal(n);
    assert (d + rest)[..|d|] == d && (d + rest)[|d|..] == rest;
  }

  /** What may follow a number. */
  predicate Ends(rest: string) {
    rest == "" || (!IsDigit(rest[0]) && rest[0] != '.')
  }

  lemma WholeBack(negative: bool, n: nat, rest: string)
    requires Ends(rest)
    ensures ReadNumber(negative, Decimal(n) + rest) == Some((Num(if negative then -(n as int) else n), rest))
  {
    DigitsBack(n, rest);
  }

  lemma FractionBack(digits: Digits, rest: string)
    requires Ends(rest)
    ensures ReadFraction("." + digits + rest) == (digits, rest)
  {
    var t := "." + digits + rest;
    DigitRunOf(digits, rest);
    assert t[1..] == digits + rest;
    assert (digits + rest)[..|digits|] == digits && (digits + rest)[|digits|..] == rest;
  }

  lemma FracBack(negative: bool, n: nat, digits: Digits, rest: string)
    requires Ends(rest)
    ensures ReadNumber(negative, FracText(n, digits) + rest) == Some((Frac(negative, n, digits), rest))
  {
    hide ReadFraction, ReadDigits, Decimal;
    DigitsBack(n, "." + digits + rest);
    FractionBack(digits, rest);
    assert FracText(n, digits) + rest == Decimal(n) + ("." + digits + rest);
  }

  lemma PlainNumber(t: string)
    requires t != "" && IsDigit(t[0])
    ensures ReadScalar(t) == ReadNumber(false, t)
  {
    hide ReadNumber, ReadBody;
  }

  lemma MinusNumber(t: string)
    ensures ReadScalar("-" + t) == ReadNumber(true, t)
  {
    hide ReadNumber, ReadBody;
    assert ("-" + t)[1..] == t;
  }

  lemma NumBack(n: int, rest: string)
    requires Ends(rest)
    ensures ReadScalar(ScalarText(Num(n)) + rest) == Some((Num(n), rest))
  {
    hide ReadNumber, ReadScalar, Decimal;
    if n < 0 {
      WholeBack(true, -n, rest);
      MinusNumber(Decimal(-n) + rest);
      assert ScalarText(Num(n)) + rest == "-" + (Decimal(-n) + rest);
    } else {
      WholeBack(false, n, rest);
      PlainNumber(Decimal(n) + rest);
    }
  }

  lemma FracScalarBack(negative: bool, whole: nat, digits: Digits, rest: string)
    requires Ends(rest)
    ensures ReadScalar(ScalarText(Frac(negative, whole, digits)) + rest) == Some((Frac(negative, whole, digits), rest))
  {
    hide ReadNumber, ReadScalar, Decimal;
    var text := FracText(whole, digits);
    FracBack(negative, whole, digits, rest);
    if negative {
      MinusNumber(text + rest);
      assert "-" + text + rest == "-" + (text + rest);
    } else {
      PlainNumber(text + rest);
      assert "" + text == text;
    }
  }

  lemma ScalarBack(v: Scalar, rest: string)
    requires Ends(rest)
    ensures ReadScalar(ScalarText(v) + rest) == Some((v, rest))
  {
    if v.Str? {
      QuoteBack(v.s, rest);
    } else if v.Num? {
      NumBack(v.n, rest);
    } else if v.Frac? {
      FracScalarBack(v.negative, v.whole, v.digits, rest);
    } else {
      WordBack(v, rest);
    }
  }

  lemma WordBack(v: Scalar, rest: string)
    requires v.Bool? || v.Null?
    ensures ReadScalar(ScalarText(v) + rest) == Some((v, rest))
  {
    assert (ScalarText(v) + rest)[|ScalarText(v)|..] == rest;
  }

  lemma ItemsStep(t: string, v: Scalar, after: string)
    requires ReadScalar(t) == Some((v, after)) && after != ""
    ensures after[0] == ']' ==> ReadItems(t) == Some(([v], after[1..]))
    ensures after[0] == ',' && ReadItems(after[1..]).Some? ==>
              ReadItems(t) == Some(([v] + ReadItems(after[1..]).value.0, ReadItems(after[1..]).value.1))
  {
  }

  lemma ItemsSplit(items: seq<Scalar>, end: string)
    requires |items| > 1
    ensures ItemsText(items) + end == ScalarText(items[0]) + ("," + (ItemsText(items[1..]) + end))
  {
    hide ScalarText;
    JoinedSplit(ItemTexts(items), end);
    assert ItemTexts(items)[1..] == ItemTexts(items[1..]);
  }

  lemma LastItemBack(v: Scalar, rest: string)
    ensures ReadItems(ScalarText(v) + ("]" + rest)) == Some(([v], rest))
  {
    var after := "]" + rest;
    ScalarBack(v, after);
    ItemsStep(ScalarText(v) + after, v, after);
    assert after[1..] == rest;
  }

  lemma MoreItemsBack(v: Scalar, others: seq<Scalar>, later: string, rest: string)
    requires ReadItems(later) == Some((others, rest))
    ensures ReadItems(ScalarText(v) + ("," + later)) == Some(([v] + others, rest))
  {
    var after := "," + later;
    ScalarBack(v, after);
    assert after[1..] == later;
    ItemsStep(ScalarText(v) + after, v, after);
  }

  lemma {:induction false} ItemsBack(items: seq<Scalar>, rest: string)
    requires items != []
    ensures ReadItems(ItemsText(items) + ("]" + rest)) == Some((items, rest))
  {
    if |items| == 1 {
      LastItemBack(items[0], rest);
      assert ItemsText(items) == ScalarText(items[0]) && items == [items[0]];
    } else {
      ItemsSplit(items, "]" + rest);
      ItemsBack(items[1..], rest);
      MoreItemsBack(items[0], items[1..], ItemsText(items[1..]) + ("]" + rest), rest);
      assert [items[0]] + items[1..] == items;
    }
  }

  lemma ScalarStart(v: Scalar)
    ensures ScalarText(v) != "" && ScalarText(v)[0] != '[' && ScalarText(v)[0] != ']'
  {
  }

  lemma ItemsStart(items: seq<Scalar>)
    requires items != []
    ensures ItemsText(items) != "" && ItemsText(items)[0] != ']'
  {
    ScalarStart(items[0]);
    assert ItemTexts(items)[0] == ScalarText(items[0]);
  }

  lemma ReadScalarValue(t: string, v: Scalar, rest: string)
    requires t != "" && t[0] != '[' && ReadScalar(t) == Some((v, rest))
    ensures ReadValue(t) == Some((One(v), rest))
  {
  }

  lemma ReadArrayValue(t: string, items: seq<Scalar>, rest: string)
    requires |t| >= 2 && t[0] == '[' && t[1] != ']' && ReadItems(t[1..]) == Some((items, rest))
    ensures ReadValue(t) == Some((Arr(items), rest))
  {
  }

  lemma EmptyArrayBack(rest: string)
    ensures ReadValue("[]" + rest) == Some((Arr([]), rest))
  {
    assert ("[]" + rest)[2..] == rest;
  }

  lemma InBrackets(text: string, rest: string)
    ensures var t := "[" + text + "]" + rest;
            t[0] == '[' && t[1..] == text + ("]" + rest)
  {
  }

  lemma ArrayBack(items: seq<Scalar>, rest: string)
    ensures ReadValue(ValueText(Arr(items)) + rest) == Some((Arr(items), rest))
  {
    if items == [] {
      EmptyArrayBack(rest);
      assert ValueText(Arr(items)) == "[]";
    } else {
      ItemsStart(items);
      ItemsBack(items, rest);
      InBrackets(ItemsText(items), rest);
      ReadArrayValue("[" + ItemsText(items) + "]" + rest, items, rest);
    }
  }

  lemma ValueBack(v: Value, rest: string)
    requires Ends(rest)
    ensures ReadValue(ValueText(v) + rest) == Some((v, rest))
  {
    if v.One? {
      ScalarStart(v.v);
      ScalarBack(v.v, rest);
      ReadScalarValue(ValueText(v) + rest, v.v, rest);
    } else {
      ArrayBack(v.items, rest);
    }
  }

  lemma ReadMemberBy(t: string, k: string, after: string, v: Value, rest: string)
    requires t != "" && t[0] == '"' && ReadBody(t[1..]) == Some((k, after))
    requires after != "" && after[0] == ':' && ReadValue(after[1..]) == Some((v, rest))
    ensures ReadMember(t) == Some((Member(k, v), rest))
  {
  }

  lemma AroundColon(a: string, b: string, rest: string)
    ensures a + ":" + b + rest == a + (":" + (b + rest)) && (":" + (b + rest))[1..] == b + rest
  {
  }

  lemma MemberBack(m: Member, rest: string)
    requires Ends(rest)
    ensures ReadMember(MemberText(m) + rest) == Some((m, rest))
  {
    var after := ":" + (ValueText(m.value) + rest);
    AroundColon(Quote(m.key), ValueText(m.value), rest);
    QuoteBack(m.key, after);
    ValueBack(m.value, rest);
    ReadMemberBy(Quote(m.key) + after, m.key, after, m.value, rest);
  }

  lemma MembersStep(t: string, m: Member, after: string)
    requires ReadMember(t) == Some((m, after)) && after != ""
    ensures after[0] == '}' ==> ReadMembers(t) == Some(([m], after[1..]))
    ensures after[0] == ',' && ReadMembers(after[1..]).Some? ==>
              ReadMembers(t) == Some(([m] + ReadMembers(after[1..]).value.0, ReadMembers(after[1..]).value.1))
  {
  }

  lemma MembersSplit(members: seq<Member>, end: string)
    requires |members| > 1
    ensures MembersText(members) + end == MemberText(members[0]) + ("," + (MembersText(members[1..]) + end))
  {
    hide MemberText;
    JoinedSplit(MemberTexts(members), end);
    assert MemberTexts(members)[1..] == MemberTexts(members[1..]);
  }

  lemma LastMemberBack(m: Member, rest: string)
    ensures ReadMembers(MemberText(m) + ("}" + rest)) == Some(([m], rest))
  {
    var after := "}" + rest;
    MemberBack(m, after);
    MembersStep(MemberText(m) + after, m, after);
    assert after[1..] == rest;
  }

  lemma MoreMembersBack(m: Member, others: seq<Member>, later: string, rest: string)
    requires ReadMembers(later) == Some((others, rest))
    ensures ReadMembers(MemberText(m) + ("," + later)) == Some(([m] + others, rest))
  {
    var after := "," + later;
    MemberBack(m, after);
    assert after[1..] == later;
    MembersStep(MemberText(m) + after, m, after);
  }

  lemma {:induction false} MembersBack(members: seq<Member>, rest: string)
    requires members != []
    ensures ReadMembers(MembersText(members) + ("}" + rest)) == Some((members, rest))
  {
    if |members| == 1 {
      LastMemberBack(members[0], rest);
      assert MembersText(members) == MemberText(members[0]) && members == [members[0]];
    } else {
      MembersSplit(members, "}" + rest);
      MembersBack(members[1..], rest);
      MoreMembersBack(members[0], members[1..], MembersText(members[1..]) + ("}" + rest), rest);
      assert [members[0]] + members[1..] == members;
    }
  }

  lemma MembersStart(members: seq<Member>)
    requires members != []
    ensures MembersText(members) != "" && MembersText(members)[0] == '"'
  {
    assert MemberTexts(members)[0] == MemberText(members[0]);
  }

  lemma ParseDocBy(t: string, ms: seq<Member>)
    requires |t| >= 2 && t[0] == '{' && t[1] != '}' && ReadMembers(t[1..]) == Some((ms, ""))
    ensures ParseDoc(t) == Some(ms)
  {
  }

  lemma NoMembersBack()
    ensures ParseDoc(DocText([])) == Some([])
  {
    assert DocText([]) == "{}";
  }

  /** A strict reader gets every document back member by member: no comma is missing or
      left over, and no text breaks out of its quotes. */
  lemma DocBack(members: seq<Member>)
    ensures ParseDoc(DocText(members)) == Some(members)
  {
    hide ParseDoc, ReadMembers, MembersText;
    var t := DocText(members);
    if members == [] {
      NoMembersBack();
    } else {
      MembersBack(members, "");
      MembersStart(members);
      assert "}" + "" == "}";
      assert t[1..] == MembersText(members) + "}";
      ParseDocBy(t, members);
    }
  }
}
