/** The tests the INET->RF gateway makes on one line of the APRS-IS feed. */
module GatewayRules {
  import opened Common
  import opened Text
  import opened ThirdParty

  // ---- The header ----

  function Header(line: string): string {
    line[..IndexOf(line, ':')]
  }

  function Info(line: string): string {
    var colon := IndexOf(line, ':');
    if colon == |line| then "" else line[colon + 1..]
  }

  const FORBIDDING: seq<string> := ["TCPXX", "NOGATE", "RFONLY", "qAX", "qAZ"]

  predicate OccursAt(s: string, token: string, i: nat) {
    i + |token| <= |s| && s[i..i + |token|] == token
  }

  predicate Occurs(s: string, token: string) {
    exists i: nat :: i <= |s| && OccursAt(s, token, i)
  }

  /** A token anywhere in the header forbids the packet. */
  predicate ForbidsRf(line: string) {
    exists t :: 0 <= t < |FORBIDDING| && Occurs(Header(line), FORBIDDING[t])
  }

  /** strstr: the first occurrence, or the length when there is none. */
  method FirstHit(s: string, token: string) returns (hit: nat)
    requires token != ""
    ensures hit <= |s| && (hit < |s| ==> OccursAt(s, token, hit))
    ensures forall i: nat :: i < hit ==> !OccursAt(s, token, i)
  {
    hit := 0;
    while hit < |s|
      invariant hit <= |s|
      invariant forall i: nat :: i < hit ==> !OccursAt(s, token, i)
    {
      if hit + |token| <= |s| && s[hit..hit + |token|] == token {
        return;
      }
      hit := hit + 1;
    }
  }

  lemma PrefixHit(line: string, colon: nat, token: string, i: nat)
    requires colon <= |line|
    ensures OccursAt(line[..colon], token, i) <==> OccursAt(line, token, i) && i + |token| <= colon
  {
    if i + |token| <= colon {
      assert line[..colon][i..i + |token|] == line[i..i + |token|];
    }
  }

  /** An occurrence that starts in the header lies inside it, as no token holds a ':'. */
  lemma HeaderHit(line: string, token: string, i: nat)
    requires ':' !in token && OccursAt(line, token, i) && i < IndexOf(line, ':')
    ensures i + |token| <= IndexOf(line, ':')
  {
    forall k | i <= k < i + |token|
      ensures line[k] == token[k - i]
    {
      assert line[i..i + |token|][k - i] == line[k];
    }
  }

  method HeaderForbidsRf(line: string) returns (yes: bool)
    ensures yes <==> ForbidsRf(line)
  {
    var headerLen := IndexOf(line, ':');
    for t := 0 to |FORBIDDING|
      invariant forall u :: 0 <= u < t ==> !Occurs(Header(line), FORBIDDING[u])
    {
      var token := FORBIDDING[t];
      var hit := FirstHit(line, token);
      if hit < headerLen {
        HeaderHit(line, token, hit);
        PrefixHit(line, headerLen, token, hit);
        assert Occurs(Header(line), FORBIDDING[t]);
        return true;
      }
      forall i: nat | i <= |Header(line)|
        ensures !OccursAt(Header(line), token, i)
      {
        PrefixHit(line, headerLen, token, i);
      }
    }
    return false;
  }

  // ---- Broadcast addressees ----

  /** The addressee of a message: nine characters between two colons, blanks stripped. */
  function Addressee(info: string): (a: Option<string>)
    ensures a.Some? ==> 0 < |a.value| <= 9 && info != "" && info[0] == ':'
  {
    if |info| < 11 || info[0] != ':' || info[10] != ':' || TrimRight(info[1..10]) == "" then None
    else Some(TrimRight(info[1..10]))
  }

  method MessageAddressee(info: string) returns (a: Option<string>)
    ensures a == Addressee(info)
  {
    if |info| < 11 || info[0] != ':' || info[10] != ':' {
      return None;
    }
    var n := 9;
    while n > 0 && info[n] == ' '
      invariant 0 <= n <= 9
      invariant TrimRight(info[1..10]) == TrimRight(info[1..n + 1])
    {
      assert info[1..n + 1][..n - 1] == info[1..n];
      n := n - 1;
    }
    assert TrimRight(info[1..n + 1]) == info[1..n + 1];
    return if n > 0 then Some(info[1..n + 1]) else None;
  }

  const BROADCAST: seq<string> := ["NWS", "SKY", "CWA"]

  predicate IsBroadcast(addressee: string) {
    || ("BLN" <= addressee && |addressee| > 3 && (IsDigit(addressee[3]) || IsUpper(addressee[3])))
    || (exists i :: 0 <= i < |BROADCAST| && BROADCAST[i] <= addressee)
  }

  method AddresseeIsBroadcast(addressee: string) returns (yes: bool)
    ensures yes <==> IsBroadcast(addressee)
  {
    if "BLN" <= addressee && |addressee| > 3 && (IsDigit(addressee[3]) || IsUpper(addressee[3])) {
      return true;
    }
    for i := 0 to |BROADCAST|
      invariant forall j :: 0 <= j < i ==> !(BROADCAST[j] <= addressee)
    {
      if BROADCAST[i] <= addressee {
        return true;
      }
    }
    return false;
  }

  predicate BroadcastMessage(line: string) {
    Addressee(Info(line)).Some? && IsBroadcast(Addressee(Info(line)).value)
  }

  method LineIsBroadcastMessage(line: string) returns (yes: bool)
    ensures yes <==> BroadcastMessage(line)
  {
    var a := MessageAddressee(Info(line));
    if a.None? {
      return false;
    }
    yes := AddresseeIsBroadcast(a.value);
  }

  // ---- Own reports ----

  /** The source up to its SSID. */
  function SourceBase(line: string): string {
    var dash, gt := IndexOf(line, '-'), IndexOf(line, '>');
    line[..if dash < gt then dash else gt]
  }

  /** A blank own callsign matches nothing. */
  predicate OwnReport(line: string, own: seq<string>) {
    SourceBase(line) != "" && exists i :: 0 <= i < |own| && own[i] != "" && SameCall(own[i], SourceBase(line))
  }

  method IsOwnReport(line: string, own: seq<string>) returns (yes: bool)
    ensures yes <==> OwnReport(line, own)
  {
    var n := 0;
    while n < |line| && line[n] != '-' && line[n] != '>'
      invariant 0 <= n <= |SourceBase(line)|
    {
      n := n + 1;
    }
    assert line[..n] == SourceBase(line);
    if n == 0 {
      return false;
    }
    for i := 0 to |own|
      invariant forall j :: 0 <= j < i ==> !(own[j] != "" && SameCall(own[j], SourceBase(line)))
    {
      if own[i] != "" && SameCall(own[i], line[..n]) {
        return true;
      }
    }
    return false;
  }

  // ---- The callsign list ----

  datatype BudMode = Off | Whitelist | Blacklist

  const BASE_MAX: nat := 9

  /** The callsign up to its SSID, cut to nine characters. */
  function Base(call: string): string {
    var dash := IndexOf(call, '-');
    call[..if dash < BASE_MAX then dash else if |call| < BASE_MAX then |call| else BASE_MAX]
  }

  predicate Listed(call: string, budlist: seq<string>) {
    Base(call) != "" && exists i :: 0 <= i < |budlist| && budlist[i] != "" && SameCall(Base(call), budlist[i])
  }

  method BudlistContains(call: string, budlist: seq<string>) returns (yes: bool)
    ensures yes <==> Listed(call, budlist)
  {
    var n := 0;
    while n < |call| && call[n] != '-' && n < BASE_MAX
      invariant 0 <= n <= |Base(call)|
    {
      n := n + 1;
    }
    assert call[..n] == Base(call);
    if n == 0 {
      return false;
    }
    for i := 0 to |budlist|
      invariant forall j :: 0 <= j < i ==> !(budlist[j] != "" && SameCall(Base(call), budlist[j]))
    {
      if budlist[i] != "" && SameCall(call[..n], budlist[i]) {
        return true;
      }
    }
    return false;
  }

  predicate BudlistPass(mode: BudMode, call: string, budlist: seq<string>) {
    match mode
    case Off => true
    case Whitelist => Listed(call, budlist)
    case Blacklist => !Listed(call, budlist)
  }

  /** Two SSIDs of one station stand or fall together on either list. */
  lemma BudlistIgnoresSsid(mode: BudMode, call: string, ssid: string, budlist: seq<string>)
    requires '-' !in call
    ensures BudlistPass(mode, call + "-" + ssid, budlist) <==> BudlistPass(mode, call, budlist)
  {
    var full := call + "-" + ssid;
    CutAt(call, '-', ssid);
    assert Base(full) == Base(call);
  }

  // ---- The source field ----

  const CALL_BUF: nat := 12

  function Cut(s: string): (r: string)
    ensures |r| < CALL_BUF
  {
    if |s| >= CALL_BUF then s[..CALL_BUF - 1] else s
  }

  /** The callsign a line is keyed on. */
  function Source(line: string): (r: string)
    ensures |r| < CALL_BUF
  {
    if HasHeader(line) then Cut(line[..IndexOf(line, '>')]) else ""
  }

  /** The source a third-party packet names, whatever follows it. */
  function InnerSource(inner: string): (r: string)
    ensures |r| < CALL_BUF
  {
    var gt := IndexOf(inner, '>');
    if gt < |inner| then Cut(inner[..gt]) else ""
  }
}
