/** Wrapping an APRS-IS line into the third-party frame that carries it on RF. */
module ThirdParty {
  import opened Common
  import opened Text

  const CALL_MAX_BASE: nat := 9
  const TOKEN_BUF: nat := 12
  const TNC2_MAX_LEN: nat := 328
  const TOCALL := "APE32I"

  // ---- Legal callsigns ----

  predicate LegalBase(b: string) {
    1 <= |b| <= CALL_MAX_BASE && forall i :: 0 <= i < |b| ==> IsUpper(b[i]) || IsDigit(b[i])
  }

  /** One or two digits, 0 to 15. */
  predicate LegalSsid(s: string) {
    || (|s| == 1 && IsDigit(s[0]))
    || (|s| == 2 && IsDigit(s[0]) && IsDigit(s[1])
        && DigitValue(s[0]) * 10 + DigitValue(s[1]) <= 15)
  }

  predicate LegalCall(call: string) {
    var dash := IndexOf(call, '-');
    LegalBase(call[..dash]) && (dash == |call| || LegalSsid(call[dash + 1..]))
  }

  method IsLegalCall(call: string) returns (ok: bool)
    ensures ok <==> LegalCall(call)
  {
    var i := 0;
    ghost var dash := IndexOf(call, '-');
    while i < |call| && call[i] != '-'
      invariant 0 <= i <= dash && i <= CALL_MAX_BASE
      invariant forall j :: 0 <= j < i ==> IsUpper(call[j]) || IsDigit(call[j])
    {
      if !IsUpper(call[i]) && !IsDigit(call[i]) {
        assert call[..dash][i] == call[i];
        return false;
      }
      i := i + 1;
      if i > CALL_MAX_BASE {
        return false;
      }
    }
    assert i == dash;
    if i == 0 {
      return false;
    }
    if i == |call| {
      return true;
    }
    ghost var s := call[dash + 1..];
    i := i + 1;
    if i == |call| || !IsDigit(call[i]) {
      return false;
    }
    assert s[0] == call[i];
    var ssid := DigitValue(call[i]);
    i := i + 1;
    if i < |call| && IsDigit(call[i]) {
      assert s[1] == call[i];
      ssid := ssid * 10 + DigitValue(call[i]);
      i := i + 1;
    }
    return i == |call| && ssid <= 15;
  }

  lemma LegalCallBytes(call: string)
    requires LegalCall(call)
    ensures ':' !in call && '>' !in call && ',' !in call && '}' !in call && call != ""
  {
    var dash := IndexOf(call, '-');
    forall i | 0 <= i < |call|
      ensures IsUpper(call[i]) || IsDigit(call[i]) || call[i] == '-'
    {
      if i < dash {
        assert call[..dash][i] == call[i];
      } else if i > dash {
        assert call[dash + 1..][i - dash - 1] == call[i];
      }
    }
  }

  // ---- Taking a line apart ----

  /** The three parts of a line that survive the wrapping. */
  datatype Parts = Parts(src: string, dst: string, info: string)

  predicate HasHeader(line: string) {
    IndexOf(line, '>') < IndexOf(line, ':') < |line|
  }

  function Split(line: string): (p: Parts)
    requires HasHeader(line)
  {
    var gt, colon := IndexOf(line, '>'), IndexOf(line, ':');
    var header := line[gt + 1..colon];
    Parts(line[..gt], header[..IndexOf(header, ',')], line[colon + 1..])
  }

  predicate Wrappable(line: string) {
    && HasHeader(line)
    && |Split(line).src| < TOKEN_BUF && |Split(line).dst| < TOKEN_BUF
    && LegalCall(Split(line).src) && LegalCall(Split(line).dst)
  }

  /** The gateway's own address text: the configured call, with its SSID unless 0. */
  function OwnCall(mycall: string, ssid: nat): string {
    if ssid > 0 then mycall + "-" + Decimal(ssid) else mycall
  }

  /** The path of the inner packet: it came over the Internet through this gateway. */
  function Via(own: string): string {
    ",TCPIP," + own + "*"
  }

  function InnerHeader(own: string, p: Parts): string {
    p.src + ['>'] + (p.dst + Via(own))
  }

  function Inner(own: string, p: Parts): string {
    InnerHeader(own, p) + [':'] + p.info
  }

  function OuterHeader(own: string, path: string): string {
    own + ['>'] + (TOCALL + path)
  }

  function Wrapped(own: string, path: string, p: Parts): string {
    OuterHeader(own, path) + [':'] + (['}'] + Inner(own, p))
  }

  lemma WrappedNotEmpty(own: string, path: string, p: Parts)
    ensures Wrapped(own, path, p) != ""
  {
  }

  /** The destination: everything from after the '>' to the first ',' or the ':'. */
  method DestinationOf(line: string) returns (dst: string)
    requires HasHeader(line)
    ensures dst == Split(line).dst
  {
    var gt, colon := IndexOf(line, '>'), IndexOf(line, ':');
    var header := line[gt + 1..colon];
    var end := gt + 1;
    while end < colon && line[end] != ','
      invariant gt + 1 <= end <= gt + 1 + IndexOf(header, ',')
    {
      assert line[end] == header[end - gt - 1];
      end := end + 1;
    }
    assert end < colon ==> line[end] == header[end - gt - 1];
    dst := header[..end - gt - 1];
  }

  /** The parts of a line whose two addresses the wrapper can carry. */
  method TakeApart(line: string) returns (p: Option<Parts>)
    ensures p == if Wrappable(line) then Some(Split(line)) else None
  {
    hide LegalCall;
    var gt, colon := IndexOf(line, '>'), IndexOf(line, ':');
    if gt == |line| || colon == |line| || colon <= gt {
      return None;
    }
    var src := line[..gt];
    if |src| >= TOKEN_BUF {
      return None;
    }
    var dst := DestinationOf(line);
    if |dst| >= TOKEN_BUF {
      return None;
    }
    var srcOk := IsLegalCall(src);
    var dstOk := IsLegalCall(dst);
    if !srcOk || !dstOk {
      return None;
    }
    return Some(Parts(src, dst, line[colon + 1..]));
  }

  /** Returns the frame and its length, or length 0 when the line cannot be wrapped or the
      frame would not fit; never a truncated frame. */
  method BuildThirdPartyFrame(line: string, mycall: string, ssid: nat, path: string, outMax: nat)
    returns (out: string, n: nat)
    ensures n > 0 <==> Wrappable(line) && |Wrapped(OwnCall(mycall, ssid), path, Split(line))| <= TNC2_MAX_LEN
                       && |Wrapped(OwnCall(mycall, ssid), path, Split(line))| < outMax
    ensures n > 0 ==> n == |out| && out == Wrapped(OwnCall(mycall, ssid), path, Split(line))
  {
    hide Wrapped, Wrappable, Split;
    var p := TakeApart(line);
    if p.None? {
      return "", 0;
    }
    var callField := if ssid > 0 then mycall + "-" + Decimal(ssid) else mycall;
    var text := Wrapped(callField, path, p.value);
    WrappedNotEmpty(callField, path, p.value);
    if |text| >= outMax || |text| > TNC2_MAX_LEN {
      return "", 0;
    }
    return text, |text|;
  }

  // ---- The receiver's view ----

  /** What a third-party frame carries: the text after the first ':' when that starts
      with '}'. */
  function Unwrap(frame: string): Option<string> {
    var colon := IndexOf(frame, ':');
    if colon + 1 < |frame| && frame[colon + 1] == '}' then Some(frame[colon + 2..]) else None
  }

  /** The packet in the frame splits into the same three parts as the line. */
  predicate CarriesLine(frame: string, line: string)
    requires HasHeader(line)
  {
    Unwrap(frame).Some? && HasHeader(Unwrap(frame).value) && Split(Unwrap(frame).value) == Split(line)
  }

  /** Whether a receiver finds any packet in the frames of an own call and path: whether a
      '}' follows the first ':', the header's own when neither text holds one. */
  predicate Opens(own: string, path: string) {
    var start := OuterHeader(own, path) + [':'];
    assert start[|start| - 1] == ':';
    (start + ['}'])[IndexOf(start, ':') + 1] == '}'
  }

  lemma UnwrapOpens(own: string, path: string, p: Parts)
    ensures Unwrap(Wrapped(own, path, p)).Some? <==> Opens(own, path)
  {
    hide OuterHeader, Inner;
    var start, tail := OuterHeader(own, path) + [':'], ['}'] + Inner(own, p);
    assert Wrapped(own, path, p) == start + tail;
    assert start[|start| - 1] == ':';
    IndexOfPrefix(start, tail, ':');
    var i := IndexOf(start, ':');
    assert (start + tail)[i + 1] == (start + ['}'])[i + 1];
  }

  lemma PlainOpens(own: string, path: string)
    requires ':' !in own && ':' !in path
    ensures Opens(own, path)
  {
    CutAt(OuterHeader(own, path), ':', "");
  }

  lemma UnwrapWrapped(own: string, path: string, p: Parts)
    requires ':' !in own && ':' !in path
    ensures Unwrap(Wrapped(own, path, p)) == Some(Inner(own, p))
  {
    CutAt(OuterHeader(own, path), ':', ['}'] + Inner(own, p));
    var frame := Wrapped(own, path, p);
    var h := |OuterHeader(own, path)|;
    assert frame[h + 1..][0] == '}' && frame[h + 1..][1..] == Inner(own, p);
  }

  lemma SplitInner(own: string, p: Parts)
    requires LegalCall(p.src) && LegalCall(p.dst) && ':' !in own
    ensures HasHeader(Inner(own, p)) && Split(Inner(own, p)) == p
  {
    hide LegalCall;
    LegalCallBytes(p.src);
    LegalCallBytes(p.dst);
    var inner, head, after := Inner(own, p), InnerHeader(own, p), p.dst + Via(own);
    CutAt(head, ':', p.info);
    assert inner == p.src + ['>'] + (after + ([':'] + p.info));
    CutAt(p.src, '>', after + ([':'] + p.info));
    assert inner == (p.src + ['>']) + after + ([':'] + p.info);
    HeaderDestination(own, p);
  }

  lemma HeaderDestination(own: string, p: Parts)
    requires ',' !in p.dst
    ensures var header := p.dst + Via(own);
            header[..IndexOf(header, ',')] == p.dst
  {
    var rest := "TCPIP," + own + "*";
    assert p.dst + Via(own) == p.dst + [','] + rest;
    CutAt(p.dst, ',', rest);
  }

  /** A packet found in front of a later ':' has everything behind that in its information
      field. */
  lemma EarlyPacketIsLong(frame: string, h: nat)
    requires IndexOf(frame, ':') < h < |frame| && frame[h] == ':'
    ensures var u := Unwrap(frame);
            u.Some? && HasHeader(u.value) ==> |Split(u.value).info| >= |frame| - h - 1
  {
    var i := IndexOf(frame, ':');
    if frame[i + 1] == '}' {
      var u := frame[i + 2..];
      assert u[h - i - 2] == ':';
      assert IndexOf(u, ':') <= h - i - 2;
    }
  }

  /** With a ':' in the own call or the path, a packet that a receiver does find starts in
      the outer header, so its information field is longer than the line's. */
  lemma ColonPacketTooLong(own: string, path: string, p: Parts)
    requires ':' in own || ':' in path
    ensures var u := Unwrap(Wrapped(own, path, p));
            u.Some? && HasHeader(u.value) ==> |Split(u.value).info| > |p.info|
  {
    hide Unwrap, Split, InnerHeader;
    var header, tail := OuterHeader(own, path), [':'] + (['}'] + Inner(own, p));
    var frame := Wrapped(own, path, p);
    assert frame == header + tail;
    assert ':' in own ==> ':' in header;
    IndexOfPrefix(header, tail, ':');
    assert frame[|header|] == tail[0];
    EarlyPacketIsLong(frame, |header|);
  }

  /** Whatever the line and the settings: the frame carries the line's source, destination
      and information field byte for byte if and only if neither the own call nor the path
      holds a ':'. */
  lemma WrapRoundTripIff(line: string, own: string, path: string)
    requires Wrappable(line)
    ensures CarriesLine(Wrapped(own, path, Split(line)), line) <==> ':' !in own && ':' !in path
  {
    if ':' !in own && ':' !in path {
      UnwrapWrapped(own, path, Split(line));
      SplitInner(own, Split(line));
    } else {
      ColonPacketTooLong(own, path, Split(line));
    }
  }

  /** The packet in the frame names the gateway as the station that relayed it from the
      Internet; the frame itself comes from the gateway, to its own destination, along the
      configured path. */
  lemma HeadersOnAir(line: string, own: string, path: string)
    requires Wrappable(line) && ':' !in own && ':' !in path
    ensures var frame := Wrapped(own, path, Split(line));
            && frame[..IndexOf(frame, ':')] == own + ">APE32I" + path
            && Unwrap(frame).Some?
            && var packet := Unwrap(frame).value;
               packet[..IndexOf(packet, ':')] == Split(line).src + ">" + Split(line).dst + ",TCPIP," + own + "*"
  {
    hide Unwrap, Split, LegalCall;
    var p := Split(line);
    LegalCallBytes(p.src);
    LegalCallBytes(p.dst);
    UnwrapWrapped(own, path, p);
    CutAt(OuterHeader(own, path), ':', ['}'] + Inner(own, p));
    assert OuterHeader(own, path) == own + ">APE32I" + path;
    CutAt(InnerHeader(own, p), ':', p.info);
    assert InnerHeader(own, p) == p.src + ">" + p.dst + ",TCPIP," + own + "*";
  }
}
