/** Lines put together from their parts, and what the tests of the gateway read in them. */
module GatewayReading {
  import opened Common
  import opened Text
  import opened ThirdParty
  import opened GatewayRules

  // ---- Callsigns ----

  lemma LegalWithSsid(base: string, s: string)
    requires LegalBase(base)
    ensures LegalCall(base) && (LegalCall(base + "-" + s) <==> LegalSsid(s))
  {
    assert '-' !in base;
    CutAt(base, '-', s);
    assert base + "-" + s == base + ['-'] + s;
    assert base[..|base|] == base;
    NoDash(base);
  }

  lemma NoDash(base: string)
    requires '-' !in base
    ensures IndexOf(base, '-') == |base|
  {
  }

  lemma DecimalSsid(n: nat)
    ensures LegalSsid(Decimal(n)) <==> n <= 15
  {
    if n >= 10 {
      assert Decimal(n) == Decimal(n / 10) + [DigitChar(n % 10)];
      if n < 100 {
        assert Decimal(n / 10) == [DigitChar(n / 10)];
      } else {
        assert Decimal(n / 10) == Decimal(n / 10 / 10) + [DigitChar(n / 10 % 10)];
      }
    }
  }

  /** A callsign of one to nine capitals and digits is legal by itself, and with an SSID
      exactly up to 15. */
  lemma LegalBuilt(base: string, n: nat)
    requires 1 <= |base| <= 9 && forall i :: 0 <= i < |base| ==> 'A' <= base[i] <= 'Z' || '0' <= base[i] <= '9'
    ensures LegalCall(base) && (LegalCall(base + "-" + Decimal(n)) <==> n <= 15)
  {
    LegalWithSsid(base, Decimal(n));
    DecimalSsid(n);
  }

  /** The address text of the gateway: the SSID is written out unless it is 0. */
  lemma OwnCallReads(mycall: string, ssid: nat)
    ensures var own := OwnCall(mycall, ssid);
            if ssid == 0 then own == mycall
            else mycall + "-" <= own && Number(own[|mycall| + 1..]) == ssid
  {
    if ssid > 0 {
      NumberOfDecimal(ssid);
      assert OwnCall(mycall, ssid)[|mycall| + 1..] == Decimal(ssid);
    }
  }

  // ---- Messages ----

  function Blanks(n: nat): (r: string)
    ensures |r| == n && forall i :: 0 <= i < n ==> r[i] == ' '
  {
    seq(n, _ => ' ')
  }

  lemma {:induction false} TrimBlanks(a: string, n: nat)
    requires a == "" || a[|a| - 1] != ' '
    ensures TrimRight(a + Blanks(n)) == a
    decreases n
  {
    var s := a + Blanks(n);
    if n == 0 {
      assert s == a;
    } else {
      assert s[..|s| - 1] == a + Blanks(n - 1);
      TrimBlanks(a, n - 1);
    }
  }

  /** The addressee of a message is what was padded to nine characters, and an empty field
      has none. */
  lemma AddresseeBack(a: string, text: string)
    requires |a| <= 9 && (a == "" || a[|a| - 1] != ' ')
    ensures Addressee(":" + (a + Blanks(9 - |a|)) + (":" + text)) == if a == "" then None else Some(a)
  {
    var field := a + Blanks(9 - |a|);
    var info := ":" + field + (":" + text);
    assert info[1..10] == field && info[10] == ':';
    TrimBlanks(a, 9 - |a|);
  }

  lemma ThreeLetters(a: string, word: string)
    requires |word| == 3 <= |a|
    ensures word <= a <==> a[..3] == word
  {
  }

  /** Bulletins and announcements by their fourth character, the weather families by their
      first three, and nobody else. */
  lemma BroadcastIff(a: string)
    ensures IsBroadcast(a) <==>
              && |a| >= 3
              && (a[..3] in {"NWS", "SKY", "CWA"}
                  || (a[..3] == "BLN" && |a| > 3 && ('0' <= a[3] <= '9' || 'A' <= a[3] <= 'Z')))
  {
    assert BROADCAST[0] == "NWS" && BROADCAST[1] == "SKY" && BROADCAST[2] == "CWA";
    if |a| >= 3 {
      ThreeLetters(a, "BLN");
      ThreeLetters(a, "NWS");
      ThreeLetters(a, "SKY");
      ThreeLetters(a, "CWA");
    }
  }

  // ---- Headers ----

  /** Any of the five tokens anywhere in the header forbids the line. */
  lemma TokenForbids(before: string, token: string, after: string, info: string)
    requires token in {"TCPXX", "NOGATE", "RFONLY", "qAX", "qAZ"} && ':' !in before && ':' !in after
    ensures ForbidsRf(before + token + after + [':'] + info)
  {
    var header := before + token + after;
    assert ':' !in token;
    CutAt(header, ':', info);
    assert Header(header + [':'] + info) == header;
    assert header[|before|..|before| + |token|] == token;
    assert OccursAt(header, token, |before|);
    var t := if token == "TCPXX" then 0 else if token == "NOGATE" then 1 else if token == "RFONLY" then 2
             else if token == "qAX" then 3 else 4;
    assert FORBIDDING[t] == token;
  }

  /** What stands in the information field does not. */
  lemma InfoForbidsNothing(header: string, info: string, other: string)
    requires ':' !in header
    ensures ForbidsRf(header + [':'] + info) <==> ForbidsRf(header + [':'] + other)
  {
    CutAt(header, ':', info);
    CutAt(header, ':', other);
  }
}
