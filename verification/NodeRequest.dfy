/**
 The request with which a node introduces itself, and its validation as the onboarding API declares it.
 Only the first field that violates its pattern is reported, and an unreadable serial number does not
 refuse the request: it is replaced by a placeholder.
 */
module NodeRequest {
  import opened Strings

  datatype Request = Request(uuid: string, serial: string, mac: string, ip: string)

  const NOT_AVAILABLE := "N/A"

  predicate IsDigit(c: char) {
    '0' <= c <= '9'
  }

  predicate IsHex(c: char) {
    IsDigit(c) || 'a' <= c <= 'f' || 'A' <= c <= 'F'
  }

  predicate IsAlphanumeric(c: char) {
    IsDigit(c) || 'a' <= c <= 'z' || 'A' <= c <= 'Z'
  }

  /** Hexadecimal digits in groups of 8, 4, 4, 4 and 12. */
  predicate IsUuid(s: string) {
    |s| == 36 && forall k :: 0 <= k < 36 ==> if k in {8, 13, 18, 23} then s[k] == '-' else IsHex(s[k])
  }

  predicate IsSerial(s: string) {
    5 <= |s| <= 20 && forall k :: 0 <= k < |s| ==> IsAlphanumeric(s[k])
  }

  predicate IsMac(s: string) {
    |s| == 17 && forall k :: 0 <= k < 17 ==> if k % 3 == 2 then s[k] == ':' || s[k] == '-' else IsHex(s[k])
  }

  /** One to three digits that make at most 255. */
  predicate IsOctet(s: string) {
    && 1 <= |s| <= 3
    && (forall k :: 0 <= k < |s| ==> IsDigit(s[k]))
    && (|s| == 3 ==> s[0] < '2' || (s[0] == '2' && (s[1] < '5' || (s[1] == '5' && s[2] <= '5'))))
  }

  predicate IsIp(s: string) {
    var parts := Split(s, '.');
    |parts| == 4 && forall p :: p in parts ==> IsOctet(p)
  }

  datatype Verdict = Valid | BadSerial | BadField

  /** The first violation, in the order of the fields. */
  function Validate(r: Request): Verdict {
    if !IsUuid(r.uuid) then BadField
    else if !IsSerial(r.serial) then BadSerial
    else if !IsMac(r.mac) || !IsIp(r.ip) then BadField
    else Valid
  }

  /** The request as it is served. */
  function Normalise(r: Request): Request {
    if Validate(r).BadSerial? then r.(serial := NOT_AVAILABLE) else r
  }

  /** What a request that is not refused is served as: its UUID is well formed, and its serial number is as
      reported or the placeholder, so it never goes without one; a missing one counts as unreadable. */
  lemma ServedRequest(r: Request)
    requires !Validate(r).BadField?
    ensures var n := Normalise(r);
      && IsUuid(n.uuid) && n.uuid == r.uuid != "" && n.serial != ""
      && (if IsSerial(r.serial) then n == r else n == r.(serial := "N/A"))
      && (r.serial == "" ==> n.serial == "N/A")
      && (IsSerial(n.serial) <==> IsSerial(r.serial))
  {
  }

  /** An unreadable serial number hides what is wrong with the addresses: a request is refused exactly for
      its UUID, or for its addresses if its serial number is readable. */
  lemma RefusedIff(r: Request)
    ensures Validate(r).BadField? <==> !IsUuid(r.uuid) || (IsSerial(r.serial) && !(IsMac(r.mac) && IsIp(r.ip)))
  {
  }

  // ---------------------------------------------------------------------------------------------
  // The patterns, put together from their alphabets.
  // ---------------------------------------------------------------------------------------------

  const DIGITS := "0123456789"
  const HEX := "0123456789abcdefABCDEF"
  const LOWER := "abcdefghijklmnopqrstuvwxyz"
  const UPPER := "ABCDEFGHIJKLMNOPQRSTUVWXYZ"

  predicate Over(s: string, alphabet: string) {
    forall k :: 0 <= k < |s| ==> s[k] in alphabet
  }

  lemma Alphabets()
    ensures forall c :: IsDigit(c) <==> c in DIGITS
    ensures forall c :: IsHex(c) <==> c in HEX
    ensures forall c :: IsAlphanumeric(c) <==> c in DIGITS || c in LOWER || c in UPPER
  {
  }

  predicate Grouped(s: string, a: string, b: string, c: string, d: string, e: string) {
    && |a| == 8 && |b| == |c| == |d| == 4 && |e| == 12
    && Over(a, HEX) && Over(b, HEX) && Over(c, HEX) && Over(d, HEX) && Over(e, HEX)
    && s == a + "-" + b + "-" + c + "-" + d + "-" + e
  }

  lemma HexDigits(s: string)
    ensures Over(s, HEX) <==> forall k :: 0 <= k < |s| ==> IsHex(s[k])
  {
    Alphabets();
  }

  /** A UUID is five groups of hexadecimal digits. */
  lemma UuidIsGroups(s: string)
    ensures IsUuid(s) <==> exists a, b, c, d, e :: Grouped(s, a, b, c, d, e)
  {
    if IsUuid(s) {
      var a, b, c, d, e := s[..8], s[9..13], s[14..18], s[19..23], s[24..];
      HexDigits(a);
      HexDigits(b);
      HexDigits(c);
      HexDigits(d);
      HexDigits(e);
      assert Grouped(s, a, b, c, d, e);
    }
    forall a, b, c, d, e | Grouped(s, a, b, c, d, e) ensures IsUuid(s) {
      GroupsAreUuid(s, a, b, c, d, e);
    }
  }

  lemma GroupsAreUuid(s: string, a: string, b: string, c: string, d: string, e: string)
    requires Grouped(s, a, b, c, d, e)
    ensures IsUuid(s)
  {
    HexDigits(a);
    HexDigits(b);
    HexDigits(c);
    HexDigits(d);
    HexDigits(e);
    assert s[..8] == a && s[9..13] == b && s[14..18] == c && s[19..23] == d && s[24..] == e;
  }

  /** A readable serial number is five to twenty letters and digits. */
  lemma SerialIsWord(s: string)
    ensures IsSerial(s) <==> 5 <= |s| <= 20 && Over(s, DIGITS + LOWER + UPPER)
  {
    Alphabets();
  }

  /** The p-th pair of hexadecimal digits, and what separates it from the next. */
  predicate PairAt(s: string, p: nat) {
    && 3 * p + 2 <= |s| && s[3 * p] in HEX && s[3 * p + 1] in HEX
    && (3 * p + 2 < |s| ==> s[3 * p + 2] in ":-")
  }

  /** A MAC address is six pairs of hexadecimal digits with a colon or hyphen after each but the last. */
  lemma MacIsPairs(s: string)
    ensures IsMac(s) <==> |s| == 17 && forall p :: 0 <= p < 6 ==> PairAt(s, p)
  {
    if |s| == 17 {
      forall p | 0 <= p < 6 ensures PairAt(s, p) <==>
          IsHex(s[3 * p]) && IsHex(s[3 * p + 1]) && (p < 5 ==> s[3 * p + 2] == ':' || s[3 * p + 2] == '-')
      {
        Alphabets();
      }
      forall k | 0 <= k < 17 && PairAt(s, k / 3)
        ensures if k % 3 == 2 then s[k] == ':' || s[k] == '-' else IsHex(s[k])
      {
        assert k == 3 * (k / 3) + k % 3;
      }
    }
  }

  /** The number that decimal digits make. */
  function Number(s: string): int {
    if s == "" then 0 else 10 * Number(s[..|s| - 1]) + (s[|s| - 1] as int - '0' as int)
  }

  /** An octet is at most three digits long and at most 255. */
  lemma OctetIsNumber(s: string)
    ensures IsOctet(s) <==> 1 <= |s| <= 3 && (forall k :: 0 <= k < |s| ==> IsDigit(s[k])) && 0 <= Number(s) <= 255
  {
    if 1 <= |s| <= 3 {
      assert Number(s[..1]) == s[0] as int - '0' as int;
      if |s| > 1 {
        assert s[..2][..1] == s[..1];
      }
      assert s[..|s|] == s;
    }
  }

  predicate Dotted(s: string, a: string, b: string, c: string, d: string) {
    IsOctet(a) && IsOctet(b) && IsOctet(c) && IsOctet(d) && s == a + "." + b + "." + c + "." + d
  }

  lemma JoinedFour(parts: seq<string>)
    requires |parts| == 4
    ensures Joined(parts, '.') == parts[0] + "." + parts[1] + "." + parts[2] + "." + parts[3]
  {
    assert parts[1..][0] == parts[1] && parts[1..][1..][0] == parts[2] && parts[1..][1..][1..] == [parts[3]];
    assert Joined(parts[1..][1..], '.') == parts[2] + ['.'] + parts[3];
    assert Joined(parts[1..], '.') == parts[1] + ['.'] + (parts[2] + ['.'] + parts[3]);
  }

  /** An IP address is four octets with dots between them. */
  lemma IpIsFourOctets(s: string)
    ensures IsIp(s) <==> exists a, b, c, d :: Dotted(s, a, b, c, d)
  {
    var parts := Split(s, '.');
    if IsIp(s) {
      SplitJoins(s, '.');
      JoinedFour(parts);
      assert parts[0] in parts && parts[1] in parts && parts[2] in parts && parts[3] in parts;
      assert Dotted(s, parts[0], parts[1], parts[2], parts[3]);
    }
    forall a, b, c, d | Dotted(s, a, b, c, d) ensures IsIp(s) {
      JoinedFour([a, b, c, d]);
      SplitOfJoined([a, b, c, d], '.');
    }
  }
}
