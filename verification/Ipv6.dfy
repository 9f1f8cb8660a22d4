/** The parser of IPv6 literals, on any string. */
module Ipv6 {
  import opened Basics
  import opened PathNormal

  /** Sixteen bytes, a refusal, or the exception of an array of negative length. */
  datatype Parsed = Bytes(bytes: seq<int>) | Null | Throws

  predicate IsLowerHex(c: char) { IsDigit(c) || 'a' <= c <= 'f' }

  function LowerChar(c: char): char {
    if 'A' <= c <= 'Z' then (c as int + 32) as char else c
  }

  function Lower(s: string): (r: string)
    ensures |r| == |s| && forall i :: 0 <= i < |s| ==> r[i] == LowerChar(s[i])
  {
    if s == "" then "" else [LowerChar(s[0])] + Lower(s[1..])
  }

  predicate IsTerminator(c: char) {
    c == '\n' || c == '\r' || c as int == 0x2028 || c as int == 0x2029
  }

  /** The four line terminators of the language: line feed, carriage return, line and paragraph separator. */
  lemma TerminatorsExactly(c: char)
    ensures IsTerminator(c) <==> c in "\U{A}\U{D}\U{2028}\U{2029}"
  {
    var all := "\U{A}\U{D}\U{2028}\U{2029}";
    assert all[0] == '\n' && all[1] == '\r' && all[2] as int == 0x2028 && all[3] as int == 0x2029;
  }

  /** White space and line terminators, as trimming knows them. */
  predicate IsSpace(c: char) {
    var n := c as int;
    0x9 <= n <= 0xD || n == 0x20 || n == 0xA0 || n == 0x1680 || 0x2000 <= n <= 0x200A || n == 0x2028 || n == 0x2029
    || n == 0x202F || n == 0x205F || n == 0x3000 || n == 0xFEFF
  }

  function TrimStart(s: string): string {
    if s != "" && IsSpace(s[0]) then TrimStart(s[1..]) else s
  }

  function TrimEnd(s: string): string {
    if s != "" && IsSpace(s[|s| - 1]) then TrimEnd(s[..|s| - 1]) else s
  }

  function Trim(s: string): string {
    TrimEnd(TrimStart(s))
  }

  /** Lacks a zone id. */
  function CutZone(s: string): string {
    if s == "" || s[0] == '%' then "" else [s[0]] + CutZone(s[1..])
  }

  function SplitOn(s: string, c: char): (r: seq<string>)
    ensures r != []
  {
    if s == "" then [""]
    else
      var rest := SplitOn(s[1..], c);
      if s[0] == c then [""] + rest else [[s[0]] + rest[0]] + rest[1..]
  }

  function SplitOnDoubleColon(s: string): (r: seq<string>)
    ensures r != []
  {
    if s == "" then [""]
    else if |s| >= 2 && s[0] == ':' && s[1] == ':' then [""] + SplitOnDoubleColon(s[2..])
    else
      var rest := SplitOnDoubleColon(s[1..]);
      [[s[0]] + rest[0]] + rest[1..]
  }

  // ---- An embedded IPv4 address at the end ----

  predicate DecimalText(t: string) {
    1 <= |t| <= 3 && forall i :: 0 <= i < |t| ==> IsDigit(t[i])
  }

  function DigitValue(c: char): (v: int)
    requires IsDigit(c)
    ensures 0 <= v < 10
  {
    c as int - '0' as int
  }

  function DecimalValue(t: string): (v: int)
    requires forall i :: 0 <= i < |t| ==> IsDigit(t[i])
    ensures v >= 0
  {
    if t == "" then 0 else 10 * DecimalValue(t[..|t| - 1]) + DigitValue(t[|t| - 1])
  }

  function LowerHexDigit(v: int): (c: char)
    requires 0 <= v < 16
    ensures IsLowerHex(c)
  {
    if v < 10 then ('0' as int + v) as char else ('a' as int + v - 10) as char
  }

  function ToHex(v: int): string
    requires 0 <= v
  {
    if v < 16 then [LowerHexDigit(v)] else ToHex(v / 16) + [LowerHexDigit(v % 16)]
  }

  /** How much of `s` there is up to and with its last colon; 0 if there is none. */
  function LastColon(s: string): (n: nat)
    ensures n <= |s| && (n > 0 ==> s[n - 1] == ':') && forall i :: n <= i < |s| ==> s[i] != ':'
  {
    if s == "" then 0 else if s[|s| - 1] == ':' then |s| else LastColon(s[..|s| - 1])
  }

  /** What follows the last line terminator: the pattern's first group does not reach over one. */
  function LastLine(s: string): string {
    if s == "" || IsTerminator(s[|s| - 1]) then "" else LastLine(s[..|s| - 1]) + [s[|s| - 1]]
  }

  predicate DottedQuad(t: string) {
    var parts := SplitOn(t, '.');
    |parts| == 4 && forall i :: 0 <= i < 4 ==> DecimalText(parts[i])
  }

  function QuadOctets(t: string): (r: seq<int>)
    requires DottedQuad(t)
    ensures |r| == 4 && forall i :: 0 <= i < 4 ==> r[i] >= 0
  {
    var p := SplitOn(t, '.');
    [DecimalValue(p[0]), DecimalValue(p[1]), DecimalValue(p[2]), DecimalValue(p[3])]
  }

  /** Four octets as two hextets, after what stands before them; None if an octet is over 255. */
  function QuadAsHextets(before: string, o: seq<int>): Option<string>
    requires |o| == 4 && forall i :: 0 <= i < 4 ==> o[i] >= 0
  {
    if o[0] > 255 || o[1] > 255 || o[2] > 255 || o[3] > 255 then None
    else Some(before + ToHex(256 * o[0] + o[1]) + ":" + ToHex(256 * o[2] + o[3]))
  }

  /** The string with an embedded IPv4 address written as two hextets. */
  function ExpandQuad(s: string): Option<string> {
    var n := LastColon(s);
    if n == 0 || !DottedQuad(s[n..]) then Some(s) else QuadAsHextets(LastLine(s[..n]), QuadOctets(s[n..]))
  }

  // ---- Hextets ----

  predicate HextetText(h: string) {
    1 <= |h| <= 4 && forall i :: 0 <= i < |h| ==> IsLowerHex(h[i])
  }

  function HexNumber(h: string): (v: int)
    requires forall i :: 0 <= i < |h| ==> IsHex(h[i])
    ensures v >= 0
  {
    if h == "" then 0 else 16 * HexNumber(h[..|h| - 1]) + HexValue(h[|h| - 1])
  }

  /** The high byte, which a hextet of four digits cannot exceed, and the low one. */
  function TwoBytes(v: int): seq<int> {
    [v / 256 % 256, v % 256]
  }

  function HextetBytes(hs: seq<string>): Parsed {
    if hs == [] then Bytes([])
    else
      var init, h := HextetBytes(hs[..|hs| - 1]), hs[|hs| - 1];
      if init.Bytes? && HextetText(h) then Bytes(init.bytes + TwoBytes(HexNumber(h))) else Null
  }

  function Pieces(s: string): seq<string> {
    if s == "" then [] else SplitOn(s, ':')
  }

  function Zeros(n: nat): (r: seq<string>)
    ensures |r| == n && forall i :: 0 <= i < n ==> r[i] == "0"
  {
    if n == 0 then [] else Zeros(n - 1) + ["0"]
  }

  function ParseGroups(s: string): Parsed {
    var halves := SplitOnDoubleColon(s);
    if |halves| > 2 then Null
    else
      var head := Pieces(halves[0]);
      var tail := if |halves| == 2 then Pieces(halves[1]) else [];
      var missing := 8 - |head| - |tail|;
      if |halves| == 2 && missing < 0 then Throws
      else
        var hextets := if |halves| == 2 then head + Zeros(missing) + tail else head;
        if |hextets| != 8 then Null else HextetBytes(hextets)
  }

  function Cleaned(ip: string): string {
    CutZone(Trim(Lower(ip)))
  }

  function ParseIpv6(ip: string): Parsed {
    match ExpandQuad(Cleaned(ip))
    case None => Null
    case Some(s) => ParseGroups(s)
  }

  /** The parser as it runs: it reassigns its string and pushes two bytes for each hextet. */
  method ParseIpv6ToBytes(ip: string) returns (r: Parsed)
    ensures r == ParseIpv6(ip)
  {
    hide SplitOn, SplitOnDoubleColon, Trim, Lower, CutZone, LastColon, LastLine, HexNumber, ToHex, Zeros, QuadOctets;
    hide TwoBytes, DottedQuad;
    var s := Trim(Lower(ip));
    s := CutZone(s);
    var colon := LastColon(s);
    if colon > 0 && DottedQuad(s[colon..]) {
      var octs := QuadOctets(s[colon..]);
      if octs[0] > 255 || octs[1] > 255 || octs[2] > 255 || octs[3] > 255 { return Null; }
      var h1, h2 := ToHex(256 * octs[0] + octs[1]), ToHex(256 * octs[2] + octs[3]);
      s := LastLine(s[..colon]) + h1 + ":" + h2;
    }
    assert Some(s) == ExpandQuad(Cleaned(ip));
    var halves := SplitOnDoubleColon(s);
    if |halves| > 2 { return Null; }
    var head := Pieces(halves[0]);
    var tail := if |halves| == 2 then Pieces(halves[1]) else [];
    var hextets := head;
    if |halves| == 2 {
      if 8 - |head| - |tail| < 0 { return Throws; }
      hextets := head + Zeros(8 - |head| - |tail|) + tail;
    }
    if |hextets| != 8 { return Null; }
    var bytes: seq<int> := [];
    for i := 0 to |hextets|
      invariant HextetBytes(hextets[..i]) == Bytes(bytes)
    {
      var h := hextets[i];
      assert hextets[..i + 1][..i] == hextets[..i];
      if !HextetText(h) {
        BadHextetSpoils(hextets, i);
        return Null;
      }
      bytes := bytes + TwoBytes(HexNumber(h));
    }
    assert hextets[..|hextets|] == hextets;
    return Bytes(bytes);
  }

  lemma {:induction false} BadHextetSpoils(hs: seq<string>, i: nat)
    requires i < |hs| && !HextetText(hs[i])
    ensures HextetBytes(hs) == Null
  {
    if i == |hs| - 1 {
    } else {
      BadHextetSpoils(hs[..|hs| - 1], i);
    }
  }
}
