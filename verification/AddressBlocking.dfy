/** Which addresses must never be fetched: the byte tests of the guard, proved to be the blocks they stand for. */
module AddressBlocking {
  import opened Basics
  import opened Ipv6
  import opened Ipv6Text
  import opened Ipv6Reading

  type Octets = seq<int>

  predicate AreBytes(b: Octets) {
    forall i :: 0 <= i < |b| ==> 0 <= b[i] < 256
  }

  predicate IsBlockedIpv4(o: Octets)
    requires |o| == 4
  {
    var a, b := o[0], o[1];
    if a == 10 then true
    else if a == 127 then true
    else if a == 0 then true
    else if a == 172 && b >= 16 && b <= 31 then true
    else if a == 192 && b == 168 then true
    else if a == 169 && b == 254 then true
    else if a == 100 && b >= 64 && b <= 127 then true
    else if a >= 224 then true
    else if a == 192 && b == 0 && o[2] == 0 then true
    else false
  }

  predicate AllZero(b: Octets) {
    forall i :: 0 <= i < |b| ==> b[i] == 0
  }

  /** The tests in their order. Masking with 0xc0 and 0xfe is division by 64 and by 2. */
  predicate IsBlockedBytes(b: Octets)
    requires |b| == 16
  {
    if AllZero(b[..15]) && (b[15] == 1 || b[15] == 0) then true
    else if b[0] == 0xfe && b[1] / 64 == 2 then true
    else if b[0] == 0xfe && b[1] / 64 == 3 then true
    else if b[0] / 2 == 0x7e then true
    else if b[0] == 0x00 && b[1] == 0x64 && b[2] == 0xff && b[3] == 0x9b then IsBlockedIpv4(b[12..])
    else if b[0] == 0x20 && b[1] == 0x02 then IsBlockedIpv4(b[2..6])
    else if AllZero(b[..8]) && b[8] == 0xff && b[9] == 0xff then IsBlockedIpv4(b[12..])
    else
      var mapped := AllZero(b[..10]) && b[10] == 0xff && b[11] == 0xff;
      var compatible := AllZero(b[..12]) && !(b[12] == 0 && b[13] == 0 && b[14] == 0 && b[15] <= 1);
      (mapped || compatible) && IsBlockedIpv4(b[12..])
  }

  predicate IsBlockedIpv6(ip: string) {
    match ParseIpv6(ip)
    case Bytes(b) => if |b| == 16 then IsBlockedBytes(b) else true
    case _ => true
  }

  // ---- Blocks ----

  /** An address as one number, most significant byte first. */
  function Number(b: Octets): int {
    if b == [] then 0 else 256 * Number(b[..|b| - 1]) + b[|b| - 1]
  }

  /** The first address of a block and how many it has. */
  datatype Block = Block(first: int, size: int)

  predicate InBlock(n: int, k: Block) {
    k.first <= n < k.first + k.size
  }

  /**
   10.0.0.0/8, 127.0.0.0/8, 0.0.0.0/8, 172.16.0.0/12, 192.168.0.0/16, 169.254.0.0/16, 100.64.0.0/10, everything from
   224.0.0.0 up, and 192.0.0.0/24.
   */
  predicate InBlockedV4(n: int) {
    || InBlock(n, Block(0x0A000000, 0x1000000))
    || InBlock(n, Block(0x7F000000, 0x1000000))
    || InBlock(n, Block(0x00000000, 0x1000000))
    || InBlock(n, Block(0xAC100000, 0x100000))
    || InBlock(n, Block(0xC0A80000, 0x10000))
    || InBlock(n, Block(0xA9FE0000, 0x10000))
    || InBlock(n, Block(0x64400000, 0x400000))
    || InBlock(n, Block(0xE0000000, 0x20000000))
    || InBlock(n, Block(0xC0000000, 0x100))
  }

  lemma NumberOf4(o: Octets)
    requires |o| == 4
    ensures Number(o) == 0x1000000 * o[0] + 0x10000 * o[1] + 0x100 * o[2] + o[3]
  {
    assert o[..3][..2] == o[..2] && o[..2][..1] == o[..1] && o[..1][..0] == [];
    assert Number(o[..1]) == o[0] && Number(o[..2]) == 256 * o[0] + o[1];
    assert Number(o[..3]) == 256 * Number(o[..2]) + o[2];
  }

  /** The octet tests block exactly the nine blocks. */
  lemma BlockedIpv4Exactly(o: Octets)
    requires |o| == 4 && AreBytes(o)
    ensures IsBlockedIpv4(o) <==> InBlockedV4(Number(o))
  {
    NumberOf4(o);
  }

  /** An IPv4-mapped address gets the verdict of its IPv4 part. */
  lemma MappedGetsIpv4Verdict(b: Octets)
    requires |b| == 16 && AllZero(b[..10]) && b[10] == 0xff && b[11] == 0xff
    ensures IsBlockedBytes(b) <==> IsBlockedIpv4(b[12..])
  {
    assert forall i :: 0 <= i < 10 ==> b[..10][i] == b[i] && b[i] == 0;
    assert b[..8][0] == 0 && b[8] == 0;
    assert b[..15][10] == 0xff;
    assert b[0] / 2 == 0;
  }

  /** The IPv4 address within, if the prefix is one that carries it. */
  function Embedded(b: Octets): Option<Octets>
    requires |b| == 16
  {
    if b[..2] == [0x20, 0x02] then Some(b[2..6])
    else if || b[..4] == [0x00, 0x64, 0xff, 0x9b]
            || (AllZero(b[..8]) && b[8] == 0xff && b[9] == 0xff)
            || (AllZero(b[..10]) && b[10] == 0xff && b[11] == 0xff)
            || AllZero(b[..12])
    then Some(b[12..])
    else None
  }

  /** Loopback, unspecified, link-local and site-local, unique local. */
  predicate InBlockedV6(b: Octets)
    requires |b| == 16
  {
    || (AllZero(b[..15]) && b[15] <= 1)
    || (b[0] == 0xfe && b[1] >= 0x80)
    || (0xfc <= b[0] <= 0xfd)
  }

  /** The byte tests block exactly those, and the addresses with a blocked IPv4 one in them. */
  lemma BlockedIpv6Exactly(b: Octets)
    requires |b| == 16 && AreBytes(b)
    ensures IsBlockedBytes(b) <==>
              InBlockedV6(b) || (Embedded(b).Some? && InBlockedV4(Number(Embedded(b).value)))
  {
    hide IsBlockedIpv4, InBlockedV4, Number;
    BlockedIpv4Exactly(b[12..]);
    BlockedIpv4Exactly(b[2..6]);
    assert b[..4] == [0x00, 0x64, 0xff, 0x9b] <==> b[0] == 0 && b[1] == 0x64 && b[2] == 0xff && b[3] == 0x9b;
    assert b[..2] == [0x20, 0x02] <==> b[0] == 0x20 && b[1] == 0x02;
    ZeroPrefixes(b);
  }

  lemma ZeroPrefixes(b: Octets)
    requires |b| == 16
    ensures AllZero(b[..15]) <==> AllZero(b[..12]) && b[12] == 0 && b[13] == 0 && b[14] == 0
    ensures AllZero(b[..12]) <==> AllZero(b[..10]) && b[10] == 0 && b[11] == 0
    ensures AllZero(b[..10]) <==> AllZero(b[..8]) && b[8] == 0 && b[9] == 0
    ensures AllZero(b[..8]) ==> b[0] == 0 && b[1] == 0 && b[2] == 0 && b[3] == 0
  {
    assert AllZero(b[..8]) ==> b[..8][0] == 0 && b[..8][1] == 0 && b[..8][2] == 0 && b[..8][3] == 0;
    assert AllZero(b[..15]) ==> b[..15][12] == 0 && b[..15][13] == 0 && b[..15][14] == 0;
    assert AllZero(b[..12]) ==> b[..12][10] == 0 && b[..12][11] == 0;
    assert AllZero(b[..10]) ==> b[..10][8] == 0 && b[..10][9] == 0;
    assert forall i :: 0 <= i < 8 ==>
             b[..8][i] == b[i] && b[..10][i] == b[i] && b[..12][i] == b[i] && b[..15][i] == b[i];
    assert forall i :: 0 <= i < 15 ==> b[..15][i] == b[i];
    assert forall i :: 0 <= i < 12 ==> b[..12][i] == b[..15][i];
    assert forall i :: 0 <= i < 10 ==> b[..10][i] == b[..12][i];
    assert forall i :: 0 <= i < 8 ==> b[..8][i] == b[..10][i];
  }

  // ---- One verdict per address ----

  lemma {:induction false} GroupBytesLength(ts: seq<string>)
    requires forall t :: t in ts ==> GroupText(t)
    ensures |GroupBytes(ts)| == 2 * |ts|
  {
    hide GroupText;
    if ts == [] {
    } else {
      GroupBytesLength(ts[..|ts| - 1]);
    }
  }

  lemma ValueHas16(sp: Spelling)
    requires Legal(sp)
    ensures |Value(sp)| == 16
  {
    hide GroupText, GroupBytes;
    GroupBytesLength(sp.head);
    GroupBytesLength(sp.tail);
  }

  lemma {:induction false} GroupBytesAreBytes(ts: seq<string>)
    requires forall t :: t in ts ==> GroupText(t)
    ensures AreBytes(GroupBytes(ts))
  {
    hide GroupText, HexNumber;
    if ts == [] {
    } else {
      GroupBytesAreBytes(ts[..|ts| - 1]);
    }
  }

  lemma ValueIsBytes(sp: Spelling)
    requires Legal(sp)
    ensures AreBytes(Value(sp))
  {
    hide GroupText, GroupBytes, DecimalText;
    GroupBytesAreBytes(sp.head);
    GroupBytesAreBytes(sp.tail);
  }

  /** However an address is legally spelled, the guard's verdict is the verdict on its sixteen bytes. */
  lemma VerdictIsOnTheBytes(sp: Spelling)
    requires Legal(sp)
    ensures |Value(sp)| == 16 && (IsBlockedIpv6(Text(sp)) <==> IsBlockedBytes(Value(sp)))
  {
    hide Text, Value, Legal, IsBlockedBytes;
    ValueHas16(sp);
    LegalSpellingParses("", sp, "");
    assert "" + Text(sp) + "" == Text(sp);
  }

  /**
   The verdict on every string, legal or not: it passes if and only if it spells an address whose bytes pass. What
   spells no address is blocked.
   */
  lemma VerdictExactly(ip: string)
    ensures !IsBlockedIpv6(ip) <==>
              exists junk, sp :: Reads(Cleaned(ip), junk, sp) && |Value(sp)| == 16 && !IsBlockedBytes(Value(sp))
  {
    hide Value, IsBlockedBytes, ParseIpv6, Readable, Text;
    if ParseIpv6(ip).Bytes? {
      var b := ParseIpv6(ip).bytes;
      ReadExactly(ip, b);
      var junk, sp :| Reads(Cleaned(ip), junk, sp) && Value(sp) == b;
      ReadAs16(ip);
    }
    if junk, sp :| Reads(Cleaned(ip), junk, sp) && |Value(sp)| == 16 && !IsBlockedBytes(Value(sp)) {
      ReadExactly(ip, Value(sp));
    }
  }

  /** A string that is read at all is read as sixteen bytes. */
  lemma ReadAs16(ip: string)
    requires ParseIpv6(ip).Bytes?
    ensures |ParseIpv6(ip).bytes| == 16
  {
    hide SplitOnDoubleColon, Pieces, Zeros, ExpandQuad, Cleaned, TwoBytes, HexNumber, HextetText;
    var s := ExpandQuad(Cleaned(ip)).value;
    var halves := SplitOnDoubleColon(s);
    var head := Pieces(halves[0]);
    var tail := if |halves| == 2 then Pieces(halves[1]) else [];
    var hextets := if |halves| == 2 then head + Zeros(8 - |head| - |tail|) + tail else head;
    TwoEach(hextets);
  }

  lemma {:induction false} TwoEach(hs: seq<string>)
    ensures HextetBytes(hs).Bytes? ==> |HextetBytes(hs).bytes| == 2 * |hs|
  {
    if hs == [] {
    } else {
      TwoEach(hs[..|hs| - 1]);
    }
  }

  /** An IPv4-mapped address, however it is spelled, gets the verdict of its IPv4 part. */
  lemma MappedSpellingGetsIpv4Verdict(sp: Spelling)
    requires Legal(sp)
    ensures |Value(sp)| == 16
    ensures AllZero(Value(sp)[..10]) && Value(sp)[10] == 0xff && Value(sp)[11] == 0xff ==>
              (IsBlockedIpv6(Text(sp)) <==> InBlockedV4(Number(Value(sp)[12..])))
  {
    hide Text, Value, IsBlockedBytes, IsBlockedIpv4, InBlockedV4, IsBlockedIpv6;
    VerdictIsOnTheBytes(sp);
    var b := Value(sp);
    ValueIsBytes(sp);
    if AllZero(b[..10]) && b[10] == 0xff && b[11] == 0xff {
      MappedGetsIpv4Verdict(b);
      BlockedIpv4Exactly(b[12..]);
    }
  }
}
