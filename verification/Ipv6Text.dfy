/**
 The legal spellings of an IPv6 address (RFC 4291 section 2.2), and that the parser reads each as the bytes it means.
 */
module Ipv6Text {
  import opened Basics
  import opened Ipv6
  import opened PathNormal

  /** Four decimal texts. */
  datatype Quad = Quad(a: string, b: string, c: string, d: string)

  /** The groups before and after a double colon, if there is one, and a dotted quad at the end, if there is one. */
  datatype Spelling = Spelling(head: seq<string>, gap: bool, tail: seq<string>, quad: Option<Quad>)

  /** One to four hex digits of either case, leading zeros allowed. */
  predicate GroupText(t: string) {
    1 <= |t| <= 4 && forall i :: 0 <= i < |t| ==> IsHex(t[i])
  }

  predicate OctetText(t: string) {
    DecimalText(t) && DecimalValue(t) <= 255
  }

  predicate QuadOk(q: Quad) {
    OctetText(q.a) && OctetText(q.b) && OctetText(q.c) && OctetText(q.d)
  }

  function QuadGroups(q: Option<Quad>): nat {
    if q.Some? then 2 else 0
  }

  /** Eight groups; or with a double colon at most eight. */
  predicate Readable(sp: Spelling) {
    && (forall t :: t in sp.head ==> GroupText(t))
    && (forall t :: t in sp.tail ==> GroupText(t))
    && (sp.quad.Some? ==> QuadOk(sp.quad.value))
    && (if sp.gap then |sp.head| + |sp.tail| + QuadGroups(sp.quad) <= 8
        else sp.tail == [] && |sp.head| + QuadGroups(sp.quad) == 8)
  }

  /** The double colon stands for at least one group. */
  predicate Legal(sp: Spelling) {
    Readable(sp) && (sp.gap ==> |sp.head| + |sp.tail| + QuadGroups(sp.quad) <= 7)
  }

  function Join(ts: seq<string>): string {
    if ts == [] then "" else if |ts| == 1 then ts[0] else Join(ts[..|ts| - 1]) + ":" + ts[|ts| - 1]
  }

  function QuadText(q: Quad): string {
    q.a + "." + q.b + "." + q.c + "." + q.d
  }

  function WithQuad(ts: seq<string>, q: Option<Quad>): seq<string> {
    ts + if q.Some? then [QuadText(q.value)] else []
  }

  function Text(sp: Spelling): string {
    if sp.gap then Join(sp.head) + "::" + Join(WithQuad(sp.tail, sp.quad)) else Join(WithQuad(sp.head, sp.quad))
  }

  function GroupBytes(ts: seq<string>): seq<int>
    requires forall t :: t in ts ==> GroupText(t)
  {
    if ts == [] then []
    else
      assert GroupText(ts[|ts| - 1]);
      GroupBytes(ts[..|ts| - 1]) + TwoBytes(HexNumber(ts[|ts| - 1]))
  }

  function QuadBytes(q: Option<Quad>): seq<int>
    requires q.Some? ==> QuadOk(q.value)
  {
    match q
    case None => []
    case Some(v) => [DecimalValue(v.a), DecimalValue(v.b), DecimalValue(v.c), DecimalValue(v.d)]
  }

  function ZeroBytes(n: nat): (r: seq<int>)
    ensures |r| == 2 * n && forall i :: 0 <= i < |r| ==> r[i] == 0
  {
    if n == 0 then [] else ZeroBytes(n - 1) + [0, 0]
  }

  /** The address a spelling means. */
  function Value(sp: Spelling): seq<int>
    requires Readable(sp)
  {
    GroupBytes(sp.head)
    + (if sp.gap then ZeroBytes(8 - |sp.head| - |sp.tail| - QuadGroups(sp.quad)) else [])
    + GroupBytes(sp.tail) + QuadBytes(sp.quad)
  }

  // ---- Splitting what was joined ----

  ghost predicate Lacks(s: string, c: char) {
    forall i :: 0 <= i < |s| ==> s[i] != c
  }

  lemma {:induction false} SplitWhole(s: string, c: char)
    requires Lacks(s, c)
    ensures SplitOn(s, c) == [s]
  {
    if s == "" {
    } else {
      SplitWhole(s[1..], c);
      assert s == [s[0]] + s[1..];
    }
  }

  lemma {:induction false} SplitFirst(a: string, c: char, b: string)
    requires Lacks(a, c)
    ensures SplitOn(a + [c] + b, c) == [a] + SplitOn(b, c)
  {
    var s := a + [c] + b;
    if a == "" {
      assert s[1..] == b;
    } else {
      SplitFirst(a[1..], c, b);
      assert s[1..] == a[1..] + [c] + b;
      assert a == [a[0]] + a[1..];
    }
  }

  lemma {:induction false} SplitLast(s: string, c: char, b: string)
    requires Lacks(b, c)
    ensures SplitOn(s + [c] + b, c) == SplitOn(s, c) + [b]
  {
    var t := s + [c] + b;
    if s == "" {
      assert t[1..] == b;
      SplitWhole(b, c);
    } else {
      SplitLast(s[1..], c, b);
      assert t[1..] == s[1..] + [c] + b;
    }
  }

  /** A list of texts that can stand between colons. */
  ghost predicate Parts(ts: seq<string>) {
    forall t :: t in ts ==> t != "" && Lacks(t, ':')
  }

  lemma {:induction false} SplitJoined(ts: seq<string>)
    requires Parts(ts)
    ensures Pieces(Join(ts)) == ts && (Join(ts) == "" <==> ts == [])
  {
    if ts == [] {
    } else if |ts| == 1 {
      assert ts[0] in ts;
      SplitWhole(ts[0], ':');
    } else {
      var init, last := ts[..|ts| - 1], ts[|ts| - 1];
      assert last in ts && forall t :: t in init ==> t in ts;
      SplitJoined(init);
      SplitLast(Join(init), ':', last);
      assert ts == init + [last];
    }
  }

  ghost predicate NoDoubleColon(s: string) {
    forall i :: 0 <= i && i + 1 < |s| ==> s[i] != ':' || s[i + 1] != ':'
  }

  lemma {:induction false} JoinedColons(ts: seq<string>)
    requires Parts(ts)
    ensures var s := Join(ts);
            NoDoubleColon(s) && (s != "" ==> s[0] != ':' && s[|s| - 1] != ':')
  {
    if ts == [] {
    } else if |ts| == 1 {
      assert ts[0] in ts;
    } else {
      var init, last := ts[..|ts| - 1], ts[|ts| - 1];
      assert last in ts && forall t :: t in init ==> t in ts;
      JoinedColons(init);
      SplitJoined(init);
    }
  }

  lemma {:induction false} NoGapToSplit(s: string)
    requires NoDoubleColon(s)
    ensures SplitOnDoubleColon(s) == [s]
  {
    if s == "" {
    } else {
      NoGapToSplit(s[1..]);
      assert s == [s[0]] + s[1..];
    }
  }

  lemma {:induction false} SplitAtGap(a: string, b: string)
    requires NoDoubleColon(a) && (a != "" ==> a[|a| - 1] != ':') && NoDoubleColon(b)
    ensures SplitOnDoubleColon(a + "::" + b) == [a, b]
  {
    var s := a + "::" + b;
    if a == "" {
      assert s[2..] == b;
      NoGapToSplit(b);
    } else {
      assert s[1..] == a[1..] + "::" + b;
      SplitAtGap(a[1..], b);
      assert a == [a[0]] + a[1..];
      if |a| == 1 { assert s[0] != ':'; } else { assert s[1] == a[1]; }
    }
  }

  // ---- Groups ----

  lemma {:induction false} HextetBytesOfGroups(ts: seq<string>)
    requires forall t :: t in ts ==> GroupText(t)
    requires forall t :: t in ts ==> HextetText(t)
    ensures HextetBytes(ts) == Bytes(GroupBytes(ts))
  {
    if ts == [] {
    } else {
      assert ts[|ts| - 1] in ts;
      HextetBytesOfGroups(ts[..|ts| - 1]);
    }
  }

  lemma ZeroIsGroup()
    ensures GroupText("0") && HexNumber("0") == 0 && TwoBytes(0) == [0, 0]
  {
    assert "0"[..0] == "";
  }

  lemma {:induction false} GroupBytesOfZeros(n: nat)
    ensures (forall t :: t in Zeros(n) ==> GroupText(t)) && GroupBytes(Zeros(n)) == ZeroBytes(n)
  {
    hide GroupText, HexNumber, TwoBytes;
    if n == 0 {
    } else {
      GroupBytesOfZeros(n - 1);
      ZeroIsGroup();
      var zs := Zeros(n);
      assert zs[..n - 1] == Zeros(n - 1) && zs[n - 1] == "0";
      assert GroupBytes(zs) == GroupBytes(zs[..n - 1]) + TwoBytes(HexNumber("0"));
    }
  }

  lemma {:induction false} GroupBytesAppend(a: seq<string>, b: seq<string>)
    requires (forall t :: t in a ==> GroupText(t)) && (forall t :: t in b ==> GroupText(t))
    ensures GroupBytes(a + b) == GroupBytes(a) + GroupBytes(b)
  {
    if b == [] {
      assert a + b == a;
    } else {
      var init := b[..|b| - 1];
      GroupBytesAppend(a, init);
      assert (a + b)[..|a + b| - 1] == a + init;
    }
  }

  lemma GroupIsPart(t: string)
    requires GroupText(t)
    ensures t != "" && Lacks(t, ':') && Lacks(t, '.') && Lacks(t, '%')
  {
  }

  /** Groups as the parser takes them: hex digits, in lower case. */
  ghost predicate LowerGroupTexts(ts: seq<string>) {
    forall t :: t in ts ==> GroupText(t) && HextetText(t)
  }

  lemma GroupsAreParts(ts: seq<string>)
    requires forall t :: t in ts ==> GroupText(t)
    ensures Parts(ts)
  {
    forall t | t in ts ensures t != "" && Lacks(t, ':') { GroupIsPart(t); }
  }

  lemma ParsesFull(head: seq<string>)
    requires |head| == 8 && LowerGroupTexts(head)
    ensures ParseGroups(Join(head)) == Bytes(GroupBytes(head))
  {
    hide SplitOnDoubleColon, HextetBytes, GroupBytes, GroupText, HextetText, Join, Pieces;
    GroupsAreParts(head);
    SplitJoined(head);
    JoinedColons(head);
    NoGapToSplit(Join(head));
    HextetBytesOfGroups(head);
  }

  lemma ParsesGap(head: seq<string>, tail: seq<string>)
    requires |head| + |tail| <= 8 && LowerGroupTexts(head) && LowerGroupTexts(tail)
    ensures ParseGroups(Join(head) + "::" + Join(tail))
            == Bytes(GroupBytes(head) + ZeroBytes(8 - |head| - |tail|) + GroupBytes(tail))
  {
    hide SplitOnDoubleColon, HextetBytes, GroupBytes, GroupText, HextetText, Join, Pieces, ZeroBytes;
    GroupsAreParts(head);
    GroupsAreParts(tail);
    SplitJoined(head);
    SplitJoined(tail);
    JoinedColons(head);
    JoinedColons(tail);
    SplitAtGap(Join(head), Join(tail));
    FilledGroups(head, 8 - |head| - |tail|, tail);
  }

  lemma FilledGroups(head: seq<string>, n: nat, tail: seq<string>)
    requires LowerGroupTexts(head) && LowerGroupTexts(tail)
    ensures HextetBytes(head + Zeros(n) + tail) == Bytes(GroupBytes(head) + ZeroBytes(n) + GroupBytes(tail))
  {
    hide HextetBytes, GroupBytes, GroupText, HextetText, Zeros, ZeroBytes;
    GroupBytesOfZeros(n);
    ZerosAreHextets(n);
    GroupBytesAppend(head, Zeros(n));
    GroupBytesAppend(head + Zeros(n), tail);
    HextetBytesOfGroups(head + Zeros(n) + tail);
  }

  /** Lacks a dotted quad, in lower case. */
  lemma ParsesGroups(sp: Spelling)
    requires Readable(sp) && sp.quad.None? && LowerGroupTexts(sp.head) && LowerGroupTexts(sp.tail)
    ensures ParseGroups(Text(sp)) == Bytes(Value(sp))
  {
    hide ParseGroups, GroupBytes, Join, GroupText, HextetText, ZeroBytes;
    NoGroupsNoBytes();
    assert WithQuad(sp.head, None) == sp.head && WithQuad(sp.tail, None) == sp.tail;
    if sp.gap { ParsesGap(sp.head, sp.tail); } else { ParsesFull(sp.head); }
  }

  lemma NoGroupsNoBytes()
    ensures GroupBytes([]) == []
  {
  }

  lemma ZerosAreHextets(n: nat)
    ensures forall t :: t in Zeros(n) ==> HextetText(t)
  {
    forall t | t in Zeros(n) ensures HextetText(t) { assert t == "0"; }
  }

  // ---- Case, white space and zone ----

  function LowerAll(ts: seq<string>): (r: seq<string>)
    ensures |r| == |ts| && forall i :: 0 <= i < |ts| ==> r[i] == Lower(ts[i])
  {
    if ts == [] then [] else LowerAll(ts[..|ts| - 1]) + [Lower(ts[|ts| - 1])]
  }

  function LowerSpelling(sp: Spelling): Spelling {
    Spelling(LowerAll(sp.head), sp.gap, LowerAll(sp.tail), sp.quad)
  }

  lemma LowerConcat(a: string, b: string)
    ensures Lower(a + b) == Lower(a) + Lower(b)
  {
  }

  lemma LowerGroup(t: string)
    requires GroupText(t)
    ensures GroupText(Lower(t)) && HextetText(Lower(t))
  {
  }

  lemma {:induction false} LowerKeepsNumber(t: string)
    requires forall i :: 0 <= i < |t| ==> IsHex(t[i])
    ensures forall i :: 0 <= i < |t| ==> IsHex(Lower(t)[i])
    ensures HexNumber(Lower(t)) == HexNumber(t)
  {
    if t == "" {
    } else {
      LowerKeepsNumber(t[..|t| - 1]);
      assert Lower(t)[..|t| - 1] == Lower(t[..|t| - 1]);
      assert HexValue(LowerChar(t[|t| - 1])) == HexValue(t[|t| - 1]);
    }
  }

  lemma {:induction false} LowerGroups(ts: seq<string>)
    requires forall t :: t in ts ==> GroupText(t)
    ensures forall t :: t in LowerAll(ts) ==> GroupText(t) && HextetText(t)
    ensures GroupBytes(LowerAll(ts)) == GroupBytes(ts)
  {
    hide GroupText, HextetText;
    if ts == [] {
    } else {
      var init, last := ts[..|ts| - 1], ts[|ts| - 1];
      assert GroupText(last);
      LowerGroups(init);
      LowerGroup(last);
      assert GroupText(last) ==> forall i :: 0 <= i < |last| ==> IsHex(last[i]) by { GroupIsHex(last); }
      LowerKeepsNumber(last);
      assert LowerAll(ts)[..|ts| - 1] == LowerAll(init);
    }
  }

  lemma GroupIsHex(t: string)
    requires GroupText(t)
    ensures forall i :: 0 <= i < |t| ==> IsHex(t[i])
  {
  }

  lemma {:induction false} LowerJoin(ts: seq<string>)
    ensures Lower(Join(ts)) == Join(LowerAll(ts))
  {
    if ts == [] {
    } else {
      hide Join, Lower, LowerAll;
      var init, last := ts[..|ts| - 1], ts[|ts| - 1];
      assert ts == init + [last];
      LowerJoin(init);
      LowerJoinStep(init, last);
    }
  }

  lemma LowerJoinStep(init: seq<string>, last: string)
    requires Lower(Join(init)) == Join(LowerAll(init))
    ensures Lower(Join(init + [last])) == Join(LowerAll(init + [last]))
  {
    hide Join, Lower, LowerAll;
    LowerConcat(Join(init) + ":", last);
    LowerConcat(Join(init), ":");
    assert Lower(":") == ":";
    assert LowerAll(init + [last]) == LowerAll(init) + [Lower(last)];
    JoinOneMore(init, last);
    JoinOneMore(LowerAll(init), Lower(last));
  }

  /** The characters of a spelling. */
  predicate AddressChar(c: char) {
    IsHex(c) || c == ':' || c == '.'
  }

  ghost predicate AddressChars(s: string) {
    forall i :: 0 <= i < |s| ==> AddressChar(s[i])
  }

  lemma {:induction false} JoinChars(ts: seq<string>)
    requires forall t :: t in ts ==> AddressChars(t)
    ensures AddressChars(Join(ts))
  {
    if ts == [] {
    } else if |ts| == 1 {
      assert ts[0] in ts;
    } else {
      assert ts[|ts| - 1] in ts;
      JoinChars(ts[..|ts| - 1]);
    }
  }

  lemma QuadChars(q: Quad)
    requires QuadOk(q)
    ensures AddressChars(QuadText(q)) && Lacks(QuadText(q), ':') && QuadText(q) != ""
    ensures Lower(QuadText(q)) == QuadText(q)
  {
    hide DecimalValue;
    var s := QuadText(q);
    assert forall i :: 0 <= i < |s| ==> IsDigit(s[i]) || s[i] == '.';
  }

  lemma TextChars(sp: Spelling)
    requires Readable(sp)
    ensures AddressChars(Text(sp)) && Text(sp) != ""
  {
    hide GroupText, Join;
    forall t | t in sp.head || t in sp.tail ensures AddressChars(t) && t != "" && Lacks(t, ':') {
      GroupIsHex(t);
      GroupIsPart(t);
    }
    if sp.quad.Some? { QuadChars(sp.quad.value); }
    JoinChars(WithQuad(sp.head, sp.quad));
    JoinChars(sp.head);
    JoinChars(WithQuad(sp.tail, sp.quad));
    assert Parts(WithQuad(sp.head, sp.quad));
    SplitJoined(WithQuad(sp.head, sp.quad));
  }

  lemma LowerValue(sp: Spelling)
    requires Readable(sp)
    ensures Readable(LowerSpelling(sp)) && Value(LowerSpelling(sp)) == Value(sp)
    ensures LowerGroupTexts(LowerAll(sp.head)) && LowerGroupTexts(LowerAll(sp.tail))
  {
    hide GroupText, HextetText, GroupBytes, LowerAll;
    LowerGroups(sp.head);
    LowerGroups(sp.tail);
  }

  lemma LowerJoinQuad(ts: seq<string>, q: Option<Quad>)
    requires q.Some? ==> QuadOk(q.value)
    ensures Lower(Join(WithQuad(ts, q))) == Join(WithQuad(LowerAll(ts), q))
  {
    hide Join, Lower, QuadOk, QuadText;
    LowerJoin(WithQuad(ts, q));
    if q.Some? { QuadChars(q.value); }
    assert LowerAll(WithQuad(ts, q)) == WithQuad(LowerAll(ts), q);
  }

  lemma LowerText(sp: Spelling)
    requires Readable(sp)
    ensures Lower(Text(sp)) == Text(LowerSpelling(sp))
  {
    hide GroupText, Join, LowerAll, WithQuad;
    LowerJoin(sp.head);
    LowerJoinQuad(sp.head, sp.quad);
    LowerJoinQuad(sp.tail, sp.quad);
    if sp.gap {
      LowerConcat(Join(sp.head) + "::", Join(WithQuad(sp.tail, sp.quad)));
      LowerConcat(Join(sp.head), "::");
    }
  }

  ghost predicate Spaces(s: string) {
    forall i :: 0 <= i < |s| ==> IsSpace(s[i])
  }

  /** What may follow an address: white space, or a zone id and anything at all. */
  ghost predicate Trailer(s: string) {
    Spaces(s) || s[0] == '%'
  }

  lemma {:induction false} TrimsStart(before: string, s: string)
    requires Spaces(before) && s != "" && !IsSpace(s[0])
    ensures TrimStart(before + s) == s
  {
    if before == "" {
      assert before + s == s;
    } else {
      TrimsStart(before[1..], s);
      assert (before + s)[1..] == before[1..] + s;
    }
  }

  lemma {:induction false} TrimsEnd(s: string, after: string)
    requires s != "" && !IsSpace(s[|s| - 1]) && Trailer(after)
    ensures exists rest :: TrimEnd(s + after) == s + rest && (rest == "" || rest[0] == '%')
  {
    if after == "" {
      assert s + "" == s;
      assert TrimEnd(s + after) == s + "";
    } else if IsSpace(after[|after| - 1]) {
      var init := after[..|after| - 1];
      assert (s + after)[..|s + after| - 1] == s + init;
      if init != "" { assert init[0] == after[0]; }
      TrimsEnd(s, init);
    } else {
      assert TrimEnd(s + after) == s + after;
    }
  }

  lemma {:induction false} CutsZone(s: string, rest: string)
    requires Lacks(s, '%') && (rest == "" || rest[0] == '%')
    ensures CutZone(s + rest) == s
  {
    if s == "" {
      assert s + rest == rest;
    } else {
      CutsZone(s[1..], rest);
      assert (s + rest)[1..] == s[1..] + rest;
    }
  }

  lemma CleansTo(before: string, s: string, after: string)
    requires Spaces(before) && AddressChars(s) && s != "" && Trailer(after)
    ensures Cleaned(before + s + after) == Lower(s)
  {
    hide TrimStart, TrimEnd, CutZone, Lower;
    var b, l, a := Lower(before), Lower(s), Lower(after);
    LowerConcat(before + s, after);
    LowerConcat(before, s);
    assert Spaces(b) by { assert forall i :: 0 <= i < |b| ==> IsSpace(before[i]) ==> IsSpace(LowerChar(before[i])); }
    assert Trailer(a) by {
      if Spaces(after) {
        assert forall i :: 0 <= i < |a| ==> IsSpace(after[i]) ==> IsSpace(LowerChar(after[i]));
      }
    }
    assert forall i :: 0 <= i < |l| ==> AddressChar(s[i]) && AddressChar(l[i]);
    assert !IsSpace(l[0]) && !IsSpace(l[|l| - 1]) && Lacks(l, '%');
    TrimsStart(b, l + a);
    assert b + l + a == b + (l + a);
    TrimsEnd(l, a);
    var rest :| TrimEnd(l + a) == l + rest && (rest == "" || rest[0] == '%');
    CutsZone(l, rest);
  }

  // ---- The dotted quad ----

  lemma QuadSplits(q: Quad)
    requires QuadOk(q)
    ensures DottedQuad(QuadText(q))
    ensures QuadOctets(QuadText(q)) == QuadBytes(Some(q))
  {
    hide SplitOn, DecimalValue;
    assert QuadText(q) == q.a + ['.'] + (q.b + "." + q.c + "." + q.d);
    assert q.b + "." + q.c + "." + q.d == q.b + ['.'] + (q.c + "." + q.d);
    assert q.c + "." + q.d == q.c + ['.'] + q.d;
    SplitFirst(q.a, '.', q.b + "." + q.c + "." + q.d);
    SplitFirst(q.b, '.', q.c + "." + q.d);
    SplitFirst(q.c, '.', q.d);
    SplitWhole(q.d, '.');
  }

  lemma {:induction false} FindsLastColon(p: string, t: string)
    requires p != "" && p[|p| - 1] == ':' && Lacks(t, ':')
    ensures LastColon(p + t) == |p|
  {
    if t == "" {
      assert p + t == p;
    } else {
      FindsLastColon(p, t[..|t| - 1]);
      assert (p + t)[..|p + t| - 1] == p + t[..|t| - 1];
    }
  }

  lemma {:induction false} OneLine(s: string)
    requires AddressChars(s)
    ensures LastLine(s) == s
  {
    if s == "" {
    } else {
      OneLine(s[..|s| - 1]);
    }
  }

  lemma ToHexIsGroup(v: int)
    requires 0 <= v < 65536
    ensures GroupText(ToHex(v)) && HextetText(ToHex(v)) && HexNumber(ToHex(v)) == v
  {
    ToHexDigits(v, 4);
  }

  lemma {:induction false} ToHexDigits(v: int, n: nat)
    requires 0 <= v && 1 <= n <= 4
    requires v < (if n == 1 then 16 else if n == 2 then 256 else if n == 3 then 4096 else 65536)
    ensures 1 <= |ToHex(v)| <= n
    ensures forall i :: 0 <= i < |ToHex(v)| ==> IsLowerHex(ToHex(v)[i]) && IsHex(ToHex(v)[i])
    ensures HexNumber(ToHex(v)) == v
  {
    var s := ToHex(v);
    if v < 16 {
      assert s[..0] == "";
      DigitReadsBack(v);
    } else {
      ToHexDigits(v / 16, n - 1);
      DigitReadsBack(v % 16);
      assert s[..|s| - 1] == ToHex(v / 16);
    }
  }

  /** What the digits of a decimal octet and of a hextet are worth, place by place. */
  lemma DigitsCount(a: char, b: char, c: char, d: char)
    ensures IsDigit(a) && IsDigit(b) && IsDigit(c) ==>
              && DecimalValue([a]) == DigitValue(a)
              && DecimalValue([a, b]) == 10 * DigitValue(a) + DigitValue(b)
              && DecimalValue([a, b, c]) == 100 * DigitValue(a) + 10 * DigitValue(b) + DigitValue(c)
    ensures IsDigit(a) ==> "0123456789"[DigitValue(a)] == a
    ensures IsHex(a) && IsHex(b) && IsHex(c) && IsHex(d) ==>
              && HexNumber([a]) == HexValue(a)
              && HexNumber([a, b]) == 0x10 * HexValue(a) + HexValue(b)
              && HexNumber([a, b, c]) == 0x100 * HexValue(a) + 0x10 * HexValue(b) + HexValue(c)
              && HexNumber([a, b, c, d]) ==
                   0x1000 * HexValue(a) + 0x100 * HexValue(b) + 0x10 * HexValue(c) + HexValue(d)
  {
    assert [a][..0] == [] && [a, b][..1] == [a] && [a, b, c][..2] == [a, b] && [a, b, c, d][..3] == [a, b, c];
    assert DecimalValue([]) == 0 && HexNumber([]) == 0;
    if IsDigit(a) && IsDigit(b) && IsDigit(c) {
      assert DecimalValue([a]) == DigitValue(a);
      assert DecimalValue([a, b]) == 10 * DigitValue(a) + DigitValue(b);
    }
    if IsHex(a) && IsHex(b) && IsHex(c) && IsHex(d) {
      assert HexNumber([a]) == HexValue(a);
      assert HexNumber([a, b]) == 0x10 * HexValue(a) + HexValue(b);
      assert HexNumber([a, b, c]) == 0x100 * HexValue(a) + 0x10 * HexValue(b) + HexValue(c);
    }
  }

  lemma DigitReadsBack(v: int)
    requires 0 <= v < 16
    ensures IsHex(LowerHexDigit(v)) && HexValue(LowerHexDigit(v)) == v
  {
  }

  lemma JoinOneMore(ts: seq<string>, t: string)
    ensures Join(ts + [t]) == (if ts == [] then t else Join(ts) + ":" + t)
  {
    assert (ts + [t])[..|ts|] == ts;
  }

  /** The two hextets of a quad. */
  function QuadHextets(q: Quad): (r: seq<string>)
    requires QuadOk(q)
    ensures |r| == 2
  {
    [ToHex(256 * DecimalValue(q.a) + DecimalValue(q.b)), ToHex(256 * DecimalValue(q.c) + DecimalValue(q.d))]
  }

  function Unquoted(sp: Spelling): Spelling
    requires sp.quad.Some? && QuadOk(sp.quad.value)
  {
    if sp.gap then Spelling(sp.head, true, sp.tail + QuadHextets(sp.quad.value), None)
    else Spelling(sp.head + QuadHextets(sp.quad.value), false, [], None)
  }

  lemma BytesOfTwo(a: int, b: int)
    requires 0 <= a < 256 && 0 <= b < 256
    ensures TwoBytes(256 * a + b) == [a, b]
  {
  }

  lemma GroupBytesOfTwo(s: string, t: string)
    requires GroupText(s) && GroupText(t)
    ensures GroupBytes([s, t]) == TwoBytes(HexNumber(s)) + TwoBytes(HexNumber(t))
  {
    hide TwoBytes, HexNumber;
    assert [s, t][..1] == [s] && [s][..0] == [];
    NoGroupsNoBytes();
    assert GroupBytes([s]) == [] + TwoBytes(HexNumber(s));
    assert GroupBytes([s, t]) == GroupBytes([s, t][..1]) + TwoBytes(HexNumber(t));
  }

  lemma QuadHextetsAreGroups(q: Quad, ts: seq<string>)
    requires QuadOk(q) && forall t :: t in ts ==> GroupText(t)
    ensures forall t :: t in QuadHextets(q) ==> GroupText(t) && HextetText(t)
    ensures GroupBytes(ts + QuadHextets(q)) == GroupBytes(ts) + QuadBytes(Some(q))
  {
    hide GroupText, HextetText, HexNumber, DecimalValue, ToHex, GroupBytes, TwoBytes;
    var hs := QuadHextets(q);
    var a, b, c, d := DecimalValue(q.a), DecimalValue(q.b), DecimalValue(q.c), DecimalValue(q.d);
    ToHexIsGroup(256 * a + b);
    ToHexIsGroup(256 * c + d);
    GroupBytesAppend(ts, hs);
    GroupBytesOfTwo(hs[0], hs[1]);
    BytesOfTwo(a, b);
    BytesOfTwo(c, d);
    assert hs == [hs[0], hs[1]];
  }

  /** The text up to the quad. */
  function BeforeQuad(sp: Spelling): string {
    if sp.gap then Join(sp.head) + "::" + (if sp.tail == [] then "" else Join(sp.tail) + ":")
    else Join(sp.head) + ":"
  }

  lemma TextOfQuad(sp: Spelling)
    requires Readable(sp) && sp.quad.Some?
    ensures Text(sp) == BeforeQuad(sp) + QuadText(sp.quad.value)
    ensures var hs := QuadHextets(sp.quad.value); Text(Unquoted(sp)) == BeforeQuad(sp) + hs[0] + ":" + hs[1]
  {
    hide Join, GroupText, ToHex, DecimalValue, QuadText;
    var q, hs := sp.quad.value, QuadHextets(sp.quad.value);
    var ts := if sp.gap then sp.tail else sp.head;
    JoinOneMore(ts, QuadText(q));
    JoinOneMore(ts, hs[0]);
    JoinOneMore(ts + [hs[0]], hs[1]);
    assert ts + hs == ts + [hs[0]] + [hs[1]];
    assert WithQuad(ts + hs, None) == ts + hs;
  }

  lemma UnquotedIsReadable(sp: Spelling)
    requires Readable(sp) && sp.quad.Some?
    ensures QuadOk(sp.quad.value) && Readable(Unquoted(sp)) && Value(Unquoted(sp)) == Value(sp)
  {
    hide GroupText, GroupBytes;
    var q := sp.quad.value;
    QuadHextetsAreGroups(q, sp.tail);
    QuadHextetsAreGroups(q, sp.head);
    NoGroupsNoBytes();
  }

  lemma ExpandUnfolds(s: string, p: string, t: string)
    requires LastColon(s) == |p| > 0 && |p| <= |s| && s[..|p|] == p && s[|p|..] == t && DottedQuad(t)
    ensures ExpandQuad(s) == QuadAsHextets(LastLine(p), QuadOctets(t))
  {
    hide LastLine, LastColon, DottedQuad, QuadAsHextets, QuadOctets;
  }

  lemma QuadBecomesHextets(before: string, q: Quad)
    requires QuadOk(q)
    ensures var o, hs := QuadBytes(Some(q)), QuadHextets(q);
            QuadAsHextets(before, o) == Some(before + hs[0] + ":" + hs[1])
  {
    hide ToHex, DecimalText, DecimalValue;
  }

  lemma ExpandsTail(p: string, q: Quad)
    requires QuadOk(q) && p != "" && p[|p| - 1] == ':'
    ensures var s, hs := p + QuadText(q), QuadHextets(q);
            ExpandQuad(s) == Some(LastLine(p) + hs[0] + ":" + hs[1])
  {
    hide ExpandQuad, LastLine, LastColon, DottedQuad, QuadText, QuadOctets, QuadBytes, QuadAsHextets, QuadHextets,
         QuadOk;
    QuadChars(q);
    QuadSplits(q);
    FindsLastColon(p, QuadText(q));
    var s := p + QuadText(q);
    assert s[..|p|] == p && s[|p|..] == QuadText(q);
    ExpandUnfolds(s, p, QuadText(q));
    QuadBecomesHextets(LastLine(p), q);
  }

  lemma BeforeQuadIsAddress(sp: Spelling)
    requires Readable(sp) && sp.quad.Some?
    ensures var p := BeforeQuad(sp); AddressChars(p) && p != "" && p[|p| - 1] == ':'
  {
    hide GroupText, Join, QuadText;
    TextChars(sp);
    TextOfQuad(sp);
    var p := BeforeQuad(sp);
    assert forall i :: 0 <= i < |p| ==> p[i] == Text(sp)[i];
  }

  lemma ExpandsQuad(sp: Spelling)
    requires Readable(sp)
    ensures ExpandQuad(Text(sp)) == Some(Text(if sp.quad.Some? then Unquoted(sp) else sp))
  {
    hide GroupText, Join, SplitOn, LastLine, LastColon, DottedQuad, QuadText, QuadHextets, BeforeQuad, AddressChars;
    if sp.quad.Some? {
      hide ExpandQuad, Text;
      TextOfQuad(sp);
      BeforeQuadIsAddress(sp);
      ExpandsTail(BeforeQuad(sp), sp.quad.value);
      OneLine(BeforeQuad(sp));
    } else {
      NoDots(sp);
      var n := LastColon(Text(sp));
      SplitWhole(Text(sp)[n..], '.');
      OneIsNotFour(Text(sp)[n..]);
    }
  }

  lemma OneIsNotFour(s: string)
    requires |SplitOn(s, '.')| == 1
    ensures !DottedQuad(s)
  {
  }

  lemma {:induction false} JoinLacks(ts: seq<string>, c: char)
    requires c != ':' && forall t :: t in ts ==> Lacks(t, c)
    ensures Lacks(Join(ts), c)
  {
    if ts == [] {
    } else if |ts| == 1 {
      assert ts[0] in ts;
    } else {
      assert ts[|ts| - 1] in ts;
      JoinLacks(ts[..|ts| - 1], c);
    }
  }

  lemma NoDots(sp: Spelling)
    requires Readable(sp) && sp.quad.None?
    ensures Lacks(Text(sp), '.')
  {
    hide GroupText, Join;
    forall t | t in sp.head || t in sp.tail ensures Lacks(t, '.') { GroupIsPart(t); }
    JoinLacks(sp.head, '.');
    JoinLacks(sp.tail, '.');
    assert WithQuad(sp.head, None) == sp.head && WithQuad(sp.tail, None) == sp.tail;
  }

  // ---- The main results ----

  lemma ReadableSpellingParses(before: string, sp: Spelling, after: string)
    requires Readable(sp) && Spaces(before) && Trailer(after)
    ensures ParseIpv6(before + Text(sp) + after) == Bytes(Value(sp))
  {
    hide Text, Readable, Value, Cleaned, ExpandQuad, ParseGroups, LowerAll, HextetText, GroupText;
    TextChars(sp);
    CleansTo(before, Text(sp), after);
    LowerValue(sp);
    LowerText(sp);
    var low := LowerSpelling(sp);
    ExpandsQuad(low);
    if sp.quad.Some? {
      UnquotedIsReadable(low);
      UnquotedIsLower(low);
      ParsesGroups(Unquoted(low));
    } else {
      ParsesGroups(low);
    }
  }

  lemma UnquotedIsLower(sp: Spelling)
    requires Readable(sp) && sp.quad.Some? && LowerGroupTexts(sp.head) && LowerGroupTexts(sp.tail)
    ensures LowerGroupTexts(Unquoted(sp).head) && LowerGroupTexts(Unquoted(sp).tail)
  {
    hide HextetText, GroupText;
    QuadHextetsAreGroups(sp.quad.value, []);
  }

  /**
   The parser reads every legal spelling of an address as that address: any place of the double colon, hex digits of
   either case with or without leading zeros, with or without a dotted quad, white space around it or a zone id behind
   it.
   */
  lemma LegalSpellingParses(before: string, sp: Spelling, after: string)
    requires Legal(sp) && Spaces(before) && Trailer(after)
    ensures ParseIpv6(before + Text(sp) + after) == Bytes(Value(sp))
  {
    ReadableSpellingParses(before, sp, after);
  }

  /** So two spellings of one address are read alike. */
  lemma OneAddressOneReading(s: Spelling, t: Spelling)
    requires Legal(s) && Legal(t) && Value(s) == Value(t)
    ensures ParseIpv6(Text(s)) == ParseIpv6(Text(t))
  {
    LegalSpellingParses("", s, "");
    LegalSpellingParses("", t, "");
    assert "" + Text(s) + "" == Text(s) && "" + Text(t) + "" == Text(t);
  }

  lemma {:induction false} GroupsFor(bytes: seq<int>) returns (ts: seq<string>)
    requires |bytes| % 2 == 0 && forall i :: 0 <= i < |bytes| ==> 0 <= bytes[i] < 256
    ensures 2 * |ts| == |bytes| && (forall t :: t in ts ==> GroupText(t)) && GroupBytes(ts) == bytes
  {
    hide GroupText, ToHex, TwoBytes;
    ts := [];
    NoGroupsNoBytes();
    if bytes == [] {
    } else {
      var n := |bytes| - 2;
      var init := GroupsFor(bytes[..n]);
      var v := 256 * bytes[n] + bytes[n + 1];
      ToHexIsGroup(v);
      BytesOfTwo(bytes[n], bytes[n + 1]);
      ts := init + [ToHex(v)];
      assert ts[..|ts| - 1] == init;
      assert bytes == bytes[..n] + [bytes[n], bytes[n + 1]];
    }
  }

  /** Every address has a legal spelling: its eight groups in full. */
  lemma EveryAddressIsSpelled(bytes: seq<int>) returns (sp: Spelling)
    requires |bytes| == 16 && forall i :: 0 <= i < |bytes| ==> 0 <= bytes[i] < 256
    ensures Legal(sp) && Value(sp) == bytes
  {
    hide GroupText, GroupBytes;
    var ts := GroupsFor(bytes);
    NoGroupsNoBytes();
    sp := Spelling(ts, false, [], None);
  }
}
