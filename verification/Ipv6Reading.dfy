/**
 What the IPv6 parser reads, exactly: the spellings of an address and, by an oversight in one pattern, what stands
 behind a line break before a dotted one.
 */
module Ipv6Reading {
  import opened Basics
  import opened Ipv6
  import opened Ipv6Text

  // ---- Joining what was split ----

  lemma {:induction false} PiecesJoin(s: string)
    ensures Join(SplitOn(s, ':')) == s && forall t :: t in SplitOn(s, ':') ==> Lacks(t, ':')
  {
    if s == "" {
    } else {
      PiecesJoin(s[1..]);
      var rest := SplitOn(s[1..], ':');
      assert s == [s[0]] + s[1..];
      assert Lacks(rest[0], ':') && forall t :: t in rest[1..] ==> t in rest;
      if s[0] == ':' {
        JoinEmptyFirst(rest);
      } else {
        JoinCharFirst(s[0], rest);
        assert Lacks([s[0]] + rest[0], ':');
      }
    }
  }

  lemma {:induction false} JoinEmptyFirst(ts: seq<string>)
    requires ts != []
    ensures Join([""] + ts) == ":" + Join(ts)
  {
    if |ts| == 1 {
      assert ([""] + ts)[..1] == [""];
    } else {
      JoinEmptyFirst(ts[..|ts| - 1]);
      assert ([""] + ts)[..|ts|] == [""] + ts[..|ts| - 1];
    }
  }

  lemma {:induction false} JoinCharFirst(c: char, ts: seq<string>)
    requires ts != []
    ensures Join([[c] + ts[0]] + ts[1..]) == [c] + Join(ts)
  {
    var us := [[c] + ts[0]] + ts[1..];
    if |ts| <= 1 {
    } else {
      JoinCharFirst(c, ts[..|ts| - 1]);
      assert us[..|us| - 1] == [[c] + ts[0]] + ts[..|ts| - 1][1..];
    }
  }

  lemma HalvesStep(s: string)
    requires s != "" && !(|s| >= 2 && s[0] == ':' && s[1] == ':')
    ensures var h, rest := SplitOnDoubleColon(s), SplitOnDoubleColon(s[1..]);
            |h| == |rest| && h[0] == [s[0]] + rest[0] && h[1..] == rest[1..]
  {
  }

  lemma HalvesGap(s: string)
    requires |s| >= 2 && s[0] == ':' && s[1] == ':'
    ensures SplitOnDoubleColon(s) == [""] + SplitOnDoubleColon(s[2..])
  {
  }

  lemma NoHalves()
    ensures SplitOnDoubleColon("") == [""]
  {
  }

  function JoinHalves(h: seq<string>): string
    requires h != []
  {
    if |h| == 1 then h[0] else h[0] + "::" + JoinHalves(h[1..])
  }

  lemma JoinHalvesGap(h: seq<string>)
    requires h != []
    ensures JoinHalves([""] + h) == "::" + JoinHalves(h)
  {
    assert ([""] + h)[1..] == h && "" + "::" == "::";
  }

  lemma JoinHalvesStep(c: char, h: seq<string>, rest: seq<string>)
    requires |h| == |rest| > 0 && h[0] == [c] + rest[0] && h[1..] == rest[1..]
    ensures JoinHalves(h) == [c] + JoinHalves(rest)
  {
    assert [c] + rest[0] + "::" == [c] + (rest[0] + "::");
  }

  lemma {:induction false} HalvesRejoin(s: string)
    ensures JoinHalves(SplitOnDoubleColon(s)) == s
  {
    hide SplitOnDoubleColon, JoinHalves;
    if s == "" {
      NoHalves();
      JoinedAlone("");
    } else if |s| >= 2 && s[0] == ':' && s[1] == ':' {
      HalvesGap(s);
      HalvesRejoin(s[2..]);
      JoinHalvesGap(SplitOnDoubleColon(s[2..]));
      assert s == "::" + s[2..];
    } else {
      HalvesStep(s);
      HalvesRejoin(s[1..]);
      JoinHalvesStep(s[0], SplitOnDoubleColon(s), SplitOnDoubleColon(s[1..]));
      assert s == [s[0]] + s[1..];
    }
  }

  lemma JoinedAlone(x: string)
    ensures JoinHalves([x]) == x
  {
  }

  lemma HalvesJoin(s: string)
    ensures var h := SplitOnDoubleColon(s); (|h| == 1 ==> s == h[0]) && (|h| == 2 ==> s == h[0] + "::" + h[1])
  {
    hide SplitOnDoubleColon;
    HalvesRejoin(s);
    var h := SplitOnDoubleColon(s);
    if |h| == 2 { assert JoinHalves(h[1..]) == h[1]; }
  }

  lemma PiecesJoinBack(s: string)
    ensures Join(Pieces(s)) == s
  {
    PiecesJoin(s);
    assert Join([]) == "";
  }

  lemma {:induction false} ReadHextets(hs: seq<string>)
    requires HextetBytes(hs).Bytes?
    ensures forall h :: h in hs ==> HextetText(h) && GroupText(h)
    ensures HextetBytes(hs).bytes == GroupBytes(hs)
  {
    if hs == [] {
    } else {
      ReadHextets(hs[..|hs| - 1]);
      assert hs == hs[..|hs| - 1] + [hs[|hs| - 1]];
    }
  }

  // ---- Lacks a quad ----

  lemma ReadFull(s: string)
    requires |SplitOnDoubleColon(s)| == 1 && ParseGroups(s).Bytes?
    ensures var head := Pieces(s); |head| == 8 && LowerGroupTexts(head) && Join(head) == s
  {
    hide SplitOnDoubleColon, HextetBytes, GroupBytes, GroupText, HextetText, Join, Pieces;
    HalvesJoin(s);
    PiecesJoinBack(s);
    ReadHextets(Pieces(s));
  }

  lemma ReadGap(s: string)
    requires |SplitOnDoubleColon(s)| == 2 && ParseGroups(s).Bytes?
    ensures var h := SplitOnDoubleColon(s);
            var head, tail := Pieces(h[0]), Pieces(h[1]);
            && |head| + |tail| <= 8 && LowerGroupTexts(head) && LowerGroupTexts(tail)
            && s == Join(head) + "::" + Join(tail)
  {
    hide SplitOnDoubleColon, HextetBytes, GroupBytes, GroupText, HextetText, Join, Pieces;
    var h := SplitOnDoubleColon(s);
    HalvesJoin(s);
    PiecesJoinBack(h[0]);
    PiecesJoinBack(h[1]);
    var head, tail := Pieces(h[0]), Pieces(h[1]);
    var all := head + Zeros(8 - |head| - |tail|) + tail;
    ReadHextets(all);
    assert forall t :: t in head ==> t in all;
    assert forall t :: t in tail ==> t in all;
  }

  lemma ReadGroups(s: string) returns (sp: Spelling)
    requires ParseGroups(s).Bytes?
    ensures Readable(sp) && sp.quad.None? && Text(sp) == s && Value(sp) == ParseGroups(s).bytes
  {
    var h := SplitOnDoubleColon(s);
    assert |h| == 1 || |h| == 2;
    hide SplitOnDoubleColon, ParseGroups, GroupBytes, GroupText, HextetText, Join, Pieces, Value;
    if |h| == 2 {
      ReadGap(s);
      sp := Spelling(Pieces(h[0]), true, Pieces(h[1]), None);
    } else {
      ReadFull(s);
      sp := Spelling(Pieces(s), false, [], None);
    }
    assert WithQuad(sp.head, None) == sp.head && WithQuad(sp.tail, None) == sp.tail;
    ParsesGroups(sp);
  }

  // ---- With a quad ----

  /** The first part and the rest, as they stand around the first separator. */
  lemma {:induction false} SplitUncons(t: string, c: char)
    ensures var p := SplitOn(t, c);
            if |p| == 1 then p[0] == t
            else |p[0]| < |t| && t == p[0] + [c] + t[|p[0]| + 1..] && SplitOn(t[|p[0]| + 1..], c) == p[1..]
  {
    if t == "" {
    } else {
      SplitUncons(t[1..], c);
      assert t == [t[0]] + t[1..];
      var p, rest := SplitOn(t, c), SplitOn(t[1..], c);
      if t[0] == c {
        assert p == [""] + rest && p[1..] == rest && t == "" + [c] + t[1..];
      } else {
        assert p == [[t[0]] + rest[0]] + rest[1..] && p[1..] == rest[1..];
        if |p| > 1 { assert t[1..][|rest[0]| + 1..] == t[|p[0]| + 1..]; }
      }
    }
  }

  function Rejoin(ts: seq<string>, c: char): string
    requires ts != []
  {
    if |ts| == 1 then ts[0] else ts[0] + [c] + Rejoin(ts[1..], c)
  }

  lemma {:induction false} SplitRejoins(t: string, c: char)
    ensures Rejoin(SplitOn(t, c), c) == t
    decreases |t|
  {
    hide SplitOn;
    SplitUncons(t, c);
    var p := SplitOn(t, c);
    if |p| == 1 {
    } else {
      SplitRejoins(t[|p[0]| + 1..], c);
    }
  }

  lemma FourParts(t: string, c: char)
    requires |SplitOn(t, c)| == 4
    ensures var p := SplitOn(t, c); t == p[0] + [c] + p[1] + [c] + p[2] + [c] + p[3]
  {
    hide SplitOn;
    SplitRejoins(t, c);
    var p := SplitOn(t, c);
    RejoinFour(p[0], p[1], p[2], p[3], c);
    assert p == [p[0], p[1], p[2], p[3]];
  }

  lemma RejoinFour(x: string, y: string, z: string, u: string, c: char)
    ensures Rejoin([x, y, z, u], c) == x + [c] + y + [c] + z + [c] + u
  {
    assert [x, y, z, u][1..] == [y, z, u] && [y, z, u][1..] == [z, u] && [z, u][1..] == [u];
    assert Rejoin([z, u], c) == z + [c] + u;
    assert Rejoin([y, z, u], c) == y + [c] + (z + [c] + u);
  }

  /** A dotted quad with octets in range is the text of one. */
  lemma ReadQuad(t: string) returns (q: Quad)
    requires DottedQuad(t)
    requires var o := QuadOctets(t); o[0] <= 255 && o[1] <= 255 && o[2] <= 255 && o[3] <= 255
    ensures QuadOk(q) && QuadText(q) == t
  {
    hide DecimalValue, DecimalText, SplitOn;
    var p := SplitOn(t, '.');
    FourParts(t, '.');
    q := Quad(p[0], p[1], p[2], p[3]);
  }

  /** What follows the last colon goes to the last half. */
  lemma {:induction false} LastHalfGrows(p: string, x: string)
    requires x != "" && x[0] != ':' && NoDoubleColon(x)
    ensures var h, g := SplitOnDoubleColon(p), SplitOnDoubleColon(p + x);
            |g| == |h| && g[..|g| - 1] == h[..|h| - 1] && g[|g| - 1] == h[|h| - 1] + x
  {
    hide SplitOnDoubleColon, NoDoubleColon;
    if p == "" {
      assert p + x == x && "" + x == x;
      NoHalves();
      NoGapToSplit(x);
    } else {
      var s := p + x;
      if |p| >= 2 && p[0] == ':' && p[1] == ':' {
        HalvesGap(p);
        HalvesGap(s);
        LastHalfGrows(p[2..], x);
        assert s[2..] == p[2..] + x;
        var h, g := SplitOnDoubleColon(p[2..]), SplitOnDoubleColon(s[2..]);
        assert ([""] + g)[..|g|] == [""] + g[..|g| - 1] && ([""] + h)[..|h|] == [""] + h[..|h| - 1];
      } else {
        assert |p| == 1 ==> s[1] == x[0];
        HalvesStep(p);
        HalvesStep(s);
        LastHalfGrows(p[1..], x);
        assert s[1..] == p[1..] + x;
        GrownHalves(p[0], SplitOnDoubleColon(p), SplitOnDoubleColon(s),
                    SplitOnDoubleColon(p[1..]), SplitOnDoubleColon(s[1..]), x);
      }
    }
  }

  lemma GrownHalves(c: char, h: seq<string>, g: seq<string>, h': seq<string>, g': seq<string>, x: string)
    requires |h| == |h'| == |g| == |g'| > 0
    requires h[0] == [c] + h'[0] && h[1..] == h'[1..] && g[0] == [c] + g'[0] && g[1..] == g'[1..]
    requires g'[..|g'| - 1] == h'[..|h'| - 1] && g'[|g'| - 1] == h'[|h'| - 1] + x
    ensures g[..|g| - 1] == h[..|h| - 1] && g[|g| - 1] == h[|h| - 1] + x
  {
    var n := |h|;
    assert forall i :: 1 <= i < n ==> h[i] == h[1..][i - 1] && h'[i] == h'[1..][i - 1];
    assert forall i :: 1 <= i < n ==> g[i] == g[1..][i - 1] && g'[i] == g'[1..][i - 1];
    forall i | 0 <= i < n - 1 ensures g'[i] == h'[i] {
      assert g'[..n - 1][i] == h'[..n - 1][i];
    }
  }

  /** After a colon the last half is empty or ends with it. */
  lemma {:induction false} LastHalfEnds(p: string)
    requires p != "" && p[|p| - 1] == ':'
    ensures var h := SplitOnDoubleColon(p); var l := h[|h| - 1]; l == "" || l[|l| - 1] == ':'
  {
    hide SplitOnDoubleColon;
    NoHalves();
    if |p| >= 2 && p[0] == ':' && p[1] == ':' {
      HalvesGap(p);
      if p[2..] != "" { LastHalfEnds(p[2..]); }
    } else {
      HalvesStep(p);
      var h, rest := SplitOnDoubleColon(p), SplitOnDoubleColon(p[1..]);
      if |p| > 1 {
        LastHalfEnds(p[1..]);
        HalvesJoin(p[1..]);
        if |h| > 1 { assert h[|h| - 1] == h[1..][|h| - 2] && rest[|h| - 1] == rest[1..][|h| - 2]; }
      } else {
        assert p[1..] == "";
      }
    }
  }

  /** The groups of the last half of what stands before a quad. */
  function LeadingGroups(l: string): seq<string> {
    if l == "" then [] else SplitOn(l[..|l| - 1], ':')
  }

  lemma LeadingPieces(l: string, a: string, b: string)
    requires (l == "" || l[|l| - 1] == ':') && a != "" && Lacks(a, ':') && Lacks(b, ':')
    ensures Pieces(l + a + ":" + b) == LeadingGroups(l) + [a, b]
    ensures l == if LeadingGroups(l) == [] then "" else Join(LeadingGroups(l)) + ":"
  {
    hide Join;
    var t := l + a + ":" + b;
    assert t == (l + a) + [':'] + b;
    SplitLast(l + a, ':', b);
    if l == "" {
      assert l + a == a;
      SplitWhole(a, ':');
    } else {
      var l0 := l[..|l| - 1];
      assert l == l0 + [':'] && l + a == l0 + [':'] + a;
      SplitLast(l0, ':', a);
      PiecesJoin(l0);
      assert LeadingGroups(l) + [a] + [b] == LeadingGroups(l) + [a, b];
    }
  }

  lemma {:induction false} CutZoneKeeps(s: string)
    ensures |CutZone(s)| <= |s| && forall i :: 0 <= i < |CutZone(s)| ==> CutZone(s)[i] == s[i]
  {
    if s == "" || s[0] == '%' {
    } else {
      CutZoneKeeps(s[1..]);
    }
  }

  lemma {:induction false} TrimStartKeeps(s: string)
    ensures forall c :: c in TrimStart(s) ==> c in s
  {
    if s == "" || !IsSpace(s[0]) {
    } else {
      TrimStartKeeps(s[1..]);
    }
  }

  lemma {:induction false} TrimEndKeeps(s: string)
    ensures forall c :: c in TrimEnd(s) ==> c in s
  {
    if s == "" || !IsSpace(s[|s| - 1]) {
    } else {
      TrimEndKeeps(s[..|s| - 1]);
    }
  }

  lemma CleanedIsLower(ip: string)
    ensures Lower(Cleaned(ip)) == Cleaned(ip)
  {
    hide TrimStart, TrimEnd, CutZone;
    var l := Lower(ip);
    TrimStartKeeps(l);
    TrimEndKeeps(TrimStart(l));
    CutZoneKeeps(Trim(l));
    var s := Cleaned(ip);
    forall i | 0 <= i < |s| ensures LowerChar(s[i]) == s[i] {
      assert s[i] == Trim(l)[i] && Trim(l)[i] in l;
      var j :| 0 <= j < |l| && l[j] == s[i];
      assert l[j] == LowerChar(ip[j]);
    }
  }

  // ---- Line breaks before a quad ----

  lemma {:induction false} LastLineSplits(x: string)
    ensures var l := LastLine(x);
            && |l| <= |x| && x == x[..|x| - |l|] + l
            && (|l| == |x| || IsTerminator(x[|x| - |l| - 1]))
            && (x != "" && !IsTerminator(x[|x| - 1]) ==> l != "" && l[|l| - 1] == x[|x| - 1])
  {
    if x == "" || IsTerminator(x[|x| - 1]) {
    } else {
      LastLineSplits(x[..|x| - 1]);
    }
  }

  lemma {:induction false} LastLineAfter(junk: string, p: string)
    requires AddressChars(p) && (junk == "" || IsTerminator(junk[|junk| - 1]))
    ensures LastLine(junk + p) == p
  {
    if p == "" {
      assert junk + p == junk;
    } else {
      LastLineAfter(junk, p[..|p| - 1]);
      assert (junk + p)[..|junk + p| - 1] == junk + p[..|p| - 1];
    }
  }

  // ---- The spellings of what is cleaned ----

  lemma QuadPart(q: Quad)
    requires QuadOk(q)
    ensures QuadText(q) != "" && Lacks(QuadText(q), ':')
  {
    QuadChars(q);
  }

  lemma PartsWithQuad(ts: seq<string>, q: Option<Quad>)
    requires (forall t :: t in ts ==> GroupText(t)) && (q.Some? ==> QuadOk(q.value))
    ensures Parts(WithQuad(ts, q))
  {
    GroupsAreParts(ts);
    if q.Some? { QuadPart(q.value); }
  }

  /** With the same quad or none, and a double colon or none, the text determines the groups. */
  lemma SpellingsAreUnique(s: Spelling, t: Spelling)
    requires Readable(s) && Readable(t) && s.quad == t.quad && s.gap == t.gap && Text(s) == Text(t)
    ensures s.head == t.head && s.tail == t.tail
  {
    hide GroupText, Join, SplitOnDoubleColon, SplitOn, Pieces, QuadText, QuadOk;
    PartsWithQuad(s.head, None);
    PartsWithQuad(t.head, None);
    PartsWithQuad(s.head, s.quad);
    PartsWithQuad(t.head, t.quad);
    PartsWithQuad(s.tail, s.quad);
    PartsWithQuad(t.tail, t.quad);
    assert WithQuad(s.head, None) == s.head && WithQuad(t.head, None) == t.head;
    if s.gap {
      SameGap(s.head, WithQuad(s.tail, s.quad), t.head, WithQuad(t.tail, t.quad));
      SameTexts(s.tail, t.tail, s.quad);
    } else {
      SplitJoined(WithQuad(s.head, s.quad));
      SplitJoined(WithQuad(t.head, t.quad));
      SameTexts(s.head, t.head, s.quad);
    }
  }

  lemma SameTexts(a: seq<string>, b: seq<string>, q: Option<Quad>)
    ensures WithQuad(a, q) == WithQuad(b, q) ==> a == b
  {
    if WithQuad(a, q) == WithQuad(b, q) {
      var n := |WithQuad(a, q)| - QuadGroups(q) / 2;
      assert WithQuad(a, q)[..n] == a && WithQuad(b, q)[..n] == b;
    }
  }

  lemma SameGap(a: seq<string>, b: seq<string>, c: seq<string>, d: seq<string>)
    requires Parts(a) && Parts(b) && Parts(c) && Parts(d)
    requires Join(a) + "::" + Join(b) == Join(c) + "::" + Join(d)
    ensures a == c && b == d
  {
    hide Join, SplitOnDoubleColon, Pieces;
    SplitJoined(a);
    SplitJoined(b);
    SplitJoined(c);
    SplitJoined(d);
    JoinedColons(a);
    JoinedColons(b);
    JoinedColons(c);
    JoinedColons(d);
    SplitAtGap(Join(a), Join(b));
    SplitAtGap(Join(c), Join(d));
  }

  /** `s` is the text of a spelling, behind nothing or, if that ends in a quad, behind a line break. */
  ghost predicate Reads(s: string, junk: string, sp: Spelling) {
    && Readable(sp) && s == junk + Text(sp)
    && (junk == "" || (sp.quad.Some? && IsTerminator(junk[|junk| - 1])))
  }

  /** A cleaned string has no upper-case letters, so neither have the groups that it spells. */
  lemma CleanIsLower(ip: string, junk: string, sp: Spelling)
    requires Reads(Cleaned(ip), junk, sp)
    ensures LowerGroupTexts(sp.head) && LowerGroupTexts(sp.tail)
  {
    hide Text, Readable, LowerAll, Cleaned, Lower, GroupText, HextetText;
    LowerValue(sp);
    LowerText(sp);
    CleanedIsLower(ip);
    LowerConcat(junk, Text(sp));
    assert Lower(junk + Text(sp))[|junk|..] == Lower(Text(sp)) && (junk + Text(sp))[|junk|..] == Text(sp);
    SpellingsAreUnique(sp, LowerSpelling(sp));
  }

  // ---- The main result ----

  lemma ExpandsAfter(junk: string, sp: Spelling)
    requires Readable(sp) && sp.quad.Some? && (junk == "" || IsTerminator(junk[|junk| - 1]))
    ensures ExpandQuad(junk + Text(sp)) == Some(Text(Unquoted(sp)))
  {
    hide Readable, Text, Join, LastLine, ExpandQuad, DottedQuad, QuadText, BeforeQuad, QuadHextets, AddressChars,
         QuadOk;
    assert QuadOk(sp.quad.value) by { UnquotedIsReadable(sp); }
    var q, p := sp.quad.value, BeforeQuad(sp);
    BeforeQuadIsAddress(sp);
    TextOfQuad(sp);
    LastLineAfter(junk, p);
    ExpandsTail(junk + p, q);
    assert junk + Text(sp) == junk + p + QuadText(q);
  }

  lemma ReadsParse(ip: string, junk: string, sp: Spelling)
    requires Reads(Cleaned(ip), junk, sp)
    ensures ParseIpv6(ip) == Bytes(Value(sp))
  {
    hide Cleaned, Text, Value, Readable, ParseGroups, ExpandQuad, GroupText, HextetText;
    CleanIsLower(ip, junk, sp);
    if sp.quad.Some? {
      ExpandsAfter(junk, sp);
      UnquotedIsReadable(sp);
      UnquotedIsLower(sp);
      ParsesGroups(Unquoted(sp));
    } else {
      assert junk + Text(sp) == Text(sp);
      ExpandsQuad(sp);
      ParsesGroups(sp);
    }
  }

  lemma HextetsStand(q: Quad)
    requires QuadOk(q)
    ensures var hs := QuadHextets(q);
            && hs[0] != "" && hs[0][0] != ':' && Lacks(hs[0], ':') && Lacks(hs[1], ':')
            && NoDoubleColon(hs[0] + ":" + hs[1])
  {
    hide DecimalValue, ToHex, GroupText, HextetText;
    QuadHextetsAreGroups(q, []);
    var hs := QuadHextets(q);
    assert hs[0] in hs && hs[1] in hs;
    GroupIsPart(hs[0]);
    GroupIsPart(hs[1]);
  }

  /** A string with a dotted quad that parses once the quad is written as two hextets. */
  lemma ReadDottedGap(p: string, q: Quad) returns (sp: Spelling)
    requires QuadOk(q) && p != "" && p[|p| - 1] == ':' && |SplitOnDoubleColon(p)| == 2
    requires ParseGroups(p + QuadHextets(q)[0] + ":" + QuadHextets(q)[1]).Bytes?
    ensures Readable(sp) && sp.quad == Some(q) && Text(sp) == p + QuadText(q)
  {
    hide SplitOnDoubleColon, ParseGroups, Join, Pieces, GroupText, HextetText, QuadOk, QuadHextets, NoDoubleColon,
         LeadingGroups, QuadText;
    var hs, h := QuadHextets(q), SplitOnDoubleColon(p);
    var x := hs[0] + ":" + hs[1];
    assert p + hs[0] + ":" + hs[1] == p + x;
    HextetsStand(q);
    LastHalfGrows(p, x);
    LastHalfEnds(p);
    HalvesJoin(p);
    var g := SplitOnDoubleColon(p + x);
    ReadGap(p + x);
    PiecesJoinBack(h[0]);
    assert g[..1][0] == h[..1][0];
    LeadingPieces(h[1], hs[0], hs[1]);
    assert h[1] + x == h[1] + hs[0] + ":" + hs[1];
    var lead := LeadingGroups(h[1]);
    forall t | t in lead ensures GroupText(t) { assert t in lead + [hs[0], hs[1]]; }
    sp := Spelling(Pieces(h[0]), true, lead, Some(q));
    TextOfQuad(sp);
  }

  lemma ReadDottedFull(p: string, q: Quad) returns (sp: Spelling)
    requires QuadOk(q) && p != "" && p[|p| - 1] == ':' && |SplitOnDoubleColon(p)| == 1
    requires ParseGroups(p + QuadHextets(q)[0] + ":" + QuadHextets(q)[1]).Bytes?
    ensures Readable(sp) && sp.quad == Some(q) && Text(sp) == p + QuadText(q)
  {
    hide SplitOnDoubleColon, ParseGroups, Join, Pieces, GroupText, HextetText, QuadOk, QuadHextets, NoDoubleColon,
         LeadingGroups, QuadText;
    var hs, h := QuadHextets(q), SplitOnDoubleColon(p);
    var x := hs[0] + ":" + hs[1];
    assert p + hs[0] + ":" + hs[1] == p + x;
    HextetsStand(q);
    LastHalfGrows(p, x);
    LastHalfEnds(p);
    HalvesJoin(p);
    ReadFull(p + x);
    LeadingPieces(p, hs[0], hs[1]);
    assert p + x == p + hs[0] + ":" + hs[1];
    var lead := LeadingGroups(p);
    forall t | t in lead ensures GroupText(t) { assert t in lead + [hs[0], hs[1]]; }
    sp := Spelling(lead, false, [], Some(q));
    TextOfQuad(sp);
  }

  lemma ParsedHalves(s: string)
    requires ParseGroups(s).Bytes?
    ensures |SplitOnDoubleColon(s)| == 1 || |SplitOnDoubleColon(s)| == 2
  {
  }

  lemma ReadDotted(s: string) returns (junk: string, sp: Spelling)
    requires var n := LastColon(s); n > 0 && DottedQuad(s[n..])
    requires ExpandQuad(s).Some? && ParseGroups(ExpandQuad(s).value).Bytes?
    ensures Reads(s, junk, sp)
  {
    var n := LastColon(s);
    hide SplitOnDoubleColon, ParseGroups, Join, GroupText, HextetText, DottedQuad, QuadOctets, LastLine, LastColon,
         Text, DecimalValue, ToHex, QuadText;
    var q := ReadQuad(s[n..]);
    QuadSplits(q);
    LastLineSplits(s[..n]);
    var p := LastLine(s[..n]);
    junk := s[..n - |p|];
    var x := QuadHextets(q)[0] + ":" + QuadHextets(q)[1];
    var whole := p + QuadHextets(q)[0] + ":" + QuadHextets(q)[1];
    assert ExpandQuad(s) == Some(whole);
    assert whole == p + x;
    HextetsStand(q);
    LastHalfGrows(p, x);
    ParsedHalves(whole);
    if |SplitOnDoubleColon(p)| == 2 { sp := ReadDottedGap(p, q); } else { sp := ReadDottedFull(p, q); }
    assert s == s[..n] + s[n..] && s[..n] == junk + p;
    assert s == junk + (p + QuadText(q));
  }

  /**
   What is read, exactly. A string is taken for an address if and only if, cleaned, it spells that address, where the
   double colon may stand for no group at all and anything that ends in a line break may stand before a spelling that
   ends in a dotted quad.
   */
  lemma ReadExactly(ip: string, bytes: seq<int>)
    ensures ParseIpv6(ip) == Bytes(bytes) <==>
            exists junk, sp :: Reads(Cleaned(ip), junk, sp) && Value(sp) == bytes
  {
    hide Cleaned, Text, Value, Readable, ParseGroups, DottedQuad;
    var s := Cleaned(ip);
    if ParseIpv6(ip) == Bytes(bytes) {
      var n := LastColon(s);
      if n > 0 && DottedQuad(s[n..]) {
        var junk, sp := ReadDotted(s);
        ReadsParse(ip, junk, sp);
        assert Reads(s, junk, sp) && Value(sp) == bytes;
      } else {
        var sp := ReadGroups(s);
        PlainReads(s, sp);
        assert Reads(s, "", sp) && Value(sp) == bytes;
      }
    }
    forall junk, sp | Reads(s, junk, sp) && Value(sp) == bytes ensures ParseIpv6(ip) == Bytes(bytes) {
      ReadsParse(ip, junk, sp);
    }
  }

  lemma PlainReads(s: string, sp: Spelling)
    requires Readable(sp) && Text(sp) == s
    ensures Reads(s, "", sp)
  {
    assert "" + Text(sp) == Text(sp);
  }

  /**
   The exception, exactly: a string makes the parser throw if and only if its quad can be expanded, it has one double
   colon, and more than eight groups stand around it.
   */
  lemma ThrowsExactly(ip: string)
    ensures ParseIpv6(ip).Throws? <==>
              && ExpandQuad(Cleaned(ip)).Some?
              && var halves := SplitOnDoubleColon(ExpandQuad(Cleaned(ip)).value);
                 |halves| == 2 && |Pieces(halves[0])| + |Pieces(halves[1])| > 8
  {
    hide ExpandQuad, Cleaned, SplitOnDoubleColon, Pieces, Zeros;
    if ExpandQuad(Cleaned(ip)).Some? {
      var halves := SplitOnDoubleColon(ExpandQuad(Cleaned(ip)).value);
      var tail := if |halves| == 2 then Pieces(halves[1]) else [];
      NeverThrows(Pieces(halves[0]));
      var missing := 8 - |Pieces(halves[0])| - |tail|;
      NeverThrows(Pieces(halves[0]) + Zeros(if missing >= 0 then missing else 0) + tail);
    }
  }

  lemma {:induction false} NeverThrows(hs: seq<string>)
    ensures !HextetBytes(hs).Throws?
  {
    if hs == [] {
    } else {
      NeverThrows(hs[..|hs| - 1]);
    }
  }
}
