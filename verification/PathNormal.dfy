/** The normal form of a URL path, by which two spellings of one resource become one key (RFC 3986 section 6.2.2). */
module PathNormal {

  predicate IsDigit(c: char) { '0' <= c <= '9' }

  predicate IsUpperHex(c: char) { IsDigit(c) || 'A' <= c <= 'F' }

  predicate IsHex(c: char) { IsUpperHex(c) || 'a' <= c <= 'f' }

  function HexValue(c: char): (v: int)
    requires IsHex(c)
    ensures 0 <= v < 16
  {
    if IsDigit(c) then c as int - '0' as int
    else if c <= 'F' then c as int - 'A' as int + 10
    else c as int - 'a' as int + 10
  }

  function UpperHex(v: int): (c: char)
    requires 0 <= v < 16
    ensures IsUpperHex(c) && HexValue(c) == v
  {
    if v < 10 then ('0' as int + v) as char else ('A' as int + v - 10) as char
  }

  function Octet(a: char, b: char): (v: int)
    requires IsHex(a) && IsHex(b)
    ensures 0 <= v < 256
  {
    16 * HexValue(a) + HexValue(b)
  }

  predicate Unreserved(c: char) {
    IsDigit(c) || 'A' <= c <= 'Z' || 'a' <= c <= 'z' || c == '-' || c == '.' || c == '_' || c == '~'
  }

  const UPPER: string := "ABCDEFGHIJKLMNOPQRSTUVWXYZ"
  const LOWER: string := "abcdefghijklmnopqrstuvwxyz"

  lemma UpperExactly(c: char)
    ensures c in UPPER <==> 'A' <= c <= 'Z'
  {
    if 'A' <= c <= 'Z' { assert UPPER[c as int - 'A' as int] == c; }
  }

  lemma LowerExactly(c: char)
    ensures c in LOWER <==> 'a' <= c <= 'z'
  {
    if 'a' <= c <= 'z' { assert LOWER[c as int - 'a' as int] == c; }
  }

  /** The characters that RFC 3986 section 2.3 leaves unreserved: letters, digits and four marks. */
  lemma UnreservedExactly(c: char)
    ensures Unreserved(c) <==> c in UPPER || c in LOWER || c in "0123456789" || c in "-._~"
  {
    UpperExactly(c);
    LowerExactly(c);
    hide UPPER, LOWER;
    if '0' <= c <= '9' { assert "0123456789"[c as int - '0' as int] == c; }
  }

  /** The hexadecimal digits, in either case, in the order of their values. */
  lemma HexDigitsExactly(c: char)
    requires IsHex(c)
    ensures "0123456789ABCDEF"[HexValue(c)] == c || "0123456789abcdef"[HexValue(c)] == c
  {
  }

  lemma HexExactly(c: char)
    ensures IsHex(c) <==> c in "0123456789ABCDEFabcdef"
  {
    if IsHex(c) {
      HexDigitsExactly(c);
      var digits := "0123456789ABCDEFabcdef";
      assert digits[HexValue(c)] == c || (HexValue(c) >= 10 && digits[HexValue(c) + 6] == c);
    }
  }

  predicate EscapeAt(s: string, i: int) {
    0 <= i && i + 2 < |s| && s[i] == '%' && IsHex(s[i + 1]) && IsHex(s[i + 2])
  }

  function Escape(octet: int): (s: string)
    requires 0 <= octet < 256
    ensures |s| == 3 && EscapeAt(s, 0) && IsUpperHex(s[1]) && IsUpperHex(s[2]) && Octet(s[1], s[2]) == octet
  {
    ['%', UpperHex(octet / 16), UpperHex(octet % 16)]
  }

  /** An escape's literal character if that is unreserved, else the escape in upper case. */
  function Decoded(octet: int): string
    requires 0 <= octet < 256
  {
    if Unreserved(octet as char) then [octet as char] else Escape(octet)
  }

  function Decode(s: string): string {
    if s == "" then ""
    else if EscapeAt(s, 0) then Decoded(Octet(s[1], s[2])) + Decode(s[3..])
    else [s[0]] + Decode(s[1..])
  }

  /** Every run of slashes becomes one. */
  function Collapse(s: string): string {
    if |s| < 2 then s
    else if s[0] == '/' && s[1] == '/' then Collapse(s[1..])
    else [s[0]] + Collapse(s[1..])
  }

  function StripSlash(s: string): string {
    if |s| > 1 && s[|s| - 1] == '/' then s[..|s| - 1] else s
  }

  function NormalizePath(p: string): string {
    var out := StripSlash(Collapse(Decode(p)));
    if out == "" then "/" else out
  }

  // ---- What a normal path is ----

  predicate NormalPair(a: char, b: char) {
    IsUpperHex(a) && IsUpperHex(b) && !Unreserved(Octet(a, b) as char)
  }

  predicate NoDoubleSlash(s: string) {
    forall i :: 0 <= i && i + 1 < |s| ==> s[i] != '/' || s[i + 1] != '/'
  }

  predicate TidySlashes(s: string) {
    s != "" && NoDoubleSlash(s) && (|s| > 1 ==> s[|s| - 1] != '/')
  }

  /** Every percent sign starts an upper-case escape of an octet that is not unreserved. */
  predicate OnlyNormalEscapes(s: string) {
    forall i :: 0 <= i < |s| && s[i] == '%' ==> EscapeAt(s, i) && NormalPair(s[i + 1], s[i + 2])
  }

  /** Every percent sign starts an escape. */
  predicate WellFormed(s: string) {
    forall i :: 0 <= i < |s| && s[i] == '%' ==> EscapeAt(s, i)
  }

  /** Every escape is normal; a percent sign that starts none is left alone. */
  predicate Settled(s: string) {
    if s == "" then true
    else if EscapeAt(s, 0) then NormalPair(s[1], s[2]) && Settled(s[3..])
    else Settled(s[1..])
  }

  /** A percent sign that starts no escape, followed by what decodes to two hex digits that make one to be changed. */
  predicate HasForgedEscape(s: string) {
    if s == "" then false
    else if EscapeAt(s, 0) then HasForgedEscape(s[3..])
    else
      || HasForgedEscape(s[1..])
      || (s[0] == '%'
          && var d := Decode(s[1..]);
          |d| >= 2 && IsHex(d[0]) && IsHex(d[1]) && !NormalPair(d[0], d[1]))
  }

  // ---- Decoding ----

  lemma NormalPairIsEscape(a: char, b: char)
    requires NormalPair(a, b)
    ensures Decoded(Octet(a, b)) == ['%', a, b]
  {
    UpperHexOfValue(a);
    UpperHexOfValue(b);
    Halves(HexValue(a), HexValue(b));
  }

  lemma UpperHexOfValue(c: char)
    requires IsUpperHex(c)
    ensures UpperHex(HexValue(c)) == c
  {
  }

  lemma Halves(x: int, y: int)
    requires 0 <= y < 16
    ensures (16 * x + y) / 16 == x && (16 * x + y) % 16 == y
  {
  }

  /** Decoding changes nothing exactly when there is nothing to change. */
  lemma {:induction false} DecodeFixesExactly(s: string)
    ensures Decode(s) == s <==> Settled(s)
  {
    if s == "" {
    } else {
      if EscapeAt(s, 0) {
        DecodeFixesExactly(s[3..]);
        assert s == ['%', s[1], s[2]] + s[3..];
        if NormalPair(s[1], s[2]) {
          NormalPairIsEscape(s[1], s[2]);
        } else {
          DecodeNeverGrows(s[3..]);
          var d := Decoded(Octet(s[1], s[2]));
          assert d != ['%', s[1], s[2]] by {
            if |d| == 3 { assert d[1] != s[1] || d[2] != s[2]; }
          }
          if |d| == 3 { assert (d + Decode(s[3..]))[..3] == d && s[..3] == ['%', s[1], s[2]]; }
        }
      } else {
        DecodeFixesExactly(s[1..]);
        assert s == [s[0]] + s[1..];
        assert ([s[0]] + Decode(s[1..]))[1..] == Decode(s[1..]);
      }
    }
  }

  lemma {:induction false} DecodeNeverGrows(s: string)
    ensures |Decode(s)| <= |s|
  {
    if s == "" {
    } else {
      if EscapeAt(s, 0) { DecodeNeverGrows(s[3..]); } else { DecodeNeverGrows(s[1..]); }
    }
  }

  lemma SettledAfter(c: char, t: string)
    ensures c != '%' ==> Settled([c] + t) == Settled(t)
    ensures c == '%' && !EscapeAt([c] + t, 0) ==> Settled([c] + t) == Settled(t)
  {
    assert ([c] + t)[1..] == t;
  }

  lemma SettledAfterEscape(a: char, b: char, t: string)
    requires IsHex(a) && IsHex(b)
    ensures Settled(['%', a, b] + t) == (NormalPair(a, b) && Settled(t))
  {
    assert (['%', a, b] + t)[3..] == t;
  }

  /** Decoding leaves only normal escapes exactly when no escape is forged by it. */
  lemma {:induction false} DecodeSettlesExactly(s: string)
    ensures Settled(Decode(s)) <==> !HasForgedEscape(s)
  {
    if s == "" {
    } else {
      if EscapeAt(s, 0) {
        DecodeSettlesExactly(s[3..]);
        var octet := Octet(s[1], s[2]);
        if Unreserved(octet as char) {
          SettledAfter(octet as char, Decode(s[3..]));
        } else {
          var e := Escape(octet);
          SettledAfterEscape(e[1], e[2], Decode(s[3..]));
          assert e == ['%', e[1], e[2]];
        }
      } else {
        DecodeSettlesExactly(s[1..]);
        var d := Decode(s[1..]);
        SettledAfter(s[0], d);
        if s[0] == '%' && EscapeAt(['%'] + d, 0) {
          assert ['%'] + d == ['%', d[0], d[1]] + d[2..];
          SettledAfterEscape(d[0], d[1], d[2..]);
          SettledAfter(d[0], d[1..]);
          SettledAfter(d[1], d[2..]);
          assert d == [d[0]] + d[1..] && d[1..] == [d[1]] + d[2..];
        }
      }
    }
  }

  // ---- Slashes ----

  lemma {:induction false} CollapseTidies(s: string)
    ensures NoDoubleSlash(Collapse(s)) && (Collapse(s) == "" <==> s == "")
    ensures s != "" ==> Collapse(s)[0] == s[0]
    ensures Settled(Collapse(s)) == Settled(s)
  {
    if |s| < 2 {
    } else {
      CollapseTidies(s[1..]);
      if s[0] == '/' && s[1] == '/' {
        assert s == ['/'] + s[1..];
        SettledAfter('/', s[1..]);
      } else {
        CollapseSettled(s);
      }
    }
  }

  lemma {:induction false} CollapseSettled(s: string)
    ensures Settled(Collapse(s)) == Settled(s)
  {
    if |s| < 2 {
    } else {
      if EscapeAt(s, 0) {
        CollapseSettled(s[3..]);
        CollapseEscape(s);
        SettledAfterEscape(s[1], s[2], Collapse(s[3..]));
      } else {
        CollapseSettled(s[1..]);
        assert s == [s[0]] + s[1..];
        if !(s[0] == '/' && s[1] == '/') {
          SettledAfter(s[0], Collapse(s[1..]));
          if s[0] == '%' { CollapseMakesNoEscape(s); }
        }
      }
    }
  }

  lemma CollapseSkips(c: char, t: string)
    requires c != '/'
    ensures Collapse([c] + t) == [c] + Collapse(t)
  {
    assert ([c] + t)[1..] == t;
  }

  lemma CollapseEscape(s: string)
    requires EscapeAt(s, 0)
    ensures Collapse(s) == ['%', s[1], s[2]] + Collapse(s[3..])
  {
    CollapseSkips(s[1], s[2..]);
    CollapseSkips(s[2], s[3..]);
    assert s[1..] == [s[1]] + s[2..] && s[2..] == [s[2]] + s[3..];
  }

  lemma CollapseMakesNoEscape(s: string)
    requires |s| >= 2 && s[0] == '%' && !EscapeAt(s, 0)
    ensures !EscapeAt([s[0]] + Collapse(s[1..]), 0)
  {
    var t := Collapse(s[1..]);
    if s[1] != '/' && |s| >= 3 {
      assert s[1..] == [s[1]] + s[2..];
      CollapseSkips(s[1], s[2..]);
      CollapseHead(s[2..]);
    } else {
      CollapseHead(s[1..]);
    }
  }

  lemma {:induction false} CollapseHead(s: string)
    ensures Collapse(s) == "" <==> s == ""
    ensures s != "" ==> Collapse(s)[0] == s[0]
  {
    if |s| < 2 || s[0] != '/' || s[1] != '/' {
    } else {
      CollapseHead(s[1..]);
    }
  }

  lemma {:induction false} CollapseFixes(s: string)
    requires NoDoubleSlash(s)
    ensures Collapse(s) == s
  {
    if |s| < 2 {
    } else {
      CollapseFixes(s[1..]);
    }
  }

  lemma {:induction false} SettledBeforeSlash(s: string)
    ensures Settled(s + "/") == Settled(s)
  {
    if s == "" {
    } else {
      var t := s + "/";
      if EscapeAt(s, 0) {
        SettledBeforeSlash(s[3..]);
        assert t[3..] == s[3..] + "/";
      } else {
        SettledBeforeSlash(s[1..]);
        assert t[1..] == s[1..] + "/";
      }
    }
  }

  lemma RootIsSettled()
    ensures Settled("/") && Settled("")
  {
    assert "/"[1..] == "";
  }

  // ---- The main results ----

  /** For every path: the result is not empty, has no double slash, and no trailing one except as the root. */
  lemma ResultIsTidy(p: string)
    ensures TidySlashes(NormalizePath(p))
    ensures Settled(NormalizePath(p)) <==> !HasForgedEscape(p)
  {
    hide Decode, Collapse, HasForgedEscape, Settled;
    var d := Decode(p);
    var c := Collapse(d);
    CollapseTidies(d);
    DecodeSettlesExactly(p);
    if |c| > 1 && c[|c| - 1] == '/' {
      assert c == c[..|c| - 1] + "/";
      SettledBeforeSlash(c[..|c| - 1]);
      assert c[|c| - 2] != '/';
    }
    RootIsSettled();
  }

  /** Normalising twice is normalising once, if and only if no escape is forged out of a stray percent sign. */
  lemma IdempotentExactly(p: string)
    ensures NormalizePath(NormalizePath(p)) == NormalizePath(p) <==> !HasForgedEscape(p)
  {
    var n := NormalizePath(p);
    ResultIsTidy(p);
    DecodeFixesExactly(n);
    if Settled(n) {
      CollapseFixes(n);
    } else {
      ResultIsTidy(n);
      NotFixed(n);
    }
  }

  /**
   Slashes aside, an escape that decodes is shorter, and one in lower case differs: the change is still seen at the
   end.
   */
  lemma NotFixed(n: string)
    requires TidySlashes(n) && !Settled(n)
    ensures NormalizePath(n) != n
  {
    if NormalizePath(n) == n {
      CollapseNeverGrows(Decode(n));
      DecodeNeverGrows(n);
      var c := Collapse(Decode(n));
      if n != "/" {
        SameLengthIsSame(Decode(n));
        DecodeFixesExactly(n);
      }
    }
  }

  lemma {:induction false} CollapseNeverGrows(s: string)
    ensures |Collapse(s)| <= |s|
  {
    if |s| < 2 {
    } else {
      CollapseNeverGrows(s[1..]);
    }
  }

  lemma {:induction false} SameLengthIsSame(s: string)
    ensures |Collapse(s)| == |s| ==> Collapse(s) == s
  {
    if |s| < 2 {
    } else {
      SameLengthIsSame(s[1..]);
      CollapseNeverGrows(s[1..]);
    }
  }

  // ---- Well-formed paths ----

  lemma WellFormedTail(s: string)
    requires WellFormed(s) && s != ""
    ensures if EscapeAt(s, 0) then WellFormed(s[3..]) else s[0] != '%' && WellFormed(s[1..])
  {
    var n := if EscapeAt(s, 0) then 3 else 1;
    forall i | 0 <= i < |s| - n && s[n..][i] == '%' ensures EscapeAt(s[n..], i) {
      assert EscapeAt(s, i + n);
    }
  }

  lemma {:induction false} WellFormedForgesNothing(s: string)
    requires WellFormed(s)
    ensures !HasForgedEscape(s)
  {
    if s == "" {
    } else {
      WellFormedTail(s);
      WellFormedForgesNothing(if EscapeAt(s, 0) then s[3..] else s[1..]);
    }
  }

  lemma {:induction false} SettledEscapes(s: string)
    requires Settled(s) && WellFormed(s)
    ensures OnlyNormalEscapes(s)
  {
    if s == "" {
    } else {
      WellFormedTail(s);
      var n := if EscapeAt(s, 0) then 3 else 1;
      SettledEscapes(s[n..]);
      forall i | 0 <= i < |s| && s[i] == '%' ensures EscapeAt(s, i) && NormalPair(s[i + 1], s[i + 2]) {
        if i >= n { assert s[n..][i - n] == '%'; }
      }
    }
  }

  lemma WellFormedCons(c: char, t: string)
    requires WellFormed(t) && c != '%'
    ensures WellFormed([c] + t)
  {
    forall i | 0 <= i < |t| + 1 && ([c] + t)[i] == '%' ensures EscapeAt([c] + t, i) {
      assert EscapeAt(t, i - 1);
    }
  }

  lemma WellFormedEscape(a: char, b: char, t: string)
    requires WellFormed(t) && IsHex(a) && IsHex(b)
    ensures WellFormed(['%', a, b] + t)
  {
    var s := ['%', a, b] + t;
    forall i | 0 <= i < |s| && s[i] == '%' ensures EscapeAt(s, i) {
      if i > 0 { assert EscapeAt(t, i - 3); }
    }
  }

  lemma {:induction false} DecodeKeepsWellFormed(s: string)
    requires WellFormed(s)
    ensures WellFormed(Decode(s))
  {
    if s == "" {
    } else {
      WellFormedTail(s);
      if EscapeAt(s, 0) {
        DecodeKeepsWellFormed(s[3..]);
        var d := Decoded(Octet(s[1], s[2]));
        if |d| == 3 {
          assert d == ['%', d[1], d[2]];
          WellFormedEscape(d[1], d[2], Decode(s[3..]));
        } else {
          WellFormedCons(d[0], Decode(s[3..]));
        }
      } else {
        DecodeKeepsWellFormed(s[1..]);
        WellFormedCons(s[0], Decode(s[1..]));
      }
    }
  }

  lemma {:induction false} CollapseKeepsWellFormed(s: string)
    requires WellFormed(s)
    ensures WellFormed(Collapse(s))
  {
    hide WellFormed;
    if |s| < 2 {
    } else {
      WellFormedTail(s);
      if EscapeAt(s, 0) {
        CollapseKeepsWellFormed(s[3..]);
        CollapseEscape(s);
        WellFormedEscape(s[1], s[2], Collapse(s[3..]));
      } else {
        CollapseKeepsWellFormed(s[1..]);
        if !(s[0] == '/' && s[1] == '/') { WellFormedCons(s[0], Collapse(s[1..])); }
      }
    }
  }

  /**
   The normal form of RFC 3986. For a path in which every percent sign starts an escape, normalising is idempotent, and
   the result has tidy slashes and no escapes but upper-case ones of octets that are not unreserved.
   */
  lemma WellFormedIsNormalised(p: string)
    requires WellFormed(p)
    ensures NormalizePath(NormalizePath(p)) == NormalizePath(p)
    ensures TidySlashes(NormalizePath(p)) && OnlyNormalEscapes(NormalizePath(p)) && WellFormed(NormalizePath(p))
  {
    WellFormedForgesNothing(p);
    IdempotentExactly(p);
    ResultIsTidy(p);
    DecodeKeepsWellFormed(p);
    CollapseKeepsWellFormed(Decode(p));
    var c := Collapse(Decode(p));
    assert WellFormed(StripSlash(c)) by {
      forall i | 0 <= i < |StripSlash(c)| && StripSlash(c)[i] == '%' ensures EscapeAt(StripSlash(c), i) {
        assert EscapeAt(c, i);
      }
    }
    SettledEscapes(NormalizePath(p));
  }

  lemma DecodeEscape(s: string)
    requires EscapeAt(s, 0)
    ensures Decode(s) == Decoded(Octet(s[1], s[2])) + Decode(s[3..])
  {
  }

  lemma DecodePlain(s: string)
    requires s != "" && !EscapeAt(s, 0)
    ensures Decode(s) == [s[0]] + Decode(s[1..])
  {
  }

  lemma NoEscapeYet(a: string, b: string)
    requires WellFormed(a) && a != "" && !EscapeAt(a, 0)
    ensures !EscapeAt(a + b, 0)
  {
    assert a[0] != '%';
  }

  lemma {:induction false} DecodeSplits(a: string, b: string)
    requires WellFormed(a)
    ensures Decode(a + b) == Decode(a) + Decode(b)
  {
    hide WellFormed, Decoded, Octet, IsHex, Decode;
    if a == "" {
      assert a + b == b;
      assert Decode("") == "" by { DecodeNeverGrows(""); }
    } else {
      WellFormedTail(a);
      if EscapeAt(a, 0) {
        DecodeSplits(a[3..], b);
        assert (a + b)[3..] == a[3..] + b;
        DecodeEscape(a);
        DecodeEscape(a + b);
      } else {
        DecodeSplits(a[1..], b);
        assert (a + b)[1..] == a[1..] + b;
        NoEscapeYet(a, b);
        DecodePlain(a);
        DecodePlain(a + b);
      }
    }
  }

  /** Spelling an unreserved character as an escape, with hex digits of either case, changes nothing. */
  lemma EscapingChangesNothing(a: string, c: char, b: string, x: char, y: char)
    requires WellFormed(a) && Unreserved(c)
    requires IsHex(x) && IsHex(y) && Octet(x, y) == c as int
    ensures NormalizePath(a + ['%', x, y] + b) == NormalizePath(a + [c] + b)
  {
    assert a + ['%', x, y] + b == a + (['%', x, y] + b) && a + [c] + b == a + ([c] + b);
    DecodeSplits(a, ['%', x, y] + b);
    DecodeSplits(a, [c] + b);
    assert (['%', x, y] + b)[3..] == b && ([c] + b)[1..] == b;
  }

  /** A stray percent sign can swallow decoded digits: this path changes again when normalised a second time. */
  lemma StrayPercentForges()
    ensures NormalizePath("/%%34%31") == "/%41" && NormalizePath("/%41") == "/A"
    ensures HasForgedEscape("/%%34%31")
  {
    StrayPercentDecodes();
    assert "/%41"[1..] == "%41" && "%41"[1..] == "41" && "41"[1..] == "1";
    assert Collapse("41") == "41" && Collapse("%41") == "%41" && Collapse("/%41") == "/%41" && Collapse("/A") == "/A";
    assert HasForgedEscape("%%34%31");
  }

  lemma StrayPercentDecodes()
    ensures Decode("%34%31") == "41" && Decode("/%%34%31") == "/%41" && Decode("/%41") == "/A"
  {
    assert "/%%34%31"[1..] == "%%34%31" && "%%34%31"[1..] == "%34%31" && "%34%31"[3..] == "%31" && "%31"[3..] == "";
    assert Decode("%31") == "1" && Decode("%34%31") == "41" && Decode("%%34%31") == "%41";
    assert "/%41"[1..] == "%41" && "%41"[3..] == "" && Decode("%41") == "A";
  }
}
