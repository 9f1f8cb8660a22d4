/**
 What a path says, read independently of how it is spelled: two paths have one normal form exactly when they say the
 same.
 */
module PathMeaning {
  import opened PathNormal

  /** A character that stands for itself, or an octet that only an escape can spell. */
  datatype Piece = Literal(c: char) | Reserved(octet: int)

  predicate IsSlash(x: Piece) {
    x == Literal('/')
  }

  predicate Proper(x: Piece) {
    match x
    case Literal(c) => c != '%'
    case Reserved(octet) => 0 <= octet < 256 && !Unreserved(octet as char)
  }

  function Read(s: string): seq<Piece> {
    if s == "" then []
    else if EscapeAt(s, 0) then
      var octet := Octet(s[1], s[2]);
      [if Unreserved(octet as char) then Literal(octet as char) else Reserved(octet)] + Read(s[3..])
    else [Literal(s[0])] + Read(s[1..])
  }

  function Squeeze(xs: seq<Piece>): (r: seq<Piece>)
    ensures r == [] <==> xs == []
    ensures xs != [] ==> r[0] == xs[0]
    ensures forall x :: x in r ==> x in xs
  {
    if |xs| < 2 then xs
    else if IsSlash(xs[0]) && IsSlash(xs[1]) then Squeeze(xs[1..])
    else [xs[0]] + Squeeze(xs[1..])
  }

  /** The pieces, with runs of separators read as one and a closing one ignored; nothing at all is the root. */
  function Meaning(p: string): seq<Piece> {
    var xs := Squeeze(Read(p));
    var ys := if |xs| > 1 && IsSlash(xs[|xs| - 1]) then xs[..|xs| - 1] else xs;
    if ys == [] then [Literal('/')] else ys
  }

  function Spell(x: Piece): (s: string)
    requires Proper(x)
    ensures |s| >= 1 && (s[0] == '/' <==> IsSlash(x)) && (s[|s| - 1] == '/' <==> IsSlash(x))
    ensures IsSlash(x) ==> |s| == 1
  {
    match x
    case Literal(c) => [c]
    case Reserved(octet) => Escape(octet)
  }

  function Write(xs: seq<Piece>): string
    requires forall x :: x in xs ==> Proper(x)
  {
    if xs == [] then "" else Spell(xs[0]) + Write(xs[1..])
  }

  lemma {:induction false} ReadIsProper(s: string)
    requires WellFormed(s)
    ensures forall x :: x in Read(s) ==> Proper(x)
  {
    hide WellFormed;
    if s == "" {
    } else {
      WellFormedTail(s);
      if EscapeAt(s, 0) {
        ReadIsProper(s[3..]);
        assert Unreserved(Octet(s[1], s[2]) as char) ==> Octet(s[1], s[2]) as char != '%';
      } else {
        ReadIsProper(s[1..]);
      }
    }
  }

  lemma {:induction false} DecodeWrites(s: string)
    requires WellFormed(s) && forall x :: x in Read(s) ==> Proper(x)
    ensures Decode(s) == Write(Read(s))
  {
    hide WellFormed, Octet;
    if s == "" {
    } else {
      WellFormedTail(s);
      var rest := if EscapeAt(s, 0) then s[3..] else s[1..];
      ReadIsProper(rest);
      DecodeWrites(rest);
      assert Read(s)[1..] == Read(rest);
    }
  }

  lemma {:induction false} ReadsBack(xs: seq<Piece>)
    requires forall x :: x in xs ==> Proper(x)
    ensures Read(Write(xs)) == xs
  {
    if xs == [] {
    } else {
      ReadsBack(xs[1..]);
      var s, rest := Write(xs), Write(xs[1..]);
      assert Proper(xs[0]) && s == Spell(xs[0]) + rest;
      match xs[0]
      case Literal(c) =>
        assert s[0] == c && s[1..] == rest;
      case Reserved(octet) =>
        assert s[..3] == Escape(octet) && s[3..] == rest;
        assert s[1] == Escape(octet)[1] && s[2] == Escape(octet)[2];
    }
  }

  lemma {:induction false} CollapseWrites(xs: seq<Piece>)
    requires forall x :: x in xs ==> Proper(x)
    ensures Collapse(Write(xs)) == Write(Squeeze(xs))
  {
    hide Proper, Escape, EscapeAt;
    if xs == [] {
    } else if |xs| == 1 {
      assert Write(xs[1..]) == "";
      CollapseOne(xs[0], "");
    } else {
      CollapseWrites(xs[1..]);
      var rest := Write(xs[1..]);
      assert rest[0] == Spell(xs[1])[0] by { assert rest == Spell(xs[1]) + Write(xs[1..][1..]); }
      CollapseOne(xs[0], rest);
      if !(IsSlash(xs[0]) && IsSlash(xs[1])) {
        assert ([xs[0]] + Squeeze(xs[1..]))[1..] == Squeeze(xs[1..]);
      }
    }
  }

  lemma CollapseOne(x: Piece, rest: string)
    requires Proper(x)
    ensures Collapse(Spell(x) + rest) ==
            if IsSlash(x) && rest != "" && rest[0] == '/' then Collapse(rest) else Spell(x) + Collapse(rest)
  {
    match x
    case Literal(c) =>
      assert (Spell(x) + rest)[1..] == rest;
      if rest == "" { assert Spell(x) + rest == Spell(x); }
    case Reserved(octet) =>
      var s := Spell(x) + rest;
      assert EscapeAt(s, 0) && s[3..] == rest;
      CollapseEscape(s);
      assert ['%', s[1], s[2]] == Spell(x);
  }

  lemma {:induction false} WriteEnds(xs: seq<Piece>)
    requires xs != [] && forall x :: x in xs ==> Proper(x)
    ensures var s := Write(xs);
            && s != "" && (s[|s| - 1] == '/' <==> IsSlash(xs[|xs| - 1]))
            && (IsSlash(xs[|xs| - 1]) ==> Write(xs[..|xs| - 1]) == s[..|s| - 1])
            && (|s| == 1 ==> |xs| == 1) && (|xs| == 1 && IsSlash(xs[0]) ==> |s| == 1)
  {
    hide Proper;
    if |xs| > 1 {
      WriteEnds(xs[1..]);
      assert xs[..|xs| - 1][1..] == xs[1..][..|xs| - 2];
    } else {
      assert Write(xs[1..]) == "";
    }
  }

  lemma NormalFormWrites(p: string)
    requires WellFormed(p)
    ensures forall x :: x in Meaning(p) ==> Proper(x)
    ensures NormalizePath(p) == Write(Meaning(p))
  {
    hide WellFormed, Proper;
    ReadIsProper(p);
    DecodeWrites(p);
    CollapseWrites(Read(p));
    var xs := Squeeze(Read(p));
    assert Collapse(Decode(p)) == Write(xs);
    assert Proper(Literal('/')) && Write([Literal('/')]) == "/" by { RootIsProper(); }
    if xs != [] {
      WriteEnds(xs);
    }
  }

  lemma RootIsProper()
    ensures Proper(Literal('/')) && Write([Literal('/')]) == "/"
  {
    assert Write([Literal('/')][1..]) == "";
  }

  /**
   Neither too much nor too little is merged: two well-formed paths have the same normal form if and only if they say
   the same. In particular an escaped slash is never a separator and letter case is kept.
   */
  lemma SameFormExactly(p: string, q: string)
    requires WellFormed(p) && WellFormed(q)
    ensures NormalizePath(p) == NormalizePath(q) <==> Meaning(p) == Meaning(q)
  {
    NormalFormWrites(p);
    NormalFormWrites(q);
    ReadsBack(Meaning(p));
    ReadsBack(Meaning(q));
  }
}
