/** The keys of the catalog: a canonical URL, or a canonical URL and a tool name with a separator between them. */
module ResourceKeys {
  import opened Basics
  import opened PathNormal

  const SEPARATOR: char := '\U{1F}'
  const MAX_TOOL_NAME_LEN: nat := 256

  /** What the URL parser makes of a string it accepts. */
  datatype Url = Url(origin: string, pathname: string)
  type Parser = string -> Option<Url>

  function Base(parse: Parser, raw: string): string {
    match parse(raw)
    case Some(u) => u.origin + NormalizePath(u.pathname)
    case None => raw
  }

  function Strip(s: string): (r: string)
    ensures SEPARATOR !in r
  {
    if s == "" then ""
    else if s[0] == SEPARATOR then Strip(s[1..])
    else [s[0]] + Strip(s[1..])
  }

  /** The part before the first separator, and the rest if there is one. */
  function Split(key: string): (string, Option<string>) {
    if key == "" then ("", None)
    else if key[0] == SEPARATOR then ("", Some(key[1..]))
    else
      var (url, tool) := Split(key[1..]);
      ([key[0]] + url, tool)
  }

  function WithTool(base: string, tool: Option<string>): Option<string> {
    match tool
    case None => Some(base)
    case Some(t) =>
      var clean := Strip(t);
      if |clean| == 0 || |clean| > MAX_TOOL_NAME_LEN then None else Some(base + [SEPARATOR] + clean)
  }

  /** None when a tool name is given and cannot be used. A compound key handed in as a URL is first split. */
  function CanonicalResourceKey(parse: Parser, raw: string, tool: Option<string>): Option<string> {
    if tool.None? && SEPARATOR in raw then
      var (url, t) := Split(raw);
      WithTool(Base(parse, url), t)
    else WithTool(Base(parse, raw), tool)
  }

  /** A stored key at load: split, derived again, and kept as it is when that gives nothing. */
  function Rederive(parse: Parser, stored: string): string {
    var (url, tool) := Split(stored);
    var key := CanonicalResourceKey(parse, url, tool);
    if key.Some? then key.value else stored
  }

  function RederiveTimes(parse: Parser, stored: string, n: nat): string {
    if n == 0 then stored else Rederive(parse, RederiveTimes(parse, stored, n - 1))
  }

  // ---- Splitting ----

  lemma {:induction false} SplitPlain(s: string)
    ensures Split(s) == (s, None) <==> SEPARATOR !in s
    ensures SEPARATOR in s ==> Split(s).1.Some?
  {
    if s == "" {
    } else {
      SplitPlain(s[1..]);
      assert s == [s[0]] + s[1..];
    }
  }

  lemma {:induction false} SplitCompound(base: string, tool: string)
    ensures SEPARATOR !in base ==> Split(base + [SEPARATOR] + tool) == (base, Some(tool))
    ensures SEPARATOR in base ==> |Split(base + [SEPARATOR] + tool).0| < |base|
  {
    var key := base + [SEPARATOR] + tool;
    if base == "" {
      assert key[1..] == tool;
    } else if base[0] == SEPARATOR {
    } else {
      SplitCompound(base[1..], tool);
      assert base == [base[0]] + base[1..];
      assert key[1..] == base[1..] + [SEPARATOR] + tool;
    }
  }

  lemma {:induction false} StripKeepsPlain(s: string)
    requires SEPARATOR !in s
    ensures Strip(s) == s
  {
    if s == "" {
    } else {
      StripKeepsPlain(s[1..]);
    }
  }

  lemma {:induction false} SplitHasNoSeparator(s: string)
    ensures SEPARATOR !in Split(s).0
  {
    if s == "" {
    } else {
      SplitHasNoSeparator(s[1..]);
    }
  }

  // ---- The main results ----

  /** Splitting gives back the parts a compound key was built from, if and only if the URL part holds no separator. */
  lemma SplitInvertsExactly(parse: Parser, raw: string, tool: string)
    requires CanonicalResourceKey(parse, raw, Some(tool)).Some?
    ensures Split(CanonicalResourceKey(parse, raw, Some(tool)).value) == (Base(parse, raw), Some(Strip(tool)))
            <==> SEPARATOR !in Base(parse, raw)
  {
    SplitCompound(Base(parse, raw), Strip(tool));
  }

  /**
   Two usable identities have one key exactly when URL and stripped tool name agree; a plain URL never meets a tool's
   key.
   */
  lemma EqualKeysExactly(parse: Parser, a: string, s: Option<string>, b: string, t: Option<string>)
    requires CanonicalResourceKey(parse, a, s).Some? && CanonicalResourceKey(parse, b, t).Some?
    requires SEPARATOR !in Base(parse, a) && SEPARATOR !in Base(parse, b)
    requires (s.None? ==> SEPARATOR !in a) && (t.None? ==> SEPARATOR !in b)
    ensures CanonicalResourceKey(parse, a, s) == CanonicalResourceKey(parse, b, t)
            <==> Base(parse, a) == Base(parse, b)
                 && (if s.Some? && t.Some? then Strip(s.value) == Strip(t.value) else s == t)
  {
    SplitPlain(Base(parse, a));
    SplitPlain(Base(parse, b));
    if s.Some? { SplitCompound(Base(parse, a), Strip(s.value)); }
    if t.Some? { SplitCompound(Base(parse, b), Strip(t.value)); }
  }

  /** The parser leaves an origin with a normal path as it finds it. */
  ghost predicate Reparses(parse: Parser) {
    forall raw :: parse(raw).Some? ==>
      var u := parse(raw).value;
      var normal := NormalizePath(u.pathname);
      parse(u.origin + normal) == Some(Url(u.origin, normal))
  }

  /**
   When the URL part of a key is canonical: for a parser that leaves its own output alone, deriving the URL part again
   gives the same if and only if the path has no forged escape; so for every well-formed path.
   */
  lemma BaseIsFixedExactly(parse: Parser, raw: string)
    requires Reparses(parse) && parse(raw).Some?
    ensures Base(parse, Base(parse, raw)) == Base(parse, raw) <==> !HasForgedEscape(parse(raw).value.pathname)
    ensures WellFormed(parse(raw).value.pathname) ==> Base(parse, Base(parse, raw)) == Base(parse, raw)
  {
    var u := parse(raw).value;
    var n := NormalizePath(u.pathname);
    IdempotentExactly(u.pathname);
    if WellFormed(u.pathname) { WellFormedForgesNothing(u.pathname); }
    assert (u.origin + n)[|u.origin|..] == n;
    assert (u.origin + NormalizePath(n))[|u.origin|..] == NormalizePath(n);
  }

  /** A key exists if and only if no tool is named, or its name has 1 to 256 characters when separators are left out. */
  lemma KeyExistsExactly(parse: Parser, raw: string, tool: Option<string>)
    ensures CanonicalResourceKey(parse, raw, tool).Some? <==>
              var t := PartsOf(raw, tool).1; t.None? || 1 <= |Usable(t)| <= 256
  {
  }

  /**
   When two URLs that name one tool are one resource: if and only if both parse, with one origin, and their paths have
   one normal form. A URL that does not parse is never one with a URL that does.
   */
  lemma SameResourceExactly(parse: Parser, a: string, b: string, tool: string)
    requires Reparses(parse) && parse(a).Some? && 1 <= |Usable(Some(tool))| <= 256
    ensures CanonicalResourceKey(parse, a, Some(tool)) == CanonicalResourceKey(parse, b, Some(tool)) <==>
              && parse(b).Some?
              && parse(a).value.origin == parse(b).value.origin
              && NormalizePath(parse(a).value.pathname) == NormalizePath(parse(b).value.pathname)
  {
    hide NormalizePath, Strip;
    SameTail(Base(parse, a), Base(parse, b), Strip(tool));
    var u := parse(a).value;
    assert parse(Base(parse, a)) == Some(Url(u.origin, NormalizePath(u.pathname)));
  }

  // ---- Which stored keys change ----

  /** The parser puts no separator into what it accepts: it escapes them. */
  ghost predicate SeparatorFree(parse: Parser) {
    forall raw :: parse(raw).Some? ==> SEPARATOR !in parse(raw).value.origin && SEPARATOR !in parse(raw).value.pathname
  }

  lemma {:induction false} DecodeHasNoSeparator(s: string)
    requires SEPARATOR !in s
    ensures SEPARATOR !in Decode(s)
  {
    if s == "" {
    } else if EscapeAt(s, 0) {
      DecodeHasNoSeparator(s[3..]);
      var e := Escape(Octet(s[1], s[2]));
      assert e == [e[0], e[1], e[2]];
    } else {
      DecodeHasNoSeparator(s[1..]);
    }
  }

  lemma {:induction false} CollapseHasNoSeparator(s: string)
    requires SEPARATOR !in s
    ensures SEPARATOR !in Collapse(s)
  {
    if |s| < 2 {
    } else {
      CollapseHasNoSeparator(s[1..]);
    }
  }

  lemma BaseHasNoSeparator(parse: Parser, raw: string)
    requires SeparatorFree(parse) && (parse(raw).Some? || SEPARATOR !in raw)
    ensures SEPARATOR !in Base(parse, raw)
  {
    if parse(raw).Some? {
      var p := parse(raw).value.pathname;
      DecodeHasNoSeparator(p);
      CollapseHasNoSeparator(Decode(p));
    }
  }

  lemma {:induction false} StripJoined(a: string, b: string)
    ensures Strip(a + b) == Strip(a) + Strip(b)
  {
    if a == "" {
      StripNothing();
      assert a + b == b;
    } else {
      StripJoined(a[1..], b);
      StripStep(a[0], a[1..], b);
      assert a == [a[0]] + a[1..];
    }
  }

  lemma StripStep(c: char, a: string, b: string)
    requires Strip(a + b) == Strip(a) + Strip(b)
    ensures Strip([c] + a + b) == Strip([c] + a) + Strip(b)
  {
    hide Strip;
    StripCons(c, a);
    StripCons(c, a + b);
    assert [c] + a + b == [c] + (a + b);
    Associative(c, Strip(a), Strip(b));
  }

  lemma Associative(c: char, a: string, b: string)
    ensures [c] + (a + b) == [c] + a + b
  {
  }

  lemma StripNothing()
    ensures Strip("") == "" && Strip([SEPARATOR]) == ""
  {
    assert [SEPARATOR][1..] == "";
  }

  lemma StripCons(c: char, s: string)
    ensures Strip([c] + s) == if c == SEPARATOR then Strip(s) else [c] + Strip(s)
  {
    assert ([c] + s)[1..] == s;
  }

  /** What stands behind the first separator of a string, if there is one. */
  function Rest(s: string): string {
    var rest := Split(s).1;
    if rest.Some? then rest.value else ""
  }

  lemma {:induction false} SplitRest(base: string, tool: string)
    requires SEPARATOR in base
    ensures Split(base + [SEPARATOR] + tool) == (Split(base).0, Some(Rest(base) + [SEPARATOR] + tool))
  {
    var key := base + [SEPARATOR] + tool;
    assert base == [base[0]] + base[1..];
    assert key[1..] == base[1..] + [SEPARATOR] + tool;
    if base[0] == SEPARATOR {
    } else {
      SplitRest(base[1..], tool);
      assert Split(base[1..]).1.Some? by { SplitPlain(base[1..]); }
    }
  }

  /** The URL and the tool name that a key is derived from. A compound key handed in as a URL is first split. */
  function PartsOf(raw: string, tool: Option<string>): (string, Option<string>) {
    if tool.None? && SEPARATOR in raw then Split(raw) else (raw, tool)
  }

  function Usable(tool: Option<string>): string {
    if tool.Some? then Strip(tool.value) else ""
  }

  /**
   What decides whether a key keeps its spelling: for a URL that parses, that its path has no forged escape; for any
   other, that it holds no separator, or one with so much behind it that no tool can be called that.
   */
  predicate KeepsSpelling(parse: Parser, raw: string, tool: Option<string>) {
    var (url, t) := PartsOf(raw, tool);
    match parse(url)
    case Some(u) => !HasForgedEscape(u.pathname)
    case None => SEPARATOR in url ==> |Strip(Rest(url)) + Usable(t)| > MAX_TOOL_NAME_LEN
  }

  lemma SameTail(a: string, b: string, tail: string)
    ensures a + [SEPARATOR] + tail == b + [SEPARATOR] + tail <==> a == b
  {
    var x, y := a + [SEPARATOR] + tail, b + [SEPARATOR] + tail;
    if x == y { assert |a| == |b| && x[..|a|] == a && y[..|b|] == b; }
  }

  /** Without a separator in the URL part, a key is derived again as it is exactly when its URL part is. */
  lemma PlainBaseIsFixed(parse: Parser, base: string, tool: Option<string>)
    requires SEPARATOR !in base && WithTool(base, tool).Some?
    ensures var key := WithTool(base, tool).value;
            Rederive(parse, key) == WithTool(Base(parse, base), tool).value
            && CanonicalResourceKey(parse, key, None) == Some(Rederive(parse, key))
            && (Rederive(parse, key) == key <==> Base(parse, base) == base)
  {
    SplitPlain(base);
    if tool.Some? {
      var key, clean := WithTool(base, tool).value, Strip(tool.value);
      SplitCompound(base, clean);
      StripKeepsPlain(clean);
      assert key[|base|] == SEPARATOR;
      SameTail(Base(parse, base), base, clean);
    }
  }

  /** A key whose URL part is canonical and holds no separator is a fixed point, handed in as a URL or stored. */
  lemma KeyIsFixed(parse: Parser, base: string, tool: Option<string>)
    requires Base(parse, base) == base && SEPARATOR !in base && WithTool(base, tool).Some?
    ensures var key := WithTool(base, tool).value;
            && CanonicalResourceKey(parse, key, None) == Some(key)
            && Rederive(parse, key) == key
  {
    PlainBaseIsFixed(parse, base, tool);
  }

  /** Restart after restart: a stored key derived from a canonical URL without separator never changes. */
  lemma RestartsKeepKeys(parse: Parser, base: string, tool: Option<string>, n: nat)
    requires Base(parse, base) == base && SEPARATOR !in base && WithTool(base, tool).Some?
    ensures RederiveTimes(parse, WithTool(base, tool).value, n) == WithTool(base, tool).value
  {
    KeyIsFixed(parse, base, tool);
    FixedForGood(parse, WithTool(base, tool).value, n);
  }

  /** With one, the key is cut at the wrong place, and what is cut off becomes the tool name if it can. */
  lemma CutKeyBecomes(parse: Parser, url: string, tool: string)
    requires SEPARATOR in url && WithTool(url, Some(tool)).Some?
    ensures var key, name := WithTool(url, Some(tool)).value, Strip(Rest(url)) + Strip(tool);
            Rederive(parse, key) == if |name| > MAX_TOOL_NAME_LEN then key
                                    else Base(parse, Split(url).0) + [SEPARATOR] + name
  {
    hide Base, Split, Strip, Rest;
    var clean := Strip(tool);
    SplitRest(url, clean);
    StripCut(Rest(url), tool);
    DerivedFrom(parse, url + [SEPARATOR] + clean, Split(url).0, Rest(url) + [SEPARATOR] + clean);
  }

  lemma DerivedFrom(parse: Parser, key: string, url: string, rest: string)
    requires Split(key) == (url, Some(rest)) && Strip(rest) != ""
    ensures Rederive(parse, key) == if |Strip(rest)| > MAX_TOOL_NAME_LEN then key
                                    else Base(parse, url) + [SEPARATOR] + Strip(rest)
  {
  }

  lemma StripCut(a: string, tool: string)
    ensures Strip(a + [SEPARATOR] + Strip(tool)) == Strip(a) + Strip(tool)
  {
    hide Strip;
    StripKeepsPlain(Strip(tool));
    StripJoined(a + [SEPARATOR], Strip(tool));
    StripJoined(a, [SEPARATOR]);
    StripNothing();
  }

  lemma CutKeyIsFixed(parse: Parser, url: string, tool: string)
    requires SeparatorFree(parse) && SEPARATOR in url && WithTool(url, Some(tool)).Some?
    ensures var key := WithTool(url, Some(tool)).value;
            Rederive(parse, key) == key <==> |Strip(Rest(url)) + Strip(tool)| > MAX_TOOL_NAME_LEN
  {
    hide Base, Split, Strip, Rest, Rederive;
    CutKeyBecomes(parse, url, tool);
    SplitHasNoSeparator(url);
    BaseHasNoSeparator(parse, Split(url).0);
    OneSeparator(Base(parse, Split(url).0), Strip(Rest(url)) + Strip(tool));
    TwoSeparators(url, Strip(tool));
  }

  lemma OneSeparator(a: string, b: string)
    requires SEPARATOR !in a && SEPARATOR !in b
    ensures multiset(a + [SEPARATOR] + b)[SEPARATOR] == 1
  {
    assert SEPARATOR !in multiset(a) && SEPARATOR !in multiset(b);
  }

  lemma TwoSeparators(a: string, b: string)
    requires SEPARATOR in a
    ensures multiset(a + [SEPARATOR] + b)[SEPARATOR] >= 2
  {
    assert SEPARATOR in multiset(a);
  }

  /**
   Which stored keys keep their spelling, exactly. A key that a URL and a tool name were given is derived again as it
   is, at this restart and at every later one, if and only if it keeps its spelling.
   */
  lemma StoredKeyIsFixedExactly(parse: Parser, raw: string, tool: Option<string>)
    requires Reparses(parse) && SeparatorFree(parse) && CanonicalResourceKey(parse, raw, tool).Some?
    ensures var key := CanonicalResourceKey(parse, raw, tool).value;
            && (Rederive(parse, key) == key <==> KeepsSpelling(parse, raw, tool))
            && (NeverChanges(parse, key) <==> KeepsSpelling(parse, raw, tool))
  {
    hide Base, Rederive, NeverChanges;
    var (url, t) := PartsOf(raw, tool);
    var key := CanonicalResourceKey(parse, raw, tool).value;
    if parse(url).Some? || SEPARATOR !in url {
      BaseHasNoSeparator(parse, url);
      PlainBaseIsFixed(parse, Base(parse, url), t);
      BaseIsStable(parse, url);
    } else {
      assert t.Some? by { SplitHasNoSeparator(raw); }
      CutKeyIsFixed(parse, url, t.value);
      BaseIsStable(parse, url);
      SplitPlain(url);
    }
    FixedForGoodExactly(parse, key);
  }

  /** However often the process restarts, the stored key stays what it is. */
  ghost predicate NeverChanges(parse: Parser, key: string) {
    forall n: nat :: RederiveTimes(parse, key, n) == key
  }

  lemma FixedForGoodExactly(parse: Parser, key: string)
    ensures NeverChanges(parse, key) <==> Rederive(parse, key) == key
  {
    if NeverChanges(parse, key) {
      assert RederiveTimes(parse, key, 1) == key && RederiveTimes(parse, key, 0) == key;
    }
    if Rederive(parse, key) == key {
      forall n: nat ensures RederiveTimes(parse, key, n) == key { FixedForGood(parse, key, n); }
      assert NeverChanges(parse, key);
    }
  }

  lemma BaseIsStable(parse: Parser, url: string)
    requires Reparses(parse)
    ensures parse(url).None? ==> Base(parse, url) == url
    ensures Base(parse, Base(parse, url)) == Base(parse, url)
            <==> match parse(url) case Some(u) => !HasForgedEscape(u.pathname) case None => true
  {
    if parse(url).Some? { BaseIsFixedExactly(parse, url); }
  }

  lemma {:induction false} FixedForGood(parse: Parser, key: string, n: nat)
    requires Rederive(parse, key) == key
    ensures RederiveTimes(parse, key, n) == key
  {
    hide Rederive;
    if n == 0 {
    } else {
      FixedForGood(parse, key, n - 1);
    }
  }

  /**
   The stored key that does change: a path whose stray percent sign swallows decoded digits is cataloged under `/%41`,
   with a tool name or without, and bound under `/A` after the next restart.
   */
  lemma ForgedEscapeChangesKey(parse: Parser, raw: string, origin: string, tool: Option<string>)
    requires Reparses(parse) && SeparatorFree(parse) && parse(raw) == Some(Url(origin, "/%%34%31"))
    requires PartsOf(raw, tool) == (raw, tool) && WithTool(raw, tool).Some?
    ensures CanonicalResourceKey(parse, raw, tool) == WithTool(origin + "/%41", tool)
    ensures var key := WithTool(origin + "/%41", tool).value;
            Rederive(parse, key) == WithTool(origin + "/A", tool).value != key
  {
    hide NormalizePath;
    StrayPercentForges();
    var key, base := WithTool(origin + "/%41", tool).value, origin + "/%41";
    BaseHasNoSeparator(parse, raw);
    PlainBaseIsFixed(parse, base, tool);
    assert Base(parse, base) == origin + "/A";
    assert |origin + "/A"| != |base|;
  }

  /**
   A separator in a URL that does not parse forges a boundary: the stored key is derived again as another tool's key.
   Such a URL is refused today, so only a row that an older build has written can hold such a key.
   */
  lemma SeparatorInUrlChangesKey(parse: Parser, url: string, a: char, b: char)
    requires parse(url) == None && parse(url + [SEPARATOR, a]) == None && SEPARATOR !in url
    requires a != SEPARATOR && b != SEPARATOR
    ensures var key := CanonicalResourceKey(parse, url + [SEPARATOR, a], Some([b]));
            && key.Some? && Rederive(parse, key.value) != key.value
            && CanonicalResourceKey(parse, url, Some([a, b])) == Some(Rederive(parse, key.value))
  {
    assert Strip("") == "";
    assert [b][1..] == "" && [a, b][1..] == [b];
    assert Strip([b]) == [b] && Strip([a, b]) == [a, b];
    var raw := url + [SEPARATOR, a];
    var key := raw + [SEPARATOR] + [b];
    assert key == url + [SEPARATOR] + [a, SEPARATOR, b];
    SplitCompound(url, [a, SEPARATOR, b]);
    assert [a, SEPARATOR, b][1..] == [SEPARATOR, b] && [SEPARATOR, b][1..] == [b];
    assert Strip([SEPARATOR, b]) == [b];
    assert Strip([a, SEPARATOR, b]) == [a, b];
    assert |url + [SEPARATOR] + [a, b]| < |key|;
  }
}
