/**
 Which badges land on another key, for the spelling this host really uses: those of keys whose path had a forged escape.
 */
module BadgeSpelling {
  import opened Basics
  import opened Catalog
  import opened CatalogBadges
  import opened CatalogRuns
  import opened PathNormal
  import opened ResourceKeys

  /** The world in which a key is spelled again by deriving it as a URL. */
  function Host(parse: Parser, templated: Key -> bool): World {
    World((k: Key) => CanonicalResourceKey(parse, k, None), templated)
  }

  /** The key of a URL that parses, with a tool name or without: the only kind that is ever cataloged. */
  ghost predicate KeyOf(parse: Parser, raw: string, tool: Option<string>, k: Key) {
    CanonicalResourceKey(parse, raw, tool) == Some(k) && parse(PartsOf(raw, tool).0).Some?
  }

  /** The path of that URL has a forged escape. */
  ghost predicate Forged(parse: Parser, raw: string, tool: Option<string>) {
    var u := parse(PartsOf(raw, tool).0);
    u.Some? && HasForgedEscape(u.value.pathname)
  }

  /** A key is spelled again as another exactly when its path had a forged escape, and then as after a restart. */
  lemma RespelledExactly(parse: Parser, templated: Key -> bool, raw: string, tool: Option<string>, k: Key)
    requires Reparses(parse) && SeparatorFree(parse) && KeyOf(parse, raw, tool, k)
    ensures Host(parse, templated).canon(k) == Some(Rederive(parse, k))
    ensures Respelled(Host(parse, templated), k) <==> Forged(parse, raw, tool)
  {
    hide Base, Rederive, HasForgedEscape;
    var (url, t) := PartsOf(raw, tool);
    BaseHasNoSeparator(parse, url);
    PlainBaseIsFixed(parse, Base(parse, url), t);
    StoredKeyIsFixedExactly(parse, raw, tool);
  }

  /** A forged key that may be probed and whose other spelling is in use too. */
  ghost predicate ForgedIn(parse: Parser, templated: Key -> bool, keys: set<Key>, raw: string, tool: Option<string>,
                           k: Key)
  {
    k in keys && !templated(k) && KeyOf(parse, raw, tool, k) && Forged(parse, raw, tool) && Rederive(parse, k) in keys
  }

  /** Keys in use collide exactly when one of them had a forged escape and the spelling it leads to is in use too. */
  lemma AliasedExactly(parse: Parser, templated: Key -> bool, keys: set<Key>)
    requires Reparses(parse) && SeparatorFree(parse)
    requires forall k :: k in keys ==> exists raw, tool :: KeyOf(parse, raw, tool, k)
    ensures Aliased(Host(parse, templated), keys) <==>
              exists raw, tool, k :: ForgedIn(parse, templated, keys, raw, tool, k)
  {
    hide KeyOf, Forged, Rederive;
    var w := Host(parse, templated);
    if Aliased(w, keys) {
      var k :| k in keys && !w.templated(k) && Respelled(w, k) && w.canon(k).value in keys;
      var raw, tool :| KeyOf(parse, raw, tool, k);
      RespelledExactly(parse, templated, raw, tool, k);
      assert ForgedIn(parse, templated, keys, raw, tool, k);
    }
    if raw, tool, k :| ForgedIn(parse, templated, keys, raw, tool, k) {
      RespelledExactly(parse, templated, raw, tool, k);
      assert k in keys && !w.templated(k) && Respelled(w, k) && w.canon(k).value in keys;
    }
  }

  /**
   Two URLs of one origin that collide so: the path `/%%34%31`, whose key is `/%41`, and the path `/%41`, whose key is
   `/A`. Some run over these two keys serves a badge on the second that was never proven.
   */
  lemma ForgedEscapeMisplacesBadge(parse: Parser, templated: Key -> bool, raw: string, origin: string)
    returns (run: seq<Event>)
    requires Reparses(parse) && SeparatorFree(parse) && parse(raw) == Some(Url(origin, "/%%34%31"))
    requires SEPARATOR !in raw && !templated(origin + "/%41")
    ensures CanonicalResourceKey(parse, raw, None) == Some(origin + "/%41")
    ensures CanonicalResourceKey(parse, origin + "/%41", None) == Some(origin + "/A")
    ensures forall e :: e in run ==> OffersWithin(e, {origin + "/%41", origin + "/A"})
    ensures var s, k := Exec(Host(parse, templated), BLANK, run).s, origin + "/A";
            k in s.entries.at && s.entries.at[k].verifiedOwner && k !in s.everVerified
  {
    hide CanonicalResourceKey, Exec;
    ForgedEscapeChangesKey(parse, raw, origin, None);
    ForgedKeyReads(parse, raw, origin);
    assert origin + "/%41" != origin + "/A" by { assert |origin + "/%41"| != |origin + "/A"|; }
    run := AliasMisplacesBadge(Host(parse, templated), origin + "/%41");
  }

  lemma ForgedKeyReads(parse: Parser, raw: string, origin: string)
    requires Reparses(parse) && SeparatorFree(parse) && parse(raw) == Some(Url(origin, "/%%34%31"))
    ensures CanonicalResourceKey(parse, raw, None) == Some(origin + "/%41") || SEPARATOR in raw
    ensures CanonicalResourceKey(parse, origin + "/%41", None) == Some(origin + "/A")
  {
    hide NormalizePath;
    StrayPercentForges();
    BaseHasNoSeparator(parse, raw);
    assert Base(parse, raw) == origin + "/%41";
  }
}
