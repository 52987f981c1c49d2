/**
 * Clients of the Gravatar class. Each method drives an object through a
 * sequence of calls and states, from the class's contracts alone, what the
 * sequence does.
 */
module Scenarios {
  import opened Base
  import opened Ascii
  import opened AvatarUrl
  import opened Rules
  import opened Lampcms

  /** A malformed email is refused before curl or the network is consulted. */
  method InvalidEmailRefused(isEmail: string -> bool, md5Hex: string -> HexDigest, curl: bool)
    returns (m: Made)
    requires !isEmail("not-an-email")
    ensures m == Refused(InvalidArgument)
  {
    m := Gravatar.Factory(isEmail, md5Hex, curl, "not-an-email", Number(75), "wavatar", "g");
  }

  /** Without curl a valid email gets the stub, whatever the other arguments. */
  method NoCurlGivesStub(isEmail: string -> bool, md5Hex: string -> HexDigest, email: string, rating: string)
    returns (m: Made)
    requires isEmail(email)
    ensures m == Stub
  {
    m := Gravatar.Factory(isEmail, md5Hex, false, email, NotNumeric("big"), "bogus", rating);
  }

  /** The size is checked first: a bad size hides a bad rating and fallback. */
  method SizeCheckedFirst(isEmail: string -> bool, md5Hex: string -> HexDigest, email: string)
    returns (m: Made)
    requires isEmail(email)
    ensures m == Refused(OutOfRange)
  {
    m := Gravatar.Factory(isEmail, md5Hex, true, email, Number(301), "bogus", "nc-17");
  }

  /** factory(email) with its default size, fallback and rating, where curl is present. */
  method MakeDefault(isEmail: string -> bool, md5Hex: string -> HexDigest, email: string) returns (g: Gravatar)
    requires isEmail(email)
    ensures fresh(g) && g.Valid() && g.isEmail == isEmail && g.md5Hex == md5Hex
    ensures g.State() == Snapshot(None, email, None, "http", md5Hex(Lower(email)),
                                  "jpg", 75, "g", "wavatar", None, None)
  {
    var m := Gravatar.Factory(isEmail, md5Hex, true, email, Number(75), "wavatar", "g");
    assert m.Built?;
    g := m.gravatar;
  }

  /**
   * A 200 response: the flag becomes 'Y' and getGravatar returns the body;
   * a later call answers from the cache.
   */
  method FoundAvatar(isEmail: string -> bool, md5Hex: string -> HexDigest, email: string, body: Bytes)
    returns (first: Option<Bytes>, second: Option<Bytes>)
    requires isEmail(email)
    ensures first == Some(body) && second == Some(body)
  {
    var g := MakeDefault(isEmail, md5Hex, email);
    var http: Transport := (u, since, etag) => Fetched(body);
    first := g.GetGravatar(http);
    var never: Transport := (u, since, etag) => OtherFailure;
    second := g.GetGravatar(never);
  }

  /** A 404 response: the flag becomes 'N' and getGravatar returns nothing. */
  method MissingAvatar(isEmail: string -> bool, md5Hex: string -> HexDigest, email: string) returns (r: Option<Bytes>)
    requires isEmail(email)
    ensures r == None
  {
    var g := MakeDefault(isEmail, md5Hex, email);
    r := g.GetGravatar((u, since, etag) => NotFound);
    assert g.gravatarExists == Some(No);
  }

  /** A timeout on a fresh object: the flag is 'U' and there is no image. */
  method UnreachableService(isEmail: string -> bool, md5Hex: string -> HexDigest, email: string) returns (r: Option<Bytes>)
    requires isEmail(email)
    ensures r == None
  {
    var g := MakeDefault(isEmail, md5Hex, email);
    r := g.GetGravatar((u, since, etag) => OtherFailure);
    assert g.gravatarExists == Some(Unknown);
  }

  /**
   * After a successful fetch, a failing fetch sets 'U' but keeps the old
   * image, and getGravatar returns it without fetching again.
   */
  method StaleImageOnUnknown(g: Gravatar, body: Bytes) returns (r: Option<Bytes>)
    requires g.Valid()
    modifies g
    ensures g.gravatarExists == Some(Unknown)
    ensures r == Some(body)
  {
    g.FetchGravatar((u, since, etag) => Fetched(body), None, None);
    g.FetchGravatar((u, since, etag) => OtherFailure, None, None);
    r := g.GetGravatar((u, since, etag) => NotFound);
  }

  /**
   * A size set after the URL was built does not reach the request: the
   * fetch reuses the cached URL.
   */
  method SizeChangeAfterBuild(g: Gravatar, http: Transport)
    requires g.Valid() && g.url.Some?
    modifies g
    ensures g.size == 100 && g.url == old(g.url)
    ensures g.gravatarExists == Some(Classify(http(old(g.url).value, None, None)))
  {
    var r := g.SetSize(Number(100));
    g.FetchGravatar(http, None, None);
  }

  /** A new email forgets the cached URL, so the next fetch asks for the new hash. */
  method EmailChangeRebuilds(g: Gravatar, e: string, http: Transport)
    requires g.Valid() && g.isEmail(e)
    modifies g
    ensures g.url == Some(Format(old(g.Fields()).(hash := g.md5Hex(Lower(e)))))
    ensures g.gravatarExists == Some(Classify(http(g.url.value, None, None)))
  {
    var r := g.SetEmail(e);
    g.FetchGravatar(http, None, None);
  }

  /**
   * hasGravatar requests size 25 with fallback 404 whatever was set before,
   * and leaves them set.
   */
  method HasGravatarOverrides(g: Gravatar, http: Transport) returns (flag: Existence)
    requires g.Valid()
    modifies g
    ensures g.size == 25 && g.fallback == "404"
    ensures g.url == Some(Format(UrlFields(old(g.protocol), old(g.emailHash), 25, "404", old(g.rating))))
  {
    var r := g.SetSize(Number(300));
    r := g.SetFallback("identicon");
    flag := g.HasGravatar(http);
  }

  /** Emails that differ only in letter case get the same hash. */
  method CaseInsensitiveHash(g: Gravatar, e: string)
    requires g.Valid() && g.isEmail(e) && EqualIgnoringCase(e, g.email)
    modifies g
    ensures g.email == e && g.emailHash == old(g.emailHash)
  {
    LowerMatchesIgnoringCase(e, old(g.email));
    var r := g.SetEmail(e);
  }
}
