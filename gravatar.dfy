/**
 * The class Lampcms\Gravatar: validated request parameters, the lazily built
 * lookup URL, one fetch classified into the flag Y / N / U, and the factory
 * that picks a stub when curl is missing.
 *
 * Foreign pieces are inputs: FILTER_VALIDATE_EMAIL is the predicate isEmail,
 * hash('md5', ...) the function md5Hex, the Curl collaborator a Transport
 * function from (url, since, etag) to the kind of response it produced, and
 * the curl probe a boolean given to Factory.
 */
module Lampcms {
  import opened Base
  import opened Ascii
  import opened AvatarUrl
  import opened Rules

  /** The flag gravatarExists once a fetch has run: 'Y', 'N' or 'U'. */
  datatype Existence = Yes | No | Unknown

  /**
   * What getDocument(...)->checkResponse() ended with: a response whose body
   * is kept, an Http404Exception, or any other Lampcms exception.
   */
  datatype Response = Fetched(body: Bytes) | NotFound | OtherFailure

  /** The HTTP collaborator: the response to a GET of url with since and etag. */
  type Transport = (string, Option<int>, Option<string>) -> Response

  /** The flag a fetch sets for each kind of response. */
  function Classify(rsp: Response): (e: Existence)
    ensures e == Yes <==> rsp.Fetched?
    ensures e == No <==> rsp.NotFound?
  {
    match rsp
    case Fetched(_) => Yes
    case NotFound => No
    case OtherFailure => Unknown
  }

  /** Every property of a Gravatar object; an unset property is None. */
  datatype Snapshot = Snapshot(
    url: Option<string>,
    email: string,
    gravatar: Option<Bytes>,
    protocol: string,
    emailHash: HexDigest,
    ext: string,
    size: nat,
    rating: string,
    fallback: string,
    gravatarExists: Option<Existence>,
    response: Option<Bytes>)

  /**
   * The properties after the try block of fetchGravatar has handled rsp: only
   * a response with a body touches the image and the stored response.
   */
  function Absorb(s: Snapshot, rsp: Response): (r: Snapshot)
    ensures r.gravatarExists == Some(Classify(rsp))
    ensures rsp.Fetched? ==> r.gravatar == Some(rsp.body) && r.response == Some(rsp.body)
    ensures !rsp.Fetched? ==> r.gravatar == s.gravatar && r.response == s.response
    ensures r.(gravatarExists := s.gravatarExists, gravatar := s.gravatar, response := s.response) == s
  {
    match rsp
    case Fetched(b) => s.(response := Some(b), gravatar := Some(b), gravatarExists := Some(Yes))
    case NotFound => s.(gravatarExists := Some(No))
    case OtherFailure => s.(gravatarExists := Some(Unknown))
  }

  /** What getGravatar returns for a given flag and stored image. */
  function Returned(flag: Existence, gravatar: Option<Bytes>): (r: Option<Bytes>)
    ensures flag == No ==> r == None
    ensures flag != No ==> r == gravatar
  {
    if flag == No then None else gravatar
  }

  /** What Factory hands back: an exception, the curl-less stub, or a real object. */
  datatype Made = Refused(error: Error) | Stub | Built(gravatar: Gravatar)

  class Gravatar {
    /** FILTER_VALIDATE_EMAIL. */
    const isEmail: string -> bool
    /** hash('md5', ...). */
    const md5Hex: string -> HexDigest

    var url: Option<string>
    var email: string
    var gravatar: Option<Bytes>
    var protocol: string
    var emailHash: HexDigest
    var ext: string
    var size: nat
    var rating: string
    var fallback: string
    var gravatarExists: Option<Existence>
    var response: Option<Bytes>

    /** The values the cached URL was built from. */
    ghost var built: UrlFields

    ghost function State(): Snapshot
      reads this
    {
      Snapshot(url, email, gravatar, protocol, emailHash, ext, size, rating, fallback, gravatarExists, response)
    }

    /** The values setAvatarUrl substitutes into BASE_URL. */
    function Fields(): UrlFields
      reads this
    {
      UrlFields(protocol, emailHash, size, fallback, rating)
    }

    /**
     * The object invariant: the parameters, the cached URL and the cached
     * fetch result each keep their own rule.
     */
    ghost predicate Valid()
      reads this
    {
      ParametersValid() && UrlValid() && CacheValid()
    }

    /**
     * Every parameter passed its setter's rule and the hash is that of the
     * lower-cased email.
     */
    ghost predicate ParametersValid()
      reads this
    {
      && isEmail(email)
      && emailHash == md5Hex(Lower(email))
      && ext in Extensions
      && ValidFields(Fields())
    }

    /**
     * A cached URL may be stale in its size, fallback, rating and protocol,
     * but it was built from valid values and carries the current email's hash.
     */
    ghost predicate UrlValid()
      reads this
    {
      url.Some? ==> url.value == Format(built) && built.hash == emailHash && ValidFields(built)
    }

    /**
     * A flag is set only after a fetch, which builds the URL first; 'Y' comes
     * with an image, and a stored image is the body of the stored response.
     */
    ghost predicate CacheValid()
      reads this
    {
      && (gravatarExists.None? ==> gravatar.None?)
      && (gravatarExists.Some? ==> url.Some?)
      && (gravatarExists == Some(Yes) ==> gravatar.Some?)
      && (gravatar.Some? ==> response == gravatar)
    }

    /**
     * Whatever parameters changed since, the cached URL can be read back and
     * names the current email's hash and a set of valid parameters.
     */
    lemma CachedUrlCarriesHash()
      requires Valid() && url.Some?
      ensures var q := ParseUrl(url.value); q.Some? && q.value.hash == emailHash && ValidFields(q.value)
    {
      ValidFieldsUnambiguous(built);
      ParseFormat(built);
    }

    /**
     * The protected constructor: the property defaults, then setEmail. Its
     * only caller, factory, has already checked the email.
     */
    constructor (isEmail: string -> bool, md5Hex: string -> HexDigest, email: string)
      requires isEmail(email)
      ensures this.isEmail == isEmail && this.md5Hex == md5Hex
      ensures Valid()
      ensures State() == Snapshot(None, email, None, "http", md5Hex(Lower(email)), "jpg", 75, "g", "wavatar", None, None)
    {
      this.isEmail := isEmail;
      this.md5Hex := md5Hex;
      protocol, ext, size, rating, fallback := "http", "jpg", 75, "g", "wavatar";
      response := None;
      this.email := email;
      emailHash := md5Hex(Lower(email));
      url, gravatar, gravatarExists := None, None, None;
      built := UrlFields("http", md5Hex(Lower(email)), 75, "wavatar", "g");
    }

    /**
     * Stores a valid email with the hash of its lower-cased form and forgets
     * the URL, the image and the flag; an invalid email changes nothing.
     */
    method SetEmail(e: string) returns (r: Outcome)
      requires Valid()
      modifies this
      ensures Valid()
      ensures r == (if isEmail(e) then Pass else Fail(InvalidArgument))
      ensures r.Fail? ==> State() == old(State())
      ensures r.Pass? ==> State() == old(State()).(email := e, emailHash := md5Hex(Lower(e)),
                                                  url := None, gravatar := None, gravatarExists := None)
    {
      if !isEmail(e) {
        return Fail(InvalidArgument);
      }
      StoreEmail(e);
      return Pass;
    }

    /** The accepting branch of setEmail: stores the email and its hash and unsets the cache. */
    method StoreEmail(e: string)
      requires Valid() && isEmail(e)
      modifies this
      ensures Valid()
      ensures State() == old(State()).(email := e, emailHash := md5Hex(Lower(e)),
                                       url := None, gravatar := None, gravatarExists := None)
    {
      email := e;
      emailHash := md5Hex(Lower(e));
      url, gravatar, gravatarExists := None, None, None;
    }

    /** Exactly "http" or "https", compared case-sensitively. */
    method SetProtocol(p: string) returns (r: Outcome)
      requires Valid()
      modifies this
      ensures Valid()
      ensures r == (if p in Protocols then Pass else Fail(InvalidArgument))
      ensures State() == if r.Pass? then old(State()).(protocol := p) else old(State())
    {
      r := CheckProtocol(p);
      if r.Pass? {
        protocol := p;
      }
    }

    /** Exactly "jpg", "png" or "gif"; the extension is never part of the URL. */
    method SetExt(e: string) returns (r: Outcome)
      requires Valid()
      modifies this
      ensures Valid()
      ensures r == (if e in Extensions then Pass else Fail(InvalidArgument))
      ensures State() == if r.Pass? then old(State()).(ext := e) else old(State())
      ensures Fields() == old(Fields())
    {
      r := CheckExt(e);
      if r.Pass? {
        ext := e;
      }
    }

    /** Any letter case of g, pg, r or x; the lower-cased form is stored. */
    method SetRating(s: string) returns (r: Outcome)
      requires Valid()
      modifies this
      ensures Valid()
      ensures r == (if s in RatingSpellings then Pass else Fail(InvalidArgument))
      ensures State() == if r.Pass? then old(State()).(rating := Lower(s)) else old(State())
    {
      r := CheckRating(s);
      if r.Pass? {
        rating := Lower(s);
      }
    }

    /**
     * A non-numeric size throws UnexpectedValue, one outside 25..300 throws
     * OutOfRange, any other is stored as given.
     */
    method SetSize(arg: SizeArg) returns (r: Outcome)
      requires Valid()
      modifies this
      ensures Valid()
      ensures arg.NotNumeric? ==> r == Fail(UnexpectedValue)
      ensures arg.Number? && (arg.n < 25 || arg.n > 300) ==> r == Fail(OutOfRange)
      ensures arg.Number? && 25 <= arg.n <= 300 ==> r == Pass
      ensures State() == if r.Pass? then old(State()).(size := arg.n) else old(State())
    {
      r := CheckSize(arg);
      if r.Pass? {
        size := arg.n;
      }
    }

    /** A string starting with "http", or identicon, monsterid, wavatar or 404. */
    method SetFallback(f: string) returns (r: Outcome)
      requires Valid()
      modifies this
      ensures Valid()
      ensures r == (if ValidFallback(f) then Pass else Fail(InvalidArgument))
      ensures State() == if r.Pass? then old(State()).(fallback := f) else old(State())
    {
      r := CheckFallback(f);
      if r.Pass? {
        fallback := f;
      }
    }

    /** Fills BASE_URL with the current protocol, hash, size, fallback and rating. */
    method SetAvatarUrl()
      requires Valid()
      modifies this
      ensures Valid()
      ensures State() == old(State()).(url := Some(Format(old(Fields()))))
    {
      var q := Fields();
      built := q;
      url := Some(Format(q));
    }

    /**
     * Builds the URL only if none is cached, so parameters changed since it
     * was built do not reach the request; then sends one request and records
     * its outcome. Only a response with a body sets the image.
     */
    method FetchGravatar(http: Transport, since: Option<int>, etag: Option<string>)
      requires Valid()
      modifies this
      ensures Valid()
      ensures url == Some(if old(url).Some? then old(url).value else Format(old(Fields())))
      ensures State() == Absorb(old(State()).(url := url), http(url.value, since, etag))
    {
      if url.None? {
        SetAvatarUrl();
      }
      Record(http(url.value, since, etag));
    }

    /**
     * The try block of fetchGravatar: a response with a body is stored with
     * the flag 'Y'; otherwise the flag becomes 'U', or 'N' for a 404.
     */
    method Record(rsp: Response)
      requires Valid() && url.Some?
      modifies this
      ensures Valid()
      ensures State() == Absorb(old(State()), rsp)
    {
      if rsp.Fetched? {
        response := Some(rsp.body);
        gravatar := response;
        gravatarExists := Some(Yes);
      } else {
        gravatarExists := Some(Unknown);
        if rsp.NotFound? {
          gravatarExists := Some(No);
        }
      }
    }

    /**
     * Asks whether the email has a real avatar: the fallback becomes 404 and
     * the size 25 (and stay so), the URL is rebuilt, one fetch runs, and the
     * flag it set is returned.
     */
    method HasGravatar(http: Transport) returns (flag: Existence)
      requires Valid()
      modifies this
      ensures Valid()
      ensures url == Some(Format(old(Fields()).(size := 25, fallback := "404")))
      ensures flag == Classify(http(url.value, None, None))
      ensures State() == Absorb(old(State()).(fallback := "404", size := 25, url := url), http(url.value, None, None))
      ensures gravatarExists == Some(flag)
    {
      var r := SetFallback("404");
      assert r.Pass?;
      r := SetSize(Number(25));
      assert r.Pass?;
      SetAvatarUrl();
      FetchGravatar(http, None, None);
      flag := gravatarExists.value;
    }

    /**
     * Fetches only if no fetch has run since the email was set; then answers
     * nothing for 'N' and the stored image otherwise, which on 'U' may be
     * unset or left over from an earlier fetch.
     */
    method GetGravatar(http: Transport) returns (r: Option<Bytes>)
      requires Valid()
      modifies this
      ensures Valid()
      ensures old(gravatarExists).Some? ==> State() == old(State())
      ensures old(gravatarExists).None? ==>
        && url == Some(if old(url).Some? then old(url).value else Format(old(Fields())))
        && State() == Absorb(old(State()).(url := url), http(url.value, None, None))
      ensures gravatarExists.Some? && r == Returned(gravatarExists.value, gravatar)
      ensures gravatarExists == Some(Yes) ==> r.Some?
    {
      if gravatarExists.None? {
        FetchGravatar(http, None, None);
      }
      if gravatarExists == Some(No) {
        return None;
      }
      return gravatar;
    }

    /**
     * The factory: an invalid email throws before curl is looked at; without
     * curl the stub is returned; otherwise the new object's size, rating and
     * fallback are set in that order and the first failure is thrown.
     */
    static method Factory(isEmail: string -> bool, md5Hex: string -> HexDigest, curl: bool,
                          email: string, size: SizeArg, fallback: string, rating: string)
      returns (m: Made)
      ensures !isEmail(email) ==> m == Refused(InvalidArgument)
      ensures isEmail(email) && !curl ==> m == Stub
      ensures isEmail(email) && curl && CheckSize(size).Fail? ==> m == Refused(CheckSize(size).error)
      ensures isEmail(email) && curl && CheckSize(size).Pass? && CheckRating(rating).Fail? ==>
        m == Refused(InvalidArgument)
      ensures isEmail(email) && curl && CheckSize(size).Pass? && CheckRating(rating).Pass? && CheckFallback(fallback).Fail?
        ==> m == Refused(InvalidArgument)
      ensures m.Built? ==>
        && fresh(m.gravatar) && m.gravatar.Valid()
        && m.gravatar.isEmail == isEmail && m.gravatar.md5Hex == md5Hex
        && m.gravatar.State() == Snapshot(None, email, None, "http", md5Hex(Lower(email)), "jpg",
                                          size.n, Lower(rating), fallback, None, None)
      ensures m.Built? <==> isEmail(email) && curl && CheckSize(size).Pass?
                            && CheckRating(rating).Pass? && CheckFallback(fallback).Pass?
    {
      if !isEmail(email) {
        return Refused(InvalidArgument);
      }
      if !curl {
        return Stub;
      }
      var g := new Gravatar(isEmail, md5Hex, email);
      var r := g.SetSize(size);
      if r.Fail? {
        return Refused(r.error);
      }
      r := g.SetRating(rating);
      if r.Fail? {
        return Refused(r.error);
      }
      r := g.SetFallback(fallback);
      if r.Fail? {
        return Refused(r.error);
      }
      return Built(g);
    }
  }
}
