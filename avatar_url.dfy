/**
 * The lookup URL of Gravatar::BASE_URL,
 *   <protocol>://www.gravatar.com/avatar/<hash>?s=<size>&d=<fallback>&r=<rating>,
 * filled in without any escaping, and a parser that reads the five fields back.
 * The parser is the builder's partner: it shows that the URL determines the
 * fields it was built from whenever the protocol has no ':', the hash no '?'
 * and the rating no '&' (the fallback may contain anything).
 */
module AvatarUrl {
  import opened Base
  import opened Ascii

  /** The literal text of the template between the protocol and the hash. */
  const Host: string := "://www.gravatar.com/avatar/"

  /** The five values vsprintf substitutes into the template, in order. */
  datatype UrlFields = UrlFields(protocol: string, hash: string, size: nat, fallback: string, rating: string)

  /** vsprintf(BASE_URL, [protocol, hash, size, fallback, rating]). */
  function Format(q: UrlFields): (r: string)
    ensures q.protocol + Host + q.hash + "?s=" <= r
    ensures |r| >= |q.rating| + 3 && r[|r| - |q.rating| - 3..] == "&r=" + q.rating
  {
    q.protocol + PathPart(q)
  }

  /** The template from "://" on. */
  function PathPart(q: UrlFields): string {
    Host + q.hash + QueryPart(q)
  }

  /** The template from "?s=" on. */
  function QueryPart(q: UrlFields): string {
    "?s=" + Decimal(q.size) + OptionsPart(q)
  }

  /** The template from "&d=" on. */
  function OptionsPart(q: UrlFields): string {
    "&d=" + q.fallback + ("&r=" + q.rating)
  }

  /** The fields whose text the parser can delimit. */
  predicate Unambiguous(q: UrlFields) {
    ':' !in q.protocol && '?' !in q.hash && '&' !in q.rating
  }

  /** Position of the first c in s. */
  function IndexOf(s: string, c: char): (r: nat)
    requires c in s
    ensures r < |s| && s[r] == c
    ensures forall i :: 0 <= i < r ==> s[i] != c
  {
    if s[0] == c then 0 else 1 + IndexOf(s[1..], c)
  }

  /** Position of the last c in s. */
  function LastIndexOf(s: string, c: char): (r: nat)
    requires c in s
    ensures r < |s| && s[r] == c
    ensures forall i :: r < i < |s| ==> s[i] != c
  {
    if s[|s| - 1] == c then |s| - 1 else LastIndexOf(s[..|s| - 1], c)
  }

  /**
   * Reads a lookup URL: the protocol runs to the first ':', the hash to the
   * first '?', the size to the first '&', the fallback to the last '&'.
   */
  function ParseUrl(u: string): Option<UrlFields> {
    if ':' !in u then None else
    var i := IndexOf(u, ':');
    match ParsePath(u[i..])
    case None => None
    case Some(q) => Some(q.(protocol := u[..i]))
  }

  /** Reads "://www.gravatar.com/avatar/<hash>?s=...": every field but the protocol. */
  function ParsePath(s: string): Option<UrlFields> {
    if !(Host <= s) then None else
    var rest := s[|Host|..];
    if '?' !in rest then None else
    var j := IndexOf(rest, '?');
    match ParseQuery(rest[j..])
    case None => None
    case Some(q) => Some(q.(hash := rest[..j]))
  }

  /** Reads "?s=<size>&d=...": the size, the fallback and the rating. */
  function ParseQuery(s: string): Option<UrlFields> {
    if !("?s=" <= s) then None else
    var rest := s[3..];
    if '&' !in rest then None else
    var k := IndexOf(rest, '&');
    match (ParseDecimal(rest[..k]), ParseOptions(rest[k..]))
    case (Some(n), Some(q)) => Some(q.(size := n))
    case _ => None
  }

  /** Reads "&d=<fallback>&r=<rating>". */
  function ParseOptions(s: string): Option<UrlFields> {
    if !("&d=" <= s) then None else
    var rest := s[3..];
    if '&' !in rest then None else
    var l := LastIndexOf(rest, '&');
    var tail := rest[l..];
    if !("&r=" <= tail) then None else
    Some(UrlFields("", "", 0, rest[..l], tail[3..]))
  }

  /** Splitting a ++ b at the first c, where b starts with c and a has none. */
  lemma SplitFirst(a: string, b: string, c: char)
    requires c !in a && |b| > 0 && b[0] == c
    ensures c in a + b && IndexOf(a + b, c) == |a|
    ensures (a + b)[..|a|] == a && (a + b)[|a|..] == b
  {
    assert (a + b)[|a|] == c;
  }

  /** Splitting a ++ b at the last c, where b starts with c and has no other. */
  lemma SplitLast(a: string, b: string, c: char)
    requires |b| > 0 && b[0] == c && c !in b[1..]
    ensures c in a + b && LastIndexOf(a + b, c) == |a|
    ensures (a + b)[..|a|] == a && (a + b)[|a|..] == b
  {
    assert (a + b)[|a|] == c;
  }

  /** The last two fields are read back from their part of the query. */
  lemma ParseOptionsFormat(q: UrlFields)
    requires '&' !in q.rating
    ensures ParseOptions(OptionsPart(q)) == Some(UrlFields("", "", 0, q.fallback, q.rating))
  {
    var s5 := "&r=" + q.rating;
    var s := OptionsPart(q);
    assert s[3..] == q.fallback + s5;
    assert s5[1..] == "r=" + q.rating;
    SplitLast(q.fallback, s5, '&');
    assert s5[3..] == q.rating;
  }

  /** The size and the options are read back from the query. */
  lemma ParseQueryFormat(q: UrlFields)
    requires '&' !in q.rating
    ensures ParseQuery(QueryPart(q)) == Some(UrlFields("", "", q.size, q.fallback, q.rating))
  {
    var d := Decimal(q.size);
    var s3 := OptionsPart(q);
    var s := QueryPart(q);
    assert s[3..] == d + s3;
    assert '&' !in d by {
      forall i | 0 <= i < |d| ensures d[i] != '&' { assert IsDigit(d[i]); }
    }
    SplitFirst(d, s3, '&');
    DecimalRoundTrip(q.size);
    ParseOptionsFormat(q);
  }

  /** Everything after the protocol is read back. */
  lemma ParsePathFormat(q: UrlFields)
    requires '?' !in q.hash && '&' !in q.rating
    ensures ParsePath(PathPart(q)) == Some(q.(protocol := ""))
  {
    var s1 := QueryPart(q);
    var s := PathPart(q);
    assert Host <= s;
    var rest := s[|Host|..];
    assert rest == q.hash + s1;
    SplitFirst(q.hash, s1, '?');
    ParseQueryFormat(q);
    assert ParseQuery(rest[IndexOf(rest, '?')..]) == Some(UrlFields("", "", q.size, q.fallback, q.rating));
  }

  /** The parser recovers every unambiguous set of fields from its URL. */
  lemma ParseFormat(q: UrlFields)
    requires Unambiguous(q)
    ensures ParseUrl(Format(q)) == Some(q)
  {
    var s0 := PathPart(q);
    assert s0[0] == ':';
    SplitFirst(q.protocol, s0, ':');
    ParsePathFormat(q);
  }

  /** Two unambiguous sets of fields give the same URL only if they are equal. */
  lemma FormatInjective(q: UrlFields, q': UrlFields)
    requires Unambiguous(q) && Unambiguous(q')
    ensures Format(q) == Format(q') <==> q == q'
  {
    if Format(q) == Format(q') {
      ParseFormat(q);
      ParseFormat(q');
    }
  }
}
