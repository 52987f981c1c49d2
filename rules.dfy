/**
 * The fixed rules the setters of Lampcms\Gravatar check their arguments
 * against, and the exceptions they throw when an argument fails.
 */
module Rules {
  import opened Ascii
  import opened AvatarUrl

  /** The SPL exceptions the setters throw. */
  datatype Error = InvalidArgument | OutOfRange | UnexpectedValue

  /** A setter either returns normally or throws. */
  datatype Outcome = Pass | Fail(error: Error)

  /**
   * The argument of setSize, already classified by the caller: a number, or
   * something is_numeric rejects. The text of a NotNumeric is only a label
   * and is never read.
   */
  datatype SizeArg = Number(n: int) | NotNumeric(text: string)

  const Protocols: set<string> := {"http", "https"}
  const Extensions: set<string> := {"jpg", "png", "gif"}
  const Ratings: set<string> := {"g", "pg", "r", "x"}
  const FallbackNames: set<string> := {"identicon", "monsterid", "wavatar", "404"}
  const MinSize: nat := 25
  const MaxSize: nat := 300

  /** Every spelling of a rating that lower-cases into Ratings. */
  const RatingSpellings: set<string> := {"g", "G", "pg", "pG", "Pg", "PG", "r", "R", "x", "X"}

  /** What PHP's hash('md5', ...) returns: 32 lower-case hexadecimal digits. */
  predicate IsHexDigest(s: string) {
    |s| == 32 && forall i :: 0 <= i < |s| ==> IsLowerHex(s[i])
  }

  /** One of 0-9 or a-f. */
  predicate IsLowerHex(c: char) {
    '0' <= c <= '9' || 'a' <= c <= 'f'
  }

  type HexDigest = s: string | IsHexDigest(s) witness "00000000000000000000000000000000"

  /** A fallback is a URL starting with "http" or one of the named generators. */
  predicate ValidFallback(f: string) {
    "http" <= f || f in FallbackNames
  }

  function CheckProtocol(p: string): (r: Outcome)
    ensures r.Pass? <==> p in Protocols
    ensures r.Fail? ==> r.error == InvalidArgument
  {
    if p in Protocols then Pass else Fail(InvalidArgument)
  }

  function CheckExt(e: string): (r: Outcome)
    ensures r.Pass? <==> e in Extensions
    ensures r.Fail? ==> r.error == InvalidArgument
  {
    if e in Extensions then Pass else Fail(InvalidArgument)
  }

  /** The rating is compared after lower-casing. */
  function CheckRating(s: string): (r: Outcome)
    ensures r.Pass? <==> s in RatingSpellings
    ensures r.Fail? ==> r.error == InvalidArgument
  {
    RatingAcceptsExactly(s);
    if Lower(s) in Ratings then Pass else Fail(InvalidArgument)
  }

  /** Non-numeric input is refused before the range is looked at. */
  function CheckSize(arg: SizeArg): (r: Outcome)
    ensures r.Pass? <==> arg.Number? && MinSize <= arg.n <= MaxSize
    ensures arg.NotNumeric? ==> r == Fail(UnexpectedValue)
    ensures arg.Number? && (arg.n < MinSize || arg.n > MaxSize) ==> r == Fail(OutOfRange)
  {
    match arg
    case NotNumeric(_) => Fail(UnexpectedValue)
    case Number(n) => if n < MinSize as int || n > MaxSize as int then Fail(OutOfRange) else Pass
  }

  function CheckFallback(f: string): (r: Outcome)
    ensures r.Pass? <==> ValidFallback(f)
    ensures r.Pass? <==> (|f| >= 4 && f[..4] == "http") || f in FallbackNames
    ensures r.Fail? ==> r.error == InvalidArgument
  {
    if ValidFallback(f) then Pass else Fail(InvalidArgument)
  }

  lemma LowerCharIs(c: char, d: char)
    requires 'a' <= d <= 'z'
    ensures LowerChar(c) == d <==> c == d || c as int == d as int - 32
  {
  }

  /**
   * setRating accepts exactly the ten spellings of g, pg, r and x that differ
   * only in letter case.
   */
  lemma RatingAcceptsExactly(s: string)
    ensures Lower(s) in Ratings <==> s in RatingSpellings
  {
    if |s| == 1 {
      OneLetterRating(s);
    } else if |s| == 2 {
      TwoLetterRating(s);
    } else {
      assert |Lower(s)| == |s|;
    }
  }

  /** The one-letter ratings g, r and x, in either case. */
  lemma OneLetterRating(s: string)
    requires |s| == 1
    ensures Lower(s) in Ratings <==> s in RatingSpellings
  {
    var c := s[0];
    assert s == [c];
    assert Lower(s) == [LowerChar(c)];
    OneLetterSets(c);
    OneLetterSets(LowerChar(c));
    LowerCharIs(c, 'g');
    LowerCharIs(c, 'r');
    LowerCharIs(c, 'x');
  }

  /** Which one-character strings the two rating sets hold. */
  lemma OneLetterSets(c: char)
    ensures [c] in Ratings <==> c == 'g' || c == 'r' || c == 'x'
    ensures [c] in RatingSpellings <==> c == 'g' || c == 'G' || c == 'r' || c == 'R' || c == 'x' || c == 'X'
  {
  }

  /** The two-letter rating pg, each letter in either case. */
  lemma TwoLetterRating(s: string)
    requires |s| == 2
    ensures Lower(s) in Ratings <==> s in RatingSpellings
  {
    var c, d := s[0], s[1];
    assert s == [c, d];
    assert Lower(s) == [LowerChar(c), LowerChar(d)];
    TwoLetterSets(c, d);
    TwoLetterSets(LowerChar(c), LowerChar(d));
    LowerCharIs(c, 'p');
    LowerCharIs(d, 'g');
  }

  /** Which two-character strings the two rating sets hold. */
  lemma TwoLetterSets(c: char, d: char)
    ensures [c, d] in Ratings <==> c == 'p' && d == 'g'
    ensures [c, d] in RatingSpellings <==> (c == 'p' || c == 'P') && (d == 'g' || d == 'G')
  {
  }

  /** A rating stored by setRating, already lower-cased, passes setRating's check again unchanged. */
  lemma StoredRatingStable(s: string)
    requires Lower(s) in Ratings
    ensures CheckRating(Lower(s)) == Pass && Lower(Lower(s)) == Lower(s)
  {
    LowerIdempotent(s);
  }

  /** The parameters of a valid object, as substituted into the URL. */
  predicate ValidFields(q: UrlFields) {
    q.protocol in Protocols && IsHexDigest(q.hash) && MinSize <= q.size <= MaxSize
    && ValidFallback(q.fallback) && q.rating in Ratings
  }

  /** Valid parameters can always be read back from the URL built from them. */
  lemma ValidFieldsUnambiguous(q: UrlFields)
    requires ValidFields(q)
    ensures Unambiguous(q)
  {
  }
}
