# Lampcms Gravatar, modelled in Dafny

This project models `Lampcms\Gravatar`, the LampCMS class that looks up the
avatar registered for an email address with the Gravatar web service. The
class keeps a set of request parameters, each guarded by a setter that checks
it against a fixed rule: email, protocol, image extension, rating, size and
fallback. It also keeps the MD5 hash of the lower-cased email. It builds the
lookup URL
`<protocol>://www.gravatar.com/avatar/<hash>?s=<size>&d=<fallback>&r=<rating>`
lazily, performs one HTTP fetch and classifies the outcome with the flag
`gravatarExists`: unset before any fetch, then `Y`, `N` or `U`. A static
factory validates the email and hands back a stub where curl is missing.

Modules:

- `Base`: `Option`, `byte`, `Bytes`.
- `Ascii`: PHP's `strtolower` on ASCII (`Lower`). It also holds the decimal rendering of the size (`Decimal`) with its inverse `ParseDecimal`.
- `AvatarUrl`: the `BASE_URL` template filled in without escaping (`Format`) and a parser `ParseUrl` that reads the five fields back.
- `Rules`: the setters' rules, the SPL exceptions they throw and the `HexDigest` type of an MD5 digest.
- `Lampcms`: the class `Gravatar` and its static `Factory`. Each object property is a field. `State()` gives all of them as one `Snapshot` value, and `Valid()` is the object invariant.
- `Scenarios`: client methods that drive an object through a sequence of calls and state what the sequence does, using only the class's contracts.

Foreign calls are inputs. `FILTER_VALIDATE_EMAIL` is the predicate `isEmail`
and `hash('md5', ...)` is the function `md5Hex`; both are `const` fields given
to the constructor and the factory. MD5 (RFC 1321) is not computed: `md5Hex`
is only known to return 32 lower-case hex digits. The `Curl` collaborator is a
`Transport` parameter of the fetching methods. It maps `(url, since, etag)` to
one of three responses: `Fetched(body)`, `NotFound` (an `Http404Exception`)
or `OtherFailure` (any other Lampcms exception). The curl probes
`function_exists('curl_init')` and `extension_loaded('curl')` are the boolean
`curl` given to `Factory`. A thrown exception is an `Outcome` of `Fail(error)`.
The `d(...)` logging calls have no effect in the model.

Behaviours of the code worth knowing, all of which the model keeps:

- A successful response sets `Y` and stores the body even when the body is empty. The class's doc comment (lib/Lampcms/Gravatar.php:145-147) says an empty body gives `U`, but line 421 sets `Y` whenever `checkResponse` does not throw.
- A non-numeric size throws `UnexpectedValue`, and a numeric size outside 25..300 throws `OutOfRange`.
- `N` and `U` leave any earlier image in place. `getGravatar` returns null only for `N`. On `U` it returns whatever image is retained, which may be unset or left over from an earlier fetch.
- Only `setEmail` forgets the cached URL. A size, fallback, rating or protocol set after the URL was built does not reach `fetchGravatar`'s request. `Scenarios.SizeChangeAfterBuild` shows this.

## Model

| member | source | states |
|---|---|---|
| `Ascii.Lower` | lib/Lampcms/Gravatar.php:226 | strtolower keeps the length and lower-cases each character on its own ('A'..'Z' only) |
| `Ascii.LowerCharMatches` | lib/Lampcms/Gravatar.php:226 | two characters lower-case alike exactly when they are equal or the two cases of one ASCII letter |
| `Ascii.LowerMatchesIgnoringCase` | lib/Lampcms/Gravatar.php:226 | two strings lower-case to the same text exactly when, position by position, they are equal or the two cases of one ASCII letter, so such emails share one hash |
| `Ascii.LowerIdempotent` | lib/Lampcms/Gravatar.php:293 | lower-casing an already lower-cased string changes nothing |
| `Rules.StoredRatingStable` | lib/Lampcms/Gravatar.php:293-299 | a rating stored by setRating is its own lower-case form and passes setRating's check again |
| `Ascii.Decimal` | lib/Lampcms/Gravatar.php:364 | the size is rendered as a non-empty string of decimal digits |
| `Ascii.ParseDecimal` | lib/Lampcms/Gravatar.php:364 | a string has a decimal value exactly when it is a non-empty string of digits |
| `Ascii.DecimalRoundTrip` | lib/Lampcms/Gravatar.php:364 | reading back the rendered size gives the size |
| `AvatarUrl.Format` | lib/Lampcms/Gravatar.php:364 | the URL is protocol + "://www.gravatar.com/avatar/" + hash + "?s=" + size + "&d=" + fallback + "&r=" + rating, without escaping: it starts with the protocol, host path, hash and "?s=" and ends with "&r=" and the rating |
| `AvatarUrl.ParseFormat` | lib/Lampcms/Gravatar.php:66 | the URL filled from BASE_URL can be read back into the protocol, hash, size, fallback and rating it was built from, whatever the unescaped fallback contains |
| `AvatarUrl.FormatInjective` | lib/Lampcms/Gravatar.php:362-367 | two sets of delimiter-free parameters give the same URL if and only if they are equal: the URL is a function of its fields and determines them |
| `Rules.CheckProtocol` | lib/Lampcms/Gravatar.php:245-248 | accepts exactly "http" and "https", case-sensitively; otherwise InvalidArgument |
| `Rules.CheckExt` | lib/Lampcms/Gravatar.php:270-273 | accepts exactly "jpg", "png" and "gif", case-sensitively; otherwise InvalidArgument |
| `Rules.CheckRating` | lib/Lampcms/Gravatar.php:292-297 | accepts exactly the ten letter-case spellings of g, pg, r and x; otherwise InvalidArgument |
| `Rules.RatingAcceptsExactly` | lib/Lampcms/Gravatar.php:292-295 | the lower-cased rating is one of g, pg, r, x if and only if the input is one of its ten case variants |
| `Rules.OneLetterRating` | lib/Lampcms/Gravatar.php:292-295 | a one-character rating is accepted exactly when it is g, r or x in either case |
| `Rules.TwoLetterRating` | lib/Lampcms/Gravatar.php:292-295 | a two-character rating is accepted exactly when it is pg with each letter in either case |
| `Rules.CheckSize` | lib/Lampcms/Gravatar.php:317-324 | non-numeric gives UnexpectedValue, a number outside 25..300 gives OutOfRange, and exactly the numbers 25..300 pass |
| `Rules.CheckFallback` | lib/Lampcms/Gravatar.php:346-349 | passes exactly a string whose first four characters are "http" or one of identicon, monsterid, wavatar, 404; otherwise InvalidArgument |
| `Rules.ValidFieldsUnambiguous` | lib/Lampcms/Gravatar.php:364 | valid parameters contain none of the URL's delimiters where the parser needs them absent (no ':' in the protocol, no '?' in an MD5 digest, no '&' in a rating) |
| `Lampcms.Classify` | lib/Lampcms/Gravatar.php:417-430 | the flag is 'Y' exactly for a response with a body and 'N' exactly for a 404; everything else is 'U' |
| `Lampcms.Absorb` | lib/Lampcms/Gravatar.php:417-430 | a fetch always sets the flag; only a body sets the image and the stored response; no other property changes; the failure branches keep the old image |
| `Lampcms.Returned` | lib/Lampcms/Gravatar.php:452-456 | getGravatar answers null on 'N' and the stored image on every other flag |
| `Lampcms.Gravatar.Valid` | lib/Lampcms/Gravatar.php:219-231 | the object invariant, grouped as `ParametersValid`, `UrlValid` and `CacheValid`: every parameter passed its setter, the hash is that of the lower-cased email, a flag is set only with a URL, Y only with an image, and a cached URL carries the current email's hash |
| `Lampcms.Gravatar.constructor` | lib/Lampcms/Gravatar.php:166-170 | a new object has the property defaults (http, jpg, 75, g, wavatar), the given email and its lower-case hash, and a URL, image and flag that are all unset |
| `Lampcms.Gravatar.CachedUrlCarriesHash` | lib/Lampcms/Gravatar.php:362-367 | a cached URL, however stale its other parameters, parses back to the current email's hash and a set of valid parameters |
| `Lampcms.Gravatar.SetEmail` | lib/Lampcms/Gravatar.php:219-231 | an invalid email throws InvalidArgument and changes nothing; a valid one stores the email and the MD5 of its lower-cased form and unsets url, gravatar and gravatarExists, nothing else |
| `Lampcms.Gravatar.StoreEmail` | lib/Lampcms/Gravatar.php:225-228 | the assignments of setEmail after its check: the email and the MD5 of its lower-cased form are stored and url, gravatar and gravatarExists are unset; nothing else changes |
| `Lampcms.Gravatar.SetProtocol` | lib/Lampcms/Gravatar.php:243-253 | only "http" or "https" is stored, else InvalidArgument with nothing changed |
| `Lampcms.Gravatar.SetExt` | lib/Lampcms/Gravatar.php:268-278 | only "jpg", "png" or "gif" is stored, else InvalidArgument; the URL parameters never change |
| `Lampcms.Gravatar.SetRating` | lib/Lampcms/Gravatar.php:290-302 | a case variant of g, pg, r or x is stored lower-cased, anything else throws InvalidArgument with nothing changed |
| `Lampcms.Gravatar.SetSize` | lib/Lampcms/Gravatar.php:315-329 | non-numeric throws UnexpectedValue, outside 25..300 throws OutOfRange, otherwise the size is stored; nothing else changes |
| `Lampcms.Gravatar.SetFallback` | lib/Lampcms/Gravatar.php:344-354 | an "http…" string or a named generator is stored, anything else throws InvalidArgument with the fallback unchanged |
| `Lampcms.Gravatar.SetAvatarUrl` | lib/Lampcms/Gravatar.php:362-367 | url becomes the template filled with the current protocol, hash, size, fallback and rating; nothing else changes and the ext plays no part |
| `Lampcms.Gravatar.FetchGravatar` | lib/Lampcms/Gravatar.php:408-433 | the URL is built only when unset; the request goes to the cached URL; the outcome sets Y/N/U and, on a body only, the image |
| `Lampcms.Gravatar.Record` | lib/Lampcms/Gravatar.php:417-430 | the try block of fetchGravatar: a body is stored as image and response with 'Y'; a 404 gives 'N' and any other failure 'U', both keeping the old image; the object stays valid |
| `Lampcms.Gravatar.HasGravatar` | lib/Lampcms/Gravatar.php:391-398 | the fallback becomes 404 and the size 25 and stay so; the URL is rebuilt from them; one fetch runs; the flag it set is returned |
| `Lampcms.Gravatar.GetGravatar` | lib/Lampcms/Gravatar.php:445-457 | fetches only when the flag is unset; returns null on 'N', the stored image otherwise, and an image whenever the flag is 'Y' |
| `Lampcms.Gravatar.Factory` | lib/Lampcms/Gravatar.php:186-204 | an invalid email throws InvalidArgument before curl is looked at; without curl the stub; otherwise setSize, setRating, setFallback in that order, the first failure thrown; on success a valid fresh object with those values |
| `Scenarios.InvalidEmailRefused` | lib/Lampcms/Gravatar.php:188-190 | factory("not-an-email") throws InvalidArgument whether or not curl is present |
| `Scenarios.NoCurlGivesStub` | lib/Lampcms/Gravatar.php:192-196 | without curl a valid email gets the stub even with invalid size, fallback and rating |
| `Scenarios.SizeCheckedFirst` | lib/Lampcms/Gravatar.php:198-201 | with size, rating and fallback all invalid, the size's OutOfRange is the one thrown |
| `Scenarios.MakeDefault` | lib/Lampcms/Gravatar.php:186-204 | factory(email) with its default size 75, fallback wavatar and rating g, where curl is present, builds an object in the constructor's default state for that email |
| `Scenarios.FoundAvatar` | lib/Lampcms/Gravatar.php:445-457 | a 200 response makes getGravatar return the body, and a second call returns it from the cache even if the network now fails |
| `Scenarios.MissingAvatar` | lib/Lampcms/Gravatar.php:426-429 | a 404 response sets 'N' and getGravatar returns null |
| `Scenarios.UnreachableService` | lib/Lampcms/Gravatar.php:424-425 | a failure on a fresh object sets 'U' and getGravatar returns nothing |
| `Scenarios.StaleImageOnUnknown` | lib/Lampcms/Gravatar.php:424-456 | after a successful fetch, a failing one sets 'U' yet getGravatar still returns the earlier image without fetching |
| `Scenarios.SizeChangeAfterBuild` | lib/Lampcms/Gravatar.php:413-415 | a size set after the URL was built does not reach the request: the cached URL is reused |
| `Scenarios.EmailChangeRebuilds` | lib/Lampcms/Gravatar.php:228 | after a new email the next fetch builds the URL with the new email's hash |
| `Scenarios.HasGravatarOverrides` | lib/Lampcms/Gravatar.php:393-395 | hasGravatar requests size 25 and fallback 404 whatever was set before, and leaves both set |
| `Scenarios.CaseInsensitiveHash` | lib/Lampcms/Gravatar.php:226 | replacing the email by a case variant keeps the hash |

## Left out

- Transport: the `Curl` class, `getDocument` and `checkResponse` are not part of this model. Their effect is the `Transport` function's response, and the since and etag arguments are passed through to it unchanged.
- `oResponse` is modelled by the response body it holds (`response`), not by the response object.
- Exceptions that are not Lampcms exceptions escape `fetchGravatar`'s catch, because unqualified `Exception` resolves to `Lampcms\Exception`. They are not modelled: every failure of the transport is a Lampcms one here.
- `FILTER_VALIDATE_EMAIL` and the MD5 digest are foreign calls. They are the uninterpreted inputs `isEmail` and `md5Hex`.
- The stub class is not part of this model. `Factory` returns `Stub` with no behaviour of its own.
- PHP's loose comparisons are not modelled. `in_array` compares loosely, for example `"404.0"` equals `"404"`. `is_numeric` accepts float strings and `setSize` stores the raw input text. The model uses exact string membership and an integer-or-non-numeric size argument, and it stores and renders the integer.
- `strtolower` is modelled as the ASCII-only lower-casing of current PHP. A locale-dependent `strtolower` of older PHP releases is not modelled.
- The protected getter `getUrl` returns `url` unchanged and is never called by the class, so it has no member of its own.
- PHP's default arguments are passed explicitly in the model. These are `factory`'s size '75', fallback 'wavatar' and rating 'g', `setProtocol`'s 'http', and `fetchGravatar`'s null since and etag. `Scenarios.MakeDefault` is the factory call with its defaults.
- The constructor is the protected one called only after `factory` has validated the email. It requires a valid email instead of throwing.
