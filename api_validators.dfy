/**
 * `api/validators.py`: the `location` argument of the servers list.
 * The iso3166 table of two-letter country codes is the parameter
 * `countries`, in upper case. The pattern is anchored by `match` at the
 * start and by `$` at the end, and `$` also matches just before a final
 * newline, so one trailing `"\n"` is accepted and kept.
 */
module ApiValidators {
  import opened Wrappers
  import Text
  import RwrConstants

  /** The messages of the `ValueError`s `location` raises. */
  const InvalidFormat := "Invalid format"
  const InvalidCountry := "Invalid country code"
  const InvalidContinent := "Invalid continent code"

  /** `[a-zA-Z]`. */
  predicate IsAsciiLetter(c: char)
  {
    ('a' <= c <= 'z') || ('A' <= c <= 'Z')
  }

  predicate IsCode(s: string)
  {
    |s| == 2 && IsAsciiLetter(s[0]) && IsAsciiLetter(s[1])
  }

  /** The three alternatives of the pattern and their groups. */
  datatype Location =
    | Any
    | Single(code: string)
    | Typed(locationType: string, code: string)

  /** The text the alternatives have to cover: the value without one final newline. */
  function Body(value: string): (r: string)
    ensures value == r || value == r + "\n"
  {
    if |value| > 0 && value[|value| - 1] == '\n' then value[..|value| - 1] else value
  }

  /** `_location_regex.match(value)`: the alternative that covers the body, if any. */
  function MatchLocation(value: string): (r: Option<Location>)
    ensures r == Some(Any) <==> Body(value) == "any"
    ensures r.Some? && r.value.Single? <==> Body(value) != "any" && IsCode(Body(value))
    ensures r.Some? && r.value.Single? ==> r.value.code == Body(value)
    ensures r.Some? && r.value.Typed? ==> r.value.locationType == "country" || r.value.locationType == "continent"
    ensures r.Some? && r.value.Typed? ==> IsCode(r.value.code) && Body(value) == r.value.locationType + ":" + r.value.code
  {
    var body := Body(value);
    if body == "any" then Some(Any)
    else if IsCode(body) then Some(Single(body))
    else if |body| == 10 && body[..8] == "country:" && IsCode(body[8..]) then
      assert body == "country" + ":" + body[8..];
      Some(Typed("country", body[8..]))
    else if |body| == 12 && body[..10] == "continent:" && IsCode(body[10..]) then
      assert body == "continent" + ":" + body[10..];
      Some(Typed("continent", body[10..]))
    else None
  }

  /** Every form the pattern describes is matched as that form. */
  lemma MatchTyped(locationType: string, code: string, newline: bool)
    requires locationType == "country" || locationType == "continent"
    requires IsCode(code)
    ensures MatchLocation(locationType + ":" + code + (if newline then "\n" else "")) == Some(Typed(locationType, code))
  {
    var body := locationType + ":" + code;
    assert Body(body + (if newline then "\n" else "")) == body;
    if locationType == "country" {
      assert body[..8] == "country:" && body[8..] == code;
    } else {
      assert body[..10] == "continent:" && body[10..] == code;
      assert |body| != 10;
    }
  }

  /** `location`: the value unchanged, or the message of the `ValueError` it raises. */
  function CheckLocation(value: string, countries: set<string>): (r: Result<string, string>)
    ensures r.Success? ==> r.value == value
    ensures MatchLocation(value).None? ==> r == Failure(InvalidFormat)
    ensures Body(value) == "any" ==> r == Success(value)
  {
    match MatchLocation(value)
    case None => Failure(InvalidFormat)
    case Some(Any) => Success(value)
    case Some(Single(code)) =>
      if Text.Upper(code) !in countries then Failure(InvalidCountry) else Success(value)
    case Some(Typed(locationType, code)) =>
      if locationType == "continent" && Text.Lower(code) !in RwrConstants.ValidContinents then Failure(InvalidContinent)
      else if locationType == "country" && Text.Upper(code) !in countries then Failure(InvalidCountry)
      else Success(value)
  }

  /** A bare code is accepted exactly when it is a known country once upper-cased. */
  lemma SingleCode(code: string, countries: set<string>)
    requires IsCode(code) && code != "any"
    ensures CheckLocation(code, countries).Success? <==> Text.Upper(code) in countries
    ensures CheckLocation(code, countries).Failure? ==> CheckLocation(code, countries).error == InvalidCountry
  {
    assert Body(code) == code;
  }

  /** A typed code is accepted exactly when it is known for its type. */
  lemma TypedCode(locationType: string, code: string, countries: set<string>)
    requires locationType == "country" || locationType == "continent"
    requires IsCode(code)
    ensures var r := CheckLocation(locationType + ":" + code, countries);
      (r.Success? <==> if locationType == "continent" then Text.Lower(code) in RwrConstants.ValidContinents
                       else Text.Upper(code) in countries)
      && (r.Failure? ==> r.error == (if locationType == "continent" then InvalidContinent else InvalidCountry))
  {
    MatchTyped(locationType, code, false);
    assert locationType + ":" + code + "" == locationType + ":" + code;
  }

  /** A final newline is accepted and kept, as `$` allows it. */
  lemma TrailingNewlineKept(countries: set<string>)
    ensures CheckLocation("any\n", countries) == Success("any\n")
    ensures CheckLocation("any\n\n", countries) == Failure(InvalidFormat)
  {
    assert Body("any\n") == "any";
    assert Body("any\n\n") == "any\n";
  }
}
