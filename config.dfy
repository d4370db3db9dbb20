/**
 * The configuration helpers: reading a variable from the environment, reading it as a flag or
 * an integer, and rewriting the `postgres://` scheme some hosts hand out to the one SQLAlchemy
 * accepts. The environment is a map from variable names to values.
 */
module Config {
  import opened Wrappers
  import opened Text

  /** The process environment: a variable that is not set has no entry. */
  type Env = map<string, string>

  /** `_getenv`: the variable's value, or `default` when it is unset or empty. */
  function GetEnv(env: Env, key: string, default: Option<string>): (r: Option<string>)
    ensures key in env && env[key] != "" ==> r == Some(env[key])
    ensures key !in env || env[key] == "" ==> r == default
  {
    if key in env && env[key] != "" then Some(env[key]) else default
  }

  /** An empty value is never returned unless it is the default. */
  lemma GetEnvNotEmpty(env: Env, key: string, default: Option<string>)
    ensures GetEnv(env, key, default) == Some("") ==> default == Some("")
    ensures GetEnv(env, key, default).None? ==> default.None?
  {
  }

  /** The spellings `_as_bool` reads as true. */
  const TrueWords: set<string> := {"1", "true", "yes", "y", "on"}

  /** `_as_bool`: `default` for no value; otherwise whether the stripped, lower-cased value is
      one of the true spellings, whatever `default` is. */
  function AsBool(value: Option<string>, default: bool): (b: bool)
  {
    match value
    case None => default
    case Some(v) => Lower(Trim(v)) in TrueWords
  }

  /** The default only matters when there is no value; a value is read up to surrounding
      whitespace and letter case. */
  lemma AsBoolSpec(value: Option<string>, default: bool)
    ensures value.None? ==> AsBool(value, default) == default
    ensures value.Some? ==> AsBool(value, true) == AsBool(value, false)
    ensures value.Some? ==> (AsBool(value, default) <==> Lower(Trim(value.value)) in TrueWords)
    ensures value.Some? ==> AsBool(Some(Lower(Trim(value.value))), default) == AsBool(value, default)
  {
    if value.Some? {
      var v := value.value;
      TrimLowerCommute(Trim(v));
      TrimIdempotent(v);
      LowerIdempotent(Trim(v));
      assert Lower(Trim(Lower(Trim(v)))) == Lower(Trim(v)) by {
        assert Trim(Lower(Trim(v))) == Lower(Trim(Trim(v)));
      }
    }
  }

  /** An unset variable reads as `False` by default, and the empty string is false. */
  lemma AsBoolExamples()
    ensures !AsBool(Some(""), true)
    ensures AsBool(None, true)
  {
    assert Trim("") == "";
    assert Lower("") == "";
  }

  /** `_as_int`: `default` for no value or the empty string, otherwise `int(value)`; a value
      `int` refuses raises `ValueError`, here `None`. */
  function AsInt(value: Option<string>, default: int): (r: Option<int>)
    ensures value.None? || value == Some("") ==> r == Some(default)
    ensures value.Some? && value != Some("") ==> r == ParseInt(value.value)
  {
    if value.None? || value.value == "" then Some(default) else ParseInt(value.value)
  }

  /** A printed integer reads back as itself, whatever the default. */
  lemma AsIntOfPrinted(n: int, default: int)
    ensures AsInt(Some(IntToString(n)), default) == Some(n)
  {
    ParseIntToString(n);
  }

  const PostgresScheme := "postgres://"
  const PostgresqlScheme := "postgresql://"

  /** `_normalize_db_url`. */
  function NormalizeDbUrl(url: string): (r: string)
  {
    if StartsWith(url, PostgresScheme) then ReplaceFirst(url, PostgresScheme, PostgresqlScheme)
    else url
  }

  /** A leading `postgres://` becomes `postgresql://` and the rest of the URL is kept; any other
      URL is returned unchanged. */
  lemma NormalizeDbUrlSpec(url: string)
    ensures StartsWith(url, PostgresScheme)
            ==> NormalizeDbUrl(url) == PostgresqlScheme + url[|PostgresScheme|..]
    ensures !StartsWith(url, PostgresScheme) ==> NormalizeDbUrl(url) == url
  {
  }

  /** Rewriting twice is rewriting once: a rewritten URL starts with `postgresql://`, which does
      not start with `postgres://`. */
  lemma NormalizeDbUrlIdempotent(url: string)
    ensures NormalizeDbUrl(NormalizeDbUrl(url)) == NormalizeDbUrl(url)
  {
    NormalizeDbUrlSpec(url);
    var r := NormalizeDbUrl(url);
    if StartsWith(url, PostgresScheme) {
      assert r[8] == 'q' && PostgresScheme[8] == ':';
    }
    NormalizeDbUrlSpec(r);
  }
}
