/** Agent configuration (src/config.rs): the `Config` record, its defaults,
    the defaults serde fills in for keys a parsed file leaves out, and the
    environment-variable override step of `load_config`. Locating the
    executable, reading the file, writing the template and parsing TOML are
    inputs: their outcome arrives as a `ConfigSource`. */
module Configuration {
  import opened Wrappers
  import opened Strings

  const U64Limit := 0x1_0000_0000_0000_0000

  type U64 = x: int | 0 <= x < U64Limit

  datatype Config = Config(apiUrl: Option<string>, intervalSeconds: U64, tlsInsecure: bool)

  /** `default_interval` */
  function DefaultInterval(): U64 {
    1800
  }

  /** `Config::default()` */
  function Default(): Config {
    Config(None, DefaultInterval(), false)
  }

  lemma DefaultValues()
    ensures Default().apiUrl == None
    ensures Default().intervalSeconds == 1800
    ensures !Default().tlsInsecure
  {
  }

  // ---------------------------------------------------------------- the file

  /** The keys a well-typed `config.toml` holds; `None` is a key the file leaves out. */
  datatype TomlTable = TomlTable(apiUrl: Option<string>, intervalSeconds: Option<U64>, tlsInsecure: Option<bool>)

  /** The derived `Deserialize` with `#[serde(default)]` and
      `#[serde(default = "default_interval")]`. */
  function FromToml(t: TomlTable): (c: Config) {
    Config(t.apiUrl, t.intervalSeconds.GetOr(DefaultInterval()), t.tlsInsecure.GetOr(false))
  }

  /** Keys the file leaves out take their defaults; keys it gives are kept. */
  lemma FromTomlDefaults(t: TomlTable)
    ensures FromToml(t).apiUrl == t.apiUrl
    ensures t.intervalSeconds.None? ==> FromToml(t).intervalSeconds == 1800
    ensures t.intervalSeconds.Some? ==> FromToml(t).intervalSeconds == t.intervalSeconds.value
    ensures t.tlsInsecure.None? ==> !FromToml(t).tlsInsecure
    ensures t.tlsInsecure.Some? ==> FromToml(t).tlsInsecure == t.tlsInsecure.value
    ensures FromToml(TomlTable(None, None, None)) == Default()
  {
  }

  /** What `load_config` finds before the environment is consulted. */
  datatype ConfigSource =
    | ExeDirUnknown                   // `exe_dir()` failed
    | NoFile(templateWritten: bool)   // no config.toml; whether the template could be written
    | Unreadable                      // the file exists but cannot be read
    | Malformed                       // the file is not a well-typed TOML table
    | Parsed(table: TomlTable)

  datatype ConfigError = ExeDirFailed | TemplateWriteFailed | ReadFailed | ParseFailed

  /** The configuration before environment overrides: the parsed file, or the
      defaults when there is no file and the template was written. */
  function FileConfig(source: ConfigSource): Result<Config, ConfigError> {
    match source
    case ExeDirUnknown => Failure(ExeDirFailed)
    case NoFile(written) => if written then Success(Default()) else Failure(TemplateWriteFailed)
    case Unreadable => Failure(ReadFailed)
    case Malformed => Failure(ParseFailed)
    case Parsed(t) => Success(FromToml(t))
  }

  // ---------------------------------------------------------------- parsing

  /** The digits `str::parse::<u64>` reads: one leading `+` is skipped. */
  function UnsignedDigits(s: string): string {
    if |s| > 0 && s[0] == '+' then s[1..] else s
  }

  /** `str::parse::<u64>`: an optional `+`, then at least one ASCII digit, and a
      value below 2^64. Empty input, a lone `+`, a sign `-`, any other
      character and overflow are errors. */
  function ParseU64(s: string): Option<U64> {
    var digits := UnsignedDigits(s);
    if |digits| == 0 || !AllDigits(digits) then None
    else if DigitsValue(digits) < U64Limit then Some(DigitsValue(digits))
    else None
  }

  /** Every `u64` is read back from its decimal text, with or without a `+`. */
  lemma ParseU64OfDecimal(n: U64)
    ensures ParseU64(ToDecimal(n)) == Some(n)
    ensures ParseU64("+" + ToDecimal(n)) == Some(n)
  {
    assert ("+" + ToDecimal(n))[1..] == ToDecimal(n);
  }

  /** What `parse::<u64>` refuses: the empty string, a lone `+`, a leading `-`,
      and the text of any value past the range. */
  lemma ParseU64Rejects(s: string, n: nat)
    ensures ParseU64("") == None && ParseU64("+") == None
    ensures |s| > 0 && s[0] == '-' ==> ParseU64(s) == None
    ensures n >= U64Limit ==> ParseU64(ToDecimal(n)) == None
  {
    if |s| > 0 && s[0] == '-' {
      assert !IsDigit(UnsignedDigits(s)[0]);
    }
    var t := ToDecimal(n);
    assert IsDigit(t[0]);
  }

  /** An accepted text is an optional `+` followed by nothing but digits whose
      value is the result. */
  lemma ParseU64Accepts(s: string)
    requires ParseU64(s).Some?
    ensures |s| > 0
    ensures forall i :: (if s[0] == '+' then 1 else 0) <= i < |s| ==> IsDigit(s[i])
    ensures (s[0] == '+' ==> |s| > 1) && DigitsValue(UnsignedDigits(s)) == ParseU64(s).value
  {
    var d := UnsignedDigits(s);
    var off := if s[0] == '+' then 1 else 0;
    assert forall i :: off <= i < |s| ==> s[i] == d[i - off];
  }

  // ---------------------------------------------------------------- ASCII flag

  /** `insecure.eq_ignore_ascii_case("true")`. The byte-wise Rust comparison and
      this character-wise one agree, because every byte of a non-ASCII character
      is above 0x7F and can never equal an ASCII letter. */
  predicate IsTrueFlag(s: string) {
    EqIgnoreAsciiCase(s, "true")
  }

  /** The flag is set by exactly the sixteen upper/lower-case spellings of `true`. */
  lemma TrueFlagSpellings(s: string)
    ensures IsTrueFlag(s) <==>
              |s| == 4 && (s[0] == 't' || s[0] == 'T') && (s[1] == 'r' || s[1] == 'R')
              && (s[2] == 'u' || s[2] == 'U') && (s[3] == 'e' || s[3] == 'E')
  {
    if |s| == 4 {
      assert AsciiLower("true"[0]) == 't' && AsciiLower("true"[1]) == 'r';
      assert AsciiLower("true"[2]) == 'u' && AsciiLower("true"[3]) == 'e';
      if IsTrueFlag(s) {
        assert AsciiLower(s[0]) == 't' && AsciiLower(s[1]) == 'r';
        assert AsciiLower(s[2]) == 'u' && AsciiLower(s[3]) == 'e';
      }
    }
  }

  // ---------------------------------------------------------------- load_config

  /** The three variables as `std::env::var` reports them; `None` covers both
      "not present" and "not valid Unicode", which the code treats alike. */
  datatype Environment = Environment(
    apiUrl: Option<string>,            // INVENTORY_API_URL
    intervalSeconds: Option<string>,   // INVENTORY_INTERVAL_SECONDS
    tlsInsecure: Option<string>)       // INVENTORY_TLS_INSECURE

  /** `load_config`: take the file configuration (or its error), then overwrite
      `api_url`, `interval_seconds` and `tls_insecure` in turn from the environment. */
  method LoadConfig(source: ConfigSource, env: Environment) returns (r: Result<Config, ConfigError>)
    ensures FileConfig(source).Failure? ==> r == FileConfig(source)
    ensures FileConfig(source).Success? ==> r.Success?
    ensures r.Success? ==>
      var base := FileConfig(source).value;
      && r.value.apiUrl == (if env.apiUrl.Some? then Some(env.apiUrl.value) else base.apiUrl)
      && r.value.intervalSeconds ==
           (if env.intervalSeconds.Some? && ParseU64(env.intervalSeconds.value).Some?
            then ParseU64(env.intervalSeconds.value).value else base.intervalSeconds)
      && r.value.tlsInsecure ==
           (if env.tlsInsecure.Some? then IsTrueFlag(env.tlsInsecure.value) else base.tlsInsecure)
    ensures env == Environment(None, None, None) ==> r == FileConfig(source)
    ensures source.NoFile? && source.templateWritten && env == Environment(None, None, None) ==> r == Success(Default())
  {
    var loaded := FileConfig(source);
    if loaded.Failure? {
      return loaded;
    }
    var config := loaded.value;
    if env.apiUrl.Some? {
      config := config.(apiUrl := Some(env.apiUrl.value));
    }
    if env.intervalSeconds.Some? {
      var parsed := ParseU64(env.intervalSeconds.value);
      if parsed.Some? {
        config := config.(intervalSeconds := parsed.value);
      }
    }
    if env.tlsInsecure.Some? {
      config := config.(tlsInsecure := IsTrueFlag(env.tlsInsecure.value));
    }
    return Success(config);
  }
}
