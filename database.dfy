/**
 * How the storage connection is configured at import time
 * (todo_app/database.py): the DATABASE_URL environment value, with a SQLite
 * default, the `postgres://` alias rewritten to the `postgresql://` scheme
 * SQLAlchemy accepts, and the extra driver argument SQLite needs.
 */
module Database {
  import opened Wrappers

  /** URL used when DATABASE_URL is not set: a SQLite file in the working directory. */
  const DefaultUrl: string := "sqlite:///./todos.db"
  /** The short scheme alias that is rewritten. */
  const ShortPostgresScheme: string := "postgres://"
  /** The scheme it is rewritten to. */
  const PostgresScheme: string := "postgresql://"
  /** Prefix that selects the SQLite driver arguments. */
  const SqlitePrefix: string := "sqlite"
  /** The one driver argument ever passed. */
  const CheckSameThread: string := "check_same_thread"

  /** Python's `s.startswith(prefix)`. */
  predicate StartsWith(s: string, prefix: string) {
    prefix <= s
  }

  /** `pat` occurs in `s` starting at index `i`. */
  predicate OccursAt(s: string, pat: string, i: nat) {
    i + |pat| <= |s| && s[i..i + |pat|] == pat
  }

  /** Occurrences in a non-empty string past index 0 are occurrences in its tail. */
  lemma OccursAtShift(s: string, pat: string)
    requires |s| > 0
    ensures forall j: nat :: 1 <= j ==> (OccursAt(s, pat, j) <==> OccursAt(s[1..], pat, j - 1))
  {
    forall j: nat | 1 <= j
      ensures OccursAt(s, pat, j) <==> OccursAt(s[1..], pat, j - 1)
    {
      if j + |pat| <= |s| {
        var here, there := s[j..j + |pat|], s[1..][j - 1..j - 1 + |pat|];
        forall k | 0 <= k < |pat|
          ensures here[k] == there[k]
        {
          assert s[1..][j - 1 + k] == s[j + k];
        }
        assert here == there;
      }
    }
  }

  /** Python's `s.find(pat)`: the lowest index where `pat` occurs, if any. */
  function FindFirst(s: string, pat: string): (r: Option<nat>)
    ensures r.Some? ==> OccursAt(s, pat, r.value)
    ensures r.Some? ==> forall j: nat :: j < r.value ==> !OccursAt(s, pat, j)
    ensures r.None? ==> forall j: nat :: !OccursAt(s, pat, j)
    decreases |s|
  {
    assert OccursAt(s, pat, 0) <==> StartsWith(s, pat);
    if StartsWith(s, pat) then Some(0)
    else if |s| == 0 then None
    else
      OccursAtShift(s, pat);
      match FindFirst(s[1..], pat)
      case None => None
      case Some(i) => Some(i + 1)
  }

  /** Python's `s.replace(pat, repl, 1)`: only the first occurrence is replaced. */
  function ReplaceFirst(s: string, pat: string, repl: string): (r: string)
    ensures FindFirst(s, pat).None? ==> r == s
    ensures FindFirst(s, pat).Some? ==>
      var i := FindFirst(s, pat).value;
      && (forall j: nat :: j < i ==> !OccursAt(s, pat, j))
      && r == s[..i] + repl + s[i + |pat|..]
  {
    match FindFirst(s, pat)
    case None => s
    case Some(i) => s[..i] + repl + s[i + |pat|..]
  }

  /** Replacing a prefix swaps it for `repl` and keeps the remainder verbatim. */
  lemma ReplaceFirstAtPrefix(s: string, pat: string, repl: string)
    requires StartsWith(s, pat)
    ensures ReplaceFirst(s, pat, repl) == repl + s[|pat|..]
  {
  }

  /** `os.getenv("DATABASE_URL", DefaultUrl)`: a set value, even an empty one, wins. */
  function DatabaseUrl(env: Option<string>): (url: string)
    ensures env.None? ==> url == DefaultUrl
    ensures env.Some? ==> url == env.value
  {
    match env
    case None => DefaultUrl
    case Some(v) => v
  }

  /** The conditional `postgres://` rewrite applied to the configured URL. */
  function NormalizeUrl(url: string): (r: string)
    ensures StartsWith(url, ShortPostgresScheme) ==> r == PostgresScheme + url[|ShortPostgresScheme|..]
    ensures !StartsWith(url, ShortPostgresScheme) ==> r == url
    ensures !StartsWith(r, ShortPostgresScheme)
  {
    if StartsWith(url, ShortPostgresScheme) then
      ReplaceFirstAtPrefix(url, ShortPostgresScheme, PostgresScheme);
      var r := ReplaceFirst(url, ShortPostgresScheme, PostgresScheme);
      assert r[8] == 'q' != ShortPostgresScheme[8];
      r
    else
      url
  }

  /** `connect_args`: SQLite connections may be shared across threads; nothing else for other engines. */
  function ConnectArgs(url: string): (args: map<string, bool>)
    ensures CheckSameThread in args <==> StartsWith(url, SqlitePrefix)
    ensures args.Keys <= {CheckSameThread}
    ensures CheckSameThread in args ==> !args[CheckSameThread]
  {
    if StartsWith(url, SqlitePrefix) then map[CheckSameThread := false] else map[]
  }

  /** What `create_engine` is given: the final URL and the driver arguments. */
  datatype EngineSettings = EngineSettings(url: string, connectArgs: map<string, bool>)

  /** The module-level configuration computed from the environment value. */
  function Settings(env: Option<string>): (s: EngineSettings)
    ensures !StartsWith(s.url, ShortPostgresScheme)
    ensures CheckSameThread in s.connectArgs <==> StartsWith(s.url, SqlitePrefix)
  {
    var url := NormalizeUrl(DatabaseUrl(env));
    EngineSettings(url, ConnectArgs(url))
  }

  /** Normalising an already normalised URL changes nothing. */
  lemma NormalizeIdempotent(url: string)
    ensures NormalizeUrl(NormalizeUrl(url)) == NormalizeUrl(url)
  {
  }

  /** The rewrite never turns a SQLite URL into a non-SQLite one or the reverse. */
  lemma NormalizeKeepsSqlite(url: string)
    ensures StartsWith(NormalizeUrl(url), SqlitePrefix) <==> StartsWith(url, SqlitePrefix)
  {
  }

  /** With DATABASE_URL unset the app uses the local SQLite file with thread sharing enabled. */
  lemma UnsetUsesSqliteFile()
    ensures Settings(None) == EngineSettings(DefaultUrl, map[CheckSameThread := false])
  {
    assert !StartsWith(DefaultUrl, ShortPostgresScheme) by {
      assert DefaultUrl[0] != ShortPostgresScheme[0];
    }
    assert StartsWith(DefaultUrl, SqlitePrefix);
  }

  /** A `postgres://` URL gets the long scheme, the rest unchanged, and no SQLite arguments. */
  lemma ShortPostgresUrl(rest: string)
    ensures Settings(Some(ShortPostgresScheme + rest)) == EngineSettings(PostgresScheme + rest, map[])
  {
    var url := ShortPostgresScheme + rest;
    assert StartsWith(url, ShortPostgresScheme);
    assert url[|ShortPostgresScheme|..] == rest;
    NormalizeKeepsSqlite(url);
    assert url[0] == 'p' != SqlitePrefix[0];
  }

  /** Only the scheme is rewritten: a later `postgres://` in the URL survives. */
  lemma OnlyLeadingSchemeRewritten()
    ensures NormalizeUrl("postgres://db/postgres://") == "postgresql://db/postgres://"
  {
    var rest := "db/postgres://";
    var url := ShortPostgresScheme + rest;
    assert url == "postgres://db/postgres://";
    assert StartsWith(url, ShortPostgresScheme);
    assert url[|ShortPostgresScheme|..] == rest;
    assert PostgresScheme + rest == "postgresql://db/postgres://";
  }

  /** An environment value that is set but empty is used as is, and selects no SQLite arguments. */
  lemma EmptyEnvironmentValue()
    ensures Settings(Some("")) == EngineSettings("", map[])
  {
  }
}
