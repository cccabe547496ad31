/** Resolution of the backend's database URL at start-up
    (backend/database.py): an explicit DATABASE_URL, else a SQLite file
    under /tmp on serverless hosts or in the working directory elsewhere;
    then the `postgres://` scheme rewrite and the SQLite connect option. */
module Database {
  import opened Strings

  const ServerlessSqliteUrl: string := "sqlite:////tmp/finance.db"
  const LocalSqliteUrl: string := "sqlite:///./finance.db"
  const LegacyScheme: string := "postgres://"
  const Scheme: string := "postgresql://"

  /** A process environment variable is truthy when it is set and non-empty
      (`os.getenv` gives None for an unset one). */
  predicate IsSet(env: map<string, string>, name: string) {
    name in env && env[name] != ""
  }

  predicate IsServerless(env: map<string, string>) {
    IsSet(env, "VERCEL") || IsSet(env, "AWS_LAMBDA_FUNCTION_NAME")
  }

  /** The values the module leaves behind: the final URL, whether
      `connect_args` carries `check_same_thread=False`, and whether the
      bundled database file was copied to /tmp. */
  datatype Resolution = Resolution(url: string, sameThreadCheckOff: bool, seedCopied: bool)

  /** Python's `s.replace(pattern, replacement, 1)`: the first occurrence is
      replaced, and a string without one is returned unchanged. */
  function ReplaceFirst(s: string, pattern: string, replacement: string): (r: string)
    requires pattern != []
    ensures !Contains(s, pattern) ==> r == s
    ensures StartsWith(s, pattern) ==> r == replacement + s[|pattern|..]
    decreases |s|
  {
    if StartsWith(s, pattern) then replacement + s[|pattern|..]
    else if s == [] then s
    else [s[0]] + ReplaceFirst(s[1..], pattern, replacement)
  }

  /** The scheme fix for hosts that hand out `postgres://` URLs. */
  function RewriteScheme(url: string): (r: string)
    ensures StartsWith(url, LegacyScheme) ==> r == Scheme + url[|LegacyScheme|..]
    ensures !StartsWith(url, LegacyScheme) ==> r == url
  {
    if StartsWith(url, LegacyScheme) then ReplaceFirst(url, LegacyScheme, Scheme) else url
  }

  /** A rewritten URL is never rewritten again, and a `postgresql://` URL is
      left alone. */
  lemma RewriteSchemeIdempotent(url: string)
    ensures RewriteScheme(RewriteScheme(url)) == RewriteScheme(url)
    ensures StartsWith(url, Scheme) ==> RewriteScheme(url) == url
  {
    if StartsWith(url, LegacyScheme) {
      assert RewriteScheme(url)[8] == 'q' != LegacyScheme[8];
    }
    if StartsWith(url, Scheme) {
      assert url[8] == 'q' != LegacyScheme[8];
    }
  }

  /** The module-level start-up code, step by step: read DATABASE_URL; when
      it is unset or empty pick the serverless or the local SQLite file (on
      serverless hosts copying the bundled file to /tmp when /tmp has none
      and the bundle exists); rewrite the scheme; choose the connect
      arguments. `tmpFileExists` and `bundledFileExists` stand for the two
      `os.path.exists` checks. */
  method ResolveDatabaseUrl(env: map<string, string>, tmpFileExists: bool, bundledFileExists: bool)
    returns (r: Resolution)
    ensures IsSet(env, "DATABASE_URL") ==> r.url == RewriteScheme(env["DATABASE_URL"])
    ensures !IsSet(env, "DATABASE_URL") && IsServerless(env) ==> r.url == ServerlessSqliteUrl
    ensures !IsSet(env, "DATABASE_URL") && !IsServerless(env) ==> r.url == LocalSqliteUrl
    ensures r.sameThreadCheckOff <==> Contains(r.url, "sqlite")
    ensures r.seedCopied <==>
      !IsSet(env, "DATABASE_URL") && IsServerless(env) && !tmpFileExists && bundledFileExists
  {
    var url := if "DATABASE_URL" in env then env["DATABASE_URL"] else "";
    var copied := false;
    if url == "" {
      if IsServerless(env) {
        // f"sqlite:///{DB_FILE}" with DB_FILE = f"/tmp/{TRANS_DB_NAME}"
        if !tmpFileExists && bundledFileExists {
          copied := true;
        }
        url := ServerlessSqliteUrl;
        assert url[0] == 's' != LegacyScheme[0];
      } else {
        // f"sqlite:///./{TRANS_DB_NAME}"
        url := LocalSqliteUrl;
        assert url[0] == 's' != LegacyScheme[0];
      }
    }
    if StartsWith(url, LegacyScheme) {
      url := ReplaceFirst(url, LegacyScheme, Scheme);
    }
    var checkOff := Contains(url, "sqlite");
    r := Resolution(url, checkOff, copied);
  }

  /** Both SQLite fallbacks turn the same-thread check off, and a URL with
      the PostgreSQL scheme and no "sqlite" in it keeps it on. */
  lemma FallbacksDisableThreadCheck()
    ensures Contains(ServerlessSqliteUrl, "sqlite") && Contains(LocalSqliteUrl, "sqlite")
  {
    ContainsAt(ServerlessSqliteUrl, "sqlite", 0);
    ContainsAt(LocalSqliteUrl, "sqlite", 0);
  }
}
