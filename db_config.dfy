/**
 * `get_db_url`: the SQLAlchemy connection string, read from the process environment,
 * which is modelled as a map from variable names to values.
 */
module DbConfig {
  import opened Common
  import opened Text

  const NonPoolingUrl := "POSTGRES_URL_NON_POOLING"
  const PooledUrl := "POSTGRES_URL"
  const DefaultPort := 5432

  /** A variable as Python's `or` sees it: a missing or empty value counts as absent. */
  function Setting(env: map<string, string>, name: string): (v: Option<string>)
    ensures v.Some? <==> name in env && env[name] != ""
  {
    if name in env && env[name] != "" then Some(env[name]) else None
  }

  /** A variable as an f-string shows it: its value, or `None` when it is not set. */
  function Shown(env: map<string, string>, name: string): string
  {
    if name in env then env[name] else "None"
  }

  /** SQLAlchemy wants the `postgresql://` scheme: a `postgres://` prefix is replaced, anything else kept. */
  function NormalizeScheme(url: string): (r: string)
    ensures StartsWith(url, "postgres://") ==> r == "postgresql://" + url[|"postgres://"|..]
    ensures !StartsWith(url, "postgres://") ==> r == url
  {
    if StartsWith(url, "postgres://") then "postgresql://" + url[|"postgres://"|..] else url
  }

  /** A normalized URL never has the old scheme left. */
  lemma NormalizedHasNoOldScheme(url: string)
    ensures !StartsWith(NormalizeScheme(url), "postgres://")
  {
    var r := NormalizeScheme(url);
    if StartsWith(url, "postgres://") {
      assert r[8] == 'q';
    }
  }

  /** Normalizing twice is normalizing once. */
  lemma NormalizeIdempotent(url: string)
    ensures NormalizeScheme(NormalizeScheme(url)) == NormalizeScheme(url)
  {
    NormalizedHasNoOldScheme(url);
  }

  /** `SUPABASE_DB_PORT` as an integer, 5432 when it is missing (its default text) or not one. */
  function Port(env: map<string, string>): int
  {
    if "SUPABASE_DB_PORT" !in env then DefaultPort
    else match ParseInt(env["SUPABASE_DB_PORT"])
      case Some(p) => p
      case None => DefaultPort
  }

  /** Any integer written into the variable is the port used, and the default needs no variable. */
  lemma PortSetting(env: map<string, string>, p: int)
    ensures Port(env["SUPABASE_DB_PORT" := IntToString(p)]) == p
    ensures "SUPABASE_DB_PORT" !in env ==> Port(env) == DefaultPort
  {
    IntRoundTrip(p);
  }

  /** The connection string built from the separate variables. */
  function ComposedUrl(env: map<string, string>, host: string): string
  {
    "postgresql://" + Shown(env, "POSTGRES_USER") + ":" + Shown(env, "POSTGRES_PASSWORD") + "@" + host + ":" +
    IntToString(Port(env)) + "/" + Shown(env, "POSTGRES_DATABASE")
  }

  /**
   * `get_db_url`: the non-pooling URL, else the pooled URL, normalized; without either, the
   * URL built from the separate variables, or the ValueError when no host is set.
   */
  function GetDbUrl(env: map<string, string>): (r: Result<string, string>)
    ensures Setting(env, NonPoolingUrl).Some? ==> r == Ok(NormalizeScheme(env[NonPoolingUrl]))
    ensures Setting(env, NonPoolingUrl).None? && Setting(env, PooledUrl).Some? ==> r == Ok(NormalizeScheme(env[PooledUrl]))
    ensures r.Err? <==> Setting(env, NonPoolingUrl).None? && Setting(env, PooledUrl).None? && Setting(env, "POSTGRES_HOST").None?
    ensures r.Ok? ==> !StartsWith(r.value, "postgres://")
  {
    var url := match Setting(env, NonPoolingUrl)
      case Some(u) => Some(u)
      case None => Setting(env, PooledUrl);
    match url
    case Some(u) =>
      NormalizedHasNoOldScheme(u);
      Ok(NormalizeScheme(u))
    case None =>
      match Setting(env, "POSTGRES_HOST")
      case None => Err("Database host is required. Set POSTGRES_HOST environment variable.")
      case Some(host) =>
        assert ComposedUrl(env, host)[8] == 'q';
        Ok(ComposedUrl(env, host))
  }

  /** While the non-pooling URL is set, the pooled one and the separate variables play no part. */
  lemma NonPoolingWins(env: map<string, string>, other: map<string, string>)
    requires Setting(env, NonPoolingUrl).Some?
    requires NonPoolingUrl in other && other[NonPoolingUrl] == env[NonPoolingUrl]
    ensures GetDbUrl(other) == GetDbUrl(env)
  {
  }

  /** Without URLs, a host gives the string built from the parts, with the configured port. */
  lemma ComposedFromParts(env: map<string, string>, p: int)
    requires Setting(env, NonPoolingUrl).None? && Setting(env, PooledUrl).None?
    requires Setting(env, "POSTGRES_HOST").Some?
    ensures var e := env["SUPABASE_DB_PORT" := IntToString(p)];
      GetDbUrl(e) == Ok(ComposedUrl(e, env["POSTGRES_HOST"])) && Port(e) == p
  {
    PortSetting(env, p);
  }
}
