/** Settings read from the process environment (after the `.env` file has
    been loaded into it): feature flags, the TMDb API key and the source and
    destination directories. */
module Config {
  import opened Text
  import opened Wrappers

  /** The process environment. */
  type Env = map<string, string>

  const TmdbFolderIdKey := "TMDB_FOLDER_ID"
  const RenameKey := "RENAME_ENABLED"
  const MovieCollectionKey := "MOVIE_COLLECTION_ENABLED"
  const SkipExtrasKey := "SKIP_EXTRAS_FOLDER"
  const ApiKeyKey := "TMDB_API_KEY"
  const SourceDirKey := "SOURCE_DIR"
  const DestinationDirKey := "DESTINATION_DIR"

  /** The value shipped in the sample configuration, treated as "no key". */
  const ApiKeyPlaceholder := "your_tmdb_api_key_here"

  /** The spellings a flag accepts as "on", compared after lower-casing. */
  const TruthyWords: seq<string> := ["true", "1", "yes"]

  /** `os.getenv(key, default)`. */
  function Getenv(env: Env, key: string, default: string): string {
    if key in env then env[key] else default
  }

  /** `value.lower() in ['true', '1', 'yes']`. */
  predicate IsTruthy(v: string) {
    Lower(v) in TruthyWords
  }

  /** A boolean setting: the variable's value, or `default` when it is unset. */
  predicate Flag(env: Env, key: string, default: string) {
    IsTruthy(Getenv(env, key, default))
  }

  predicate IsTmdbFolderIdEnabled(env: Env) { Flag(env, TmdbFolderIdKey, "true") }
  predicate IsRenameEnabled(env: Env) { Flag(env, RenameKey, "false") }
  predicate IsMovieCollectionEnabled(env: Env) { Flag(env, MovieCollectionKey, "false") }
  predicate IsSkipExtrasFolderEnabled(env: Env) { Flag(env, SkipExtrasKey, "false") }

  lemma {:induction false} LowerIdempotent(s: string)
    ensures Lower(Lower(s)) == Lower(s)
  {
    var l := Lower(s);
    assert forall i :: 0 <= i < |l| ==> LowerChar(l[i]) == l[i];
  }

  /** Unset flags take their defaults: only TMDB_FOLDER_ID is on by default. */
  lemma FlagDefaults(env: Env)
    requires TmdbFolderIdKey !in env && RenameKey !in env
    requires MovieCollectionKey !in env && SkipExtrasKey !in env
    ensures IsTmdbFolderIdEnabled(env)
    ensures !IsRenameEnabled(env) && !IsMovieCollectionEnabled(env) && !IsSkipExtrasFolderEnabled(env)
  {
    assert Lower("true") == "true";
    assert Lower("false") == "false";
  }

  /** A flag ignores the case of its value. */
  lemma {:induction false} FlagIgnoresCase(env: Env, key: string, default: string)
    requires key in env
    ensures Flag(env, key, default) == Flag(env[key := Lower(env[key])], key, default)
  {
    LowerIdempotent(env[key]);
  }

  /** A flag set to the empty string is off, even one whose default is on. */
  lemma EmptyFlagIsOff(env: Env, key: string, default: string)
    requires key in env && env[key] == ""
    ensures !Flag(env, key, default)
  {
  }

  /** A truthy value has one of three lengths, so nothing else turns a flag on. */
  lemma {:induction false} TruthyShape(v: string)
    requires IsTruthy(v)
    ensures |v| == 1 || |v| == 3 || |v| == 4
    ensures |v| == 1 ==> v == "1"
  {
    var l := Lower(v);
    assert l == "true" || l == "1" || l == "yes";
    if |v| == 1 {
      assert l[0] == LowerChar(v[0]);
    }
  }

  /** `get_api_key`: the configured key, or None when it is unset, empty or the placeholder. */
  function GetApiKey(env: Env): (r: Option<string>)
    ensures r.Some? <==> ApiKeyKey in env && env[ApiKeyKey] != "" && env[ApiKeyKey] != ApiKeyPlaceholder
    ensures r.Some? ==> r.value == env[ApiKeyKey] && r.value != ""
  {
    if ApiKeyKey !in env || env[ApiKeyKey] == "" || env[ApiKeyKey] == ApiKeyPlaceholder then None
    else Some(env[ApiKeyKey])
  }

  /** `get_directories`: the comma-separated source directories and the
      destination, or an exit when either variable is unset or empty. */
  function GetDirectories(env: Env): (r: Result<(seq<string>, string)>)
    ensures r.Ok? <==> SourceDirKey in env && env[SourceDirKey] != "" &&
                       DestinationDirKey in env && env[DestinationDirKey] != ""
    ensures r.Ok? ==> Join(r.value.0, ',') == env[SourceDirKey]
    ensures r.Ok? ==> forall i :: 0 <= i < |r.value.0| ==> ',' !in r.value.0[i]
    ensures r.Ok? ==> r.value.1 == env[DestinationDirKey]
  {
    if SourceDirKey !in env || env[SourceDirKey] == "" || DestinationDirKey !in env || env[DestinationDirKey] == "" then
      Err("SOURCE_DIRS or DESTINATION_DIR not set in environment variables.")
    else
      JoinSplit(env[SourceDirKey], ',');
      Ok((Split(env[SourceDirKey], ','), env[DestinationDirKey]))
  }
}
