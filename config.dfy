/** The service configuration, read from two environment variables: the cache size
    in megabytes (IMPR_CACHE_SIZE) and the cache directory (IMPR_CACHE_FOLDER). The
    variables' values are parameters; so is `filepath.Abs`, which depends on the
    process's working directory. */
module Config {
  import opened Common
  import opened Strconv

  const DefaultCacheSize: int := 10485760
  const DefaultCachePath: string := "cache"
  const SizeEnvName: string := "IMPR_CACHE_SIZE"
  const PathEnvName: string := "IMPR_CACHE_FOLDER"

  /** Bytes in a megabyte. */
  const Megabyte: int := 1024 * 1024

  /** The largest size in megabytes whose byte count fits in `int64`. */
  const MaxMegabytes: int := MaxInt64 / Megabyte

  datatype Config = Config(cacheSize: int, cachePath: string)

  /** Go's 64-bit signed arithmetic: the value wraps around modulo 2^64. */
  function Wrap64(x: int): (r: int)
    ensures InInt64(r)
    ensures InInt64(x) ==> r == x
  {
    (x - MinInt64) % 0x1_0000_0000_0000_0000 + MinInt64
  }

  /** `getCacheSize`: the default when the variable is empty; otherwise a positive
      decimal number of megabytes, converted to bytes with 64-bit arithmetic. */
  function GetCacheSize(env: string): Result<int>
  {
    if env == "" then Ok(DefaultCacheSize)
    else match Atoi(env)
      case Err(e) => Err(Wrapped("failed to set cache size", e))
      case Ok(size) =>
        if size <= 0 then Err(CacheSizeZeroOrLess)
        else Ok(Wrap64(size * 1024 * 1024))
  }

  /** `filepath.IsAbs` on Unix: the path starts at the root. */
  predicate IsAbs(path: string)
  {
    |path| > 0 && path[0] == '/'
  }

  /** `getCachePath`: the variable, or "cache" when it is empty; a relative path
      is made absolute by `abs`, whose failure is wrapped. */
  function GetCachePath(env: string, abs: string -> Result<string>): Result<string>
  {
    var path := if env == "" then DefaultCachePath else env;
    if IsAbs(path) then Ok(path)
    else match abs(path)
      case Err(e) => Err(Wrapped("invalid path", e))
      case Ok(p) => Ok(p)
  }

  /** `New`: the size first, then the path; the first error is returned. */
  function New(sizeEnv: string, pathEnv: string, abs: string -> Result<string>): Result<Config>
  {
    match GetCacheSize(sizeEnv)
    case Err(e) => Err(e)
    case Ok(size) =>
      match GetCachePath(pathEnv, abs)
      case Err(e) => Err(e)
      case Ok(path) => Ok(Config(size, path))
  }

  /** The outcomes of `getCacheSize`: it succeeds exactly when the variable is empty
      or a positive `int64`; a value that is not one is wrapped as the cause, a
      value below one is refused. */
  lemma CacheSizeOutcomes(env: string)
    ensures GetCacheSize(env).Ok? <==> env == "" || (Atoi(env).Ok? && Atoi(env).value > 0)
    ensures env != "" && Atoi(env).Err? ==> GetCacheSize(env) == Err(Wrapped("failed to set cache size", Atoi(env).error))
    ensures env != "" && Atoi(env).Ok? && Atoi(env).value <= 0 ==> GetCacheSize(env) == Err(CacheSizeZeroOrLess)
    ensures env == "" ==> GetCacheSize(env) == Ok(10 * Megabyte)
  {
  }

  /** A positive number of megabytes that fits is converted exactly, to a positive
      whole number of megabytes in bytes. */
  lemma CacheSizeScales(n: int)
    requires 0 < n <= MaxMegabytes
    ensures GetCacheSize(Itoa(n)) == Ok(n * Megabyte)
    ensures GetCacheSize(Itoa(n)).value > 0 && GetCacheSize(Itoa(n)).value % Megabyte == 0
  {
    AtoiItoa(n);
    ItoaSign(n);
    assert n * Megabyte <= MaxMegabytes * Megabyte <= MaxInt64;
    assert n * 1024 * 1024 == n * Megabyte;
  }

  /** Every number below one is refused, whatever its magnitude. */
  lemma CacheSizeNotPositive(n: int)
    requires MinInt64 <= n <= 0
    ensures GetCacheSize(Itoa(n)) == Err(CacheSizeZeroOrLess)
  {
    AtoiItoa(n);
    ItoaSign(n);
  }

  /** The 64-bit multiplication wraps: a size of 2^44 megabytes passes the check and
      becomes a cache of zero bytes. */
  lemma CacheSizeWraps(n: int)
    requires n == 0x1000_0000_0000
    ensures GetCacheSize(Itoa(n)) == Ok(0)
  {
    AtoiItoa(n);
    ItoaSign(n);
    assert n * 1024 * 1024 - MinInt64 == 0x1_8000_0000_0000_0000;
  }

  /** The cases of the configuration tests: "100" is 100 MB, "-100" is refused. */
  lemma CacheSizeExamples()
    ensures GetCacheSize("100") == Ok(104857600)
    ensures GetCacheSize("-100") == Err(CacheSizeZeroOrLess)
  {
    assert Itoa(100) == "100";
    assert Itoa(-100) == "-100";
    CacheSizeScales(100);
    CacheSizeNotPositive(-100);
  }

  /** An absolute path is kept as it is and `abs` is not consulted; any other path
      is whatever `abs` makes of it, the default "cache" standing in for an empty
      variable. */
  lemma CachePathOutcomes(env: string, abs: string -> Result<string>)
    ensures IsAbs(env) ==> GetCachePath(env, abs) == Ok(env)
    ensures !IsAbs(env) && env != "" && abs(env).Ok? ==> GetCachePath(env, abs) == Ok(abs(env).value)
    ensures env == "" && abs("cache").Ok? ==> GetCachePath(env, abs) == Ok(abs("cache").value)
    ensures GetCachePath(env, abs).Err? <==>
      var path := if env == "" then "cache" else env; !IsAbs(path) && abs(path).Err?
    ensures GetCachePath(env, abs).Err? ==>
      GetCachePath(env, abs) == Err(Wrapped("invalid path", abs(if env == "" then "cache" else env).error))
  {
  }

  /** `New` succeeds exactly when both parts do, with their values; a bad size is
      reported even when the path is bad too. */
  lemma NewOutcomes(sizeEnv: string, pathEnv: string, abs: string -> Result<string>)
    ensures New(sizeEnv, pathEnv, abs).Ok? <==> GetCacheSize(sizeEnv).Ok? && GetCachePath(pathEnv, abs).Ok?
    ensures New(sizeEnv, pathEnv, abs).Ok? ==>
      New(sizeEnv, pathEnv, abs).value == Config(GetCacheSize(sizeEnv).value, GetCachePath(pathEnv, abs).value)
    ensures GetCacheSize(sizeEnv).Err? ==> New(sizeEnv, pathEnv, abs) == Err(GetCacheSize(sizeEnv).error)
    ensures GetCacheSize(sizeEnv).Ok? && GetCachePath(pathEnv, abs).Err? ==>
      New(sizeEnv, pathEnv, abs) == Err(GetCachePath(pathEnv, abs).error)
  {
  }
}
