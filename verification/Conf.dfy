/** struct conf, filled in place from the defaults, the file and the environment: src/conf.c, src/env.c. */
module Conf {
  import opened Basics
  import opened Text
  import opened ConfSpec
  import opened ConfWords

  /** strchr: the position of the first '=', or the length. */
  method FindAssignment(line: string) returns (p: nat)
    ensures p <= |line| && (p < |line| <==> Assigns(line))
    ensures p < |line| ==> ValueText(line) == SkipSpaces(line[p + 1..])
  {
    hide SkipSpaces, ValueText;
    p := 0;
    assert line[0..] == line;
    while p < |line| && line[p] != '='
      invariant p <= |line| && Assigns(line) == Assigns(line[p..])
      invariant Assigns(line) ==> ValueText(line) == ValueText(line[p..])
    {
      PastLetter(line, p);
      p := p + 1;
    }
    if p < |line| { AtAssignment(line, p); }
  }

  /** The loop over isspace. */
  method SkipBlanks(text: string) returns (rest: string)
    ensures rest == SkipSpaces(text)
  {
    rest := text;
    while rest != "" && IsSpace(rest[0])
      invariant SkipSpaces(rest) == SkipSpaces(text)
      decreases |rest|
    {
      rest := rest[1..];
    }
  }

  /** The text after the first '=' and the spaces that follow: src/conf.c:219-231, 248-260. */
  method AssignedValue(line: string) returns (text: Option<string>)
    ensures text == if Assigns(line) then Some(ValueText(line)) else None
  {
    hide Assigns, ValueText, SkipSpaces;
    var p := FindAssignment(line);
    if p == |line| {
      return None;
    }
    var value := SkipBlanks(line[p + 1..]);
    text := Some(value);
  }

  /** parse_int: src/conf.c:212-239. */
  method ParseInt(field: int, line: string) returns (ret: int, value: int)
    ensures ret == if Assigns(line) then 0 else -1
    ensures value == if Assigns(line) then CInt(ValueText(line)) else field
  {
    var text := AssignedValue(line);
    if text.None? {
      return -1, field;
    }
    ret, value := 0, CInt(text.value);
  }

  /** parse_str: src/conf.c:241-276. */
  method ParseStr(field: string, line: string) returns (ret: int, value: string)
    ensures ret == if Assigns(line) then 0 else -1
    ensures value == if Assigns(line) && ValueText(line) != "" then ValueText(line) else field
  {
    var text := AssignedValue(line);
    if text.None? {
      return -1, field;
    }
    ret, value := 0, if text.value != "" then text.value else field;
  }

  /** One "if" of parse_token: the field is written when the line names it. */
  method IfInt(field: int, token: string, k: Key) returns (ret: int, value: int)
    ensures ret == if Names(token, k) && !Assigns(token) then -1 else 0
    ensures value == IntAfter(token, k, field)
  {
    ret, value := 0, field;
    if Names(token, k) {
      ret, value := ParseInt(field, token);
    }
  }

  method IfStr(field: string, token: string, k: Key) returns (ret: int, value: string)
    ensures ret == if Names(token, k) && !Assigns(token) then -1 else 0
    ensures value == StrAfter(token, k, field)
  {
    ret, value := 0, field;
    if Names(token, k) {
      ret, value := ParseStr(field, token);
    }
  }

  /** The same for log_level: src/conf.c:367-382. Every level of the table is in range. */
  method IfLevel(level: int, token: string) returns (ret: int, value: int)
    ensures ret == if Names(token, LogLevel) && !Assigns(token) then -1 else 0
    ensures value == LevelAfter(token, level)
  {
    ret, value := 0, level;
    if Names(token, LogLevel) {
      var log;
      ret, log := ParseStr("", token);
      if ret != -1 {
        value := StrToLogLevel(log);
      }
    }
  }

  /** env_generic_set_int: src/env.c:19-42. */
  method EnvInt(field: int, env: Env, k: Key) returns (value: int)
    requires IsInt(k)
    ensures value == IntFromEnv(env, k, field)
  {
    var text := Getenv(env, Variable(k));
    value := if text.None? then field else CInt(text.value);
  }

  /** env_generic_set_str: src/env.c:44-77. */
  method EnvStr(field: string, env: Env, variable: string) returns (value: string)
    ensures value == Getenv(env, variable).GetOr(field)
  {
    var text := Getenv(env, variable);
    value := if text.None? then field else text.value;
  }

  class Conf {
    var compressionMethod: string
    var zlibLevel: int
    var maxRetry: int
    var gcLoopDelay: int
    var gcAgeThreshold: int
    var scLoopDelay: int
    var scAgeThreshold: int
    var cacheDir: string
    var exclusionPattern: string
    var excluding: bool
    var encryptionMethod: string
    var cacheMaxSize: int
    var logLevel: int
    var profiling: int
    var profilingLogfile: string

    function Abs(): Settings
      reads this
    {
      Settings(compressionMethod, zlibLevel, maxRetry, gcLoopDelay, gcAgeThreshold, scLoopDelay, scAgeThreshold,
               cacheDir, exclusionPattern, excluding, encryptionMethod, cacheMaxSize,
               logLevel, profiling, profilingLogfile)
    }

    /** conf_set_full_cache_dir: src/conf.c:168-210. */
    method SetFullCacheDir(site: Site) returns (ret: int)
      modifies this`cacheDir
      ensures ret == (if site.mkdirOk then 0 else -1) && cacheDir == FullCacheDir(old(cacheDir), site)
    {
      cacheDir := cacheDir + "/" + site.bucket;
      if !site.mkdirOk {
        return -1;
      }
      cacheDir := StripSlashes(cacheDir);
      ret := 0;
    }

    /** The "if" of parse_token for cache_dir: src/conf.c:334-344. */
    method IfCacheDir(token: string, site: Site) returns (ret: int)
      modifies this`cacheDir
      ensures ret == if Names(token, CacheDir) && (!Assigns(token) || !site.mkdirOk) then -1 else 0
      ensures cacheDir == CacheDirAfter(token, site, old(cacheDir))
    {
      ret := 0;
      if Names(token, CacheDir) {
        ret, cacheDir := ParseStr(cacheDir, token);
        if ret == -1 {
          return;
        }
        ret := SetFullCacheDir(site);
      }
    }

    /** parse_token up to sc_age_threshold: src/conf.c:285-332. */
    method ParseEarly(token: string) returns (ret: int)
      modifies this`compressionMethod, this`zlibLevel, this`maxRetry, this`gcLoopDelay, this`gcAgeThreshold,
        this`scLoopDelay, this`scAgeThreshold
      ensures ret == if !Assigns(token) && NamesEarly(token) then -1 else 0
      ensures compressionMethod == StrAfter(token, CompressionMethod, old(compressionMethod))
      ensures zlibLevel == IntAfter(token, ZlibLevel, old(zlibLevel))
      ensures maxRetry == IntAfter(token, MaxRetry, old(maxRetry))
      ensures gcLoopDelay == IntAfter(token, GcLoopDelay, old(gcLoopDelay))
      ensures gcAgeThreshold == IntAfter(token, GcAgeThreshold, old(gcAgeThreshold))
      ensures scLoopDelay == IntAfter(token, ScLoopDelay, old(scLoopDelay))
      ensures scAgeThreshold == IntAfter(token, ScAgeThreshold, old(scAgeThreshold))
    {
      hide Names, Assigns, IntAfter, StrAfter;
      if !Assigns(token) { NothingAssigned(token, Site("", true)); }
      ret, compressionMethod := IfStr(compressionMethod, token, CompressionMethod);
      if ret == -1 {
        return;
      }
      ret, zlibLevel := IfInt(zlibLevel, token, ZlibLevel);
      if ret == -1 {
        return;
      }
      ret, maxRetry := IfInt(maxRetry, token, MaxRetry);
      if ret == -1 {
        return;
      }
      ret, gcLoopDelay := IfInt(gcLoopDelay, token, GcLoopDelay);
      if ret == -1 {
        return;
      }
      ret, gcAgeThreshold := IfInt(gcAgeThreshold, token, GcAgeThreshold);
      if ret == -1 {
        return;
      }
      ret, scLoopDelay := IfInt(scLoopDelay, token, ScLoopDelay);
      if ret == -1 {
        return;
      }
      ret, scAgeThreshold := IfInt(scAgeThreshold, token, ScAgeThreshold);
      if ret == -1 {
        return;
      }
    }

    /** parse_token from cache_dir on: src/conf.c:334-396. */
    method ParseLate(token: string, site: Site) returns (ret: int)
      modifies this`cacheDir, this`exclusionPattern, this`encryptionMethod, this`cacheMaxSize, this`logLevel,
        this`profiling, this`profilingLogfile
      ensures ret == if (!Assigns(token) && NamesLate(token))
              || (Assigns(token) && Names(token, CacheDir) && !site.mkdirOk)
                     then -1 else 0
      ensures cacheDir == CacheDirAfter(token, site, old(cacheDir))
      ensures exclusionPattern == StrAfter(token, ExclusionPattern, old(exclusionPattern))
      ensures encryptionMethod == StrAfter(token, EncryptionMethod, old(encryptionMethod))
      ensures cacheMaxSize == IntAfter(token, CacheMaxSize, old(cacheMaxSize))
      ensures logLevel == LevelAfter(token, old(logLevel))
      ensures profiling == IntAfter(token, Profiling, old(profiling))
      ensures profilingLogfile == StrAfter(token, ProfilingLogfile, old(profilingLogfile))
    {
      hide Names, Assigns, IntAfter, StrAfter, LevelAfter, CacheDirAfter;
      if !Assigns(token) { NothingAssigned(token, site); }
      ret := IfCacheDir(token, site);
      if ret == -1 {
        if Assigns(token) { OnlyKey(token, CacheDir); NothingElse(token); }
        return;
      }
      ret, exclusionPattern := IfStr(exclusionPattern, token, ExclusionPattern);
      if ret == -1 {
        return;
      }
      ret, encryptionMethod := IfStr(encryptionMethod, token, EncryptionMethod);
      if ret == -1 {
        return;
      }
      ret, cacheMaxSize := IfInt(cacheMaxSize, token, CacheMaxSize);
      if ret == -1 {
        return;
      }
      ret, logLevel := IfLevel(logLevel, token);
      if ret == -1 {
        return;
      }
      ret, profiling := IfInt(profiling, token, Profiling);
      if ret == -1 {
        return;
      }
      ret, profilingLogfile := IfStr(profilingLogfile, token, ProfilingLogfile);
      if ret == -1 {
        return;
      }
    }

    /** parse_token: src/conf.c:278-401. */
    method ParseToken(token: string, site: Site) returns (ret: int)
      modifies this
      ensures ret == (if Rejected(token, site) then -1 else 0) && Abs() == AfterToken(old(Abs()), token, site)
    {
      hide Names, Assigns, IntAfter, StrAfter, LevelAfter, CacheDirAfter, NamesEarly, NamesLate;
      if !Assigns(token) { NothingAssigned(token, site); }
      ret := ParseEarly(token);
      if ret == -1 {
        return;
      }
      ret := ParseLate(token, site);
    }

    /** parse_line: src/conf.c:403-441. */
    method ParseLine(line: string, site: Site) returns (ret: int)
      modifies this
      ensures ret == (if Rejected(Token(line), site) then -1 else 0)
      ensures Abs() == AfterToken(old(Abs()), Token(line), site)
    {
      hide Rejected, AfterToken;
      if line == "" {
        CommentIgnored(Abs(), line, site);
        return 0;
      }
      var token := SkipBlanks(line);
      if token == "" || token[0] == '#' {
        CommentIgnored(Abs(), token, site);
        return 0;
      }
      ret := ParseToken(token, site);
    }

    /** parse_file, from the lines fgets gives: src/conf.c:443-472. */
    method ParseFile(file: Option<seq<string>>, sites: nat -> Site) returns (ret: int)
      modifies this
      ensures var lines := file.GetOr([]);
              && Abs() == AfterFile(old(Abs()), lines, sites)
              && ret == if FirstRejected(lines, sites) < |lines| then -1 else 0
    {
      hide Rejected, RejectedAt, AfterToken, FirstRejected, Token;
      var lines := file.GetOr([]);
      FirstRejectedIs(lines, sites);
      var i := 0;
      while i < |lines|
        invariant 0 <= i <= |lines| && Abs() == AfterLines(old(Abs()), lines, i, sites)
        invariant forall j: nat :: j < i ==> !RejectedAt(lines, sites, j)
      {
        RejectedHere(lines, sites, i);
        ret := ParseLine(lines[i], sites(i));
        i := i + 1;
        if ret == -1 {
          return;
        }
      }
      ret := 0;
    }

    method OverrideInts(env: Env)
      modifies this`zlibLevel, this`maxRetry, this`gcLoopDelay, this`gcAgeThreshold, this`scLoopDelay,
        this`scAgeThreshold, this`cacheMaxSize, this`profiling
      ensures zlibLevel == IntFromEnv(env, ZlibLevel, old(zlibLevel))
      ensures maxRetry == IntFromEnv(env, MaxRetry, old(maxRetry))
      ensures gcLoopDelay == IntFromEnv(env, GcLoopDelay, old(gcLoopDelay))
      ensures gcAgeThreshold == IntFromEnv(env, GcAgeThreshold, old(gcAgeThreshold))
      ensures scLoopDelay == IntFromEnv(env, ScLoopDelay, old(scLoopDelay))
      ensures scAgeThreshold == IntFromEnv(env, ScAgeThreshold, old(scAgeThreshold))
      ensures cacheMaxSize == IntFromEnv(env, CacheMaxSize, old(cacheMaxSize))
      ensures profiling == IntFromEnv(env, Profiling, old(profiling))
    {
      hide IntFromEnv;
      zlibLevel := EnvInt(zlibLevel, env, ZlibLevel);
      maxRetry := EnvInt(maxRetry, env, MaxRetry);
      gcLoopDelay := EnvInt(gcLoopDelay, env, GcLoopDelay);
      gcAgeThreshold := EnvInt(gcAgeThreshold, env, GcAgeThreshold);
      scLoopDelay := EnvInt(scLoopDelay, env, ScLoopDelay);
      scAgeThreshold := EnvInt(scAgeThreshold, env, ScAgeThreshold);
      cacheMaxSize := EnvInt(cacheMaxSize, env, CacheMaxSize);
      profiling := EnvInt(profiling, env, Profiling);
    }

    method OverrideStrings(env: Env)
      modifies this`compressionMethod, this`encryptionMethod, this`logLevel, this`profilingLogfile
      ensures compressionMethod == Getenv(env, "DROPLETFS_COMPRESSION_METHOD").GetOr(old(compressionMethod))
      ensures logLevel == match Getenv(env, "DROPLETFS_LOG_LEVEL")
                          case Some(text) => StrToLogLevel(text)
                          case None => old(logLevel)
      ensures encryptionMethod == Getenv(env, "DROPLETFS_ENCRYPTION_METHOD").GetOr(old(encryptionMethod))
      ensures profilingLogfile == Getenv(env, "DROPLETFS_PROFILING_LOGFILE").GetOr(old(profilingLogfile))
    {
      hide Getenv, StrToLogLevel;
      compressionMethod := EnvStr(compressionMethod, env, "DROPLETFS_COMPRESSION_METHOD");
      var level := Getenv(env, "DROPLETFS_LOG_LEVEL");
      logLevel := if level.Some? then StrToLogLevel(level.value) else logLevel;
      encryptionMethod := EnvStr(encryptionMethod, env, "DROPLETFS_ENCRYPTION_METHOD");
      profilingLogfile := EnvStr(profilingLogfile, env, "DROPLETFS_PROFILING_LOGFILE");
    }

    /** env_set_exclusion_pattern, with re_dtor and re_ctor: src/env.c:159-170, src/regex.c:9-44. */
    method OverridePattern(env: Env, compiles: string -> bool)
      modifies this`exclusionPattern, this`excluding
      ensures exclusionPattern == PatternFromEnv(env, compiles, old(exclusionPattern))
      ensures excluding == Excluding(env, compiles, old(excluding))
    {
      if "DROPLETFS_EXCLUSION_PATTERN" !in env {
        return;
      }
      var text := env["DROPLETFS_EXCLUSION_PATTERN"];
      exclusionPattern, excluding := "", false;
      if text != "" && compiles(text) {
        exclusionPattern, excluding := text, true;
      }
    }

    /** env_override_conf: src/env.c:179-195. */
    method EnvOverride(env: Env, compiles: string -> bool)
      modifies this
      ensures Abs() == AfterEnv(old(Abs()), env, compiles)
    {
      hide Getenv, IntFromEnv, StrToLogLevel, PatternFromEnv, Excluding;
      OverrideInts(env);
      OverridePattern(env, compiles);
      OverrideStrings(env);
    }

    /** conf_ctor: src/conf.c:520-562. */
    constructor (w: World)
      ensures Abs() == Configured(w)
      ensures zlibLevel == IntegerIs(w, "DROPLETFS_ZLIB_LEVEL", "zlib_level", 3)
      ensures maxRetry == IntegerIs(w, "DROPLETFS_MAX_RETRY", "max_retry", 5)
      ensures gcLoopDelay == IntegerIs(w, "DROPLETFS_GC_LOOP_DELAY", "gc_loop_delay", 60)
      ensures gcAgeThreshold == IntegerIs(w, "DROPLETFS_GC_AGE_THRESHOLD", "gc_age_threshold", 900)
      ensures scLoopDelay == IntegerIs(w, "DROPLETFS_SC_LOOP_DELAY", "sc_loop_delay", 0)
      ensures scAgeThreshold == IntegerIs(w, "DROPLETFS_SC_AGE_THRESHOLD", "sc_age_threshold", 0)
      ensures cacheMaxSize == IntegerIs(w, "DROPLETFS_CACHE_MAX_SIZE", "cache_max_size", 10485760)
      ensures profiling == IntegerIs(w, "DROPLETFS_PROFILING", "profiling", 0)
    {
      compressionMethod, zlibLevel, maxRetry, gcLoopDelay, gcAgeThreshold := "NONE", 3, 5, 60, 900;
      scLoopDelay, scAgeThreshold, cacheDir, exclusionPattern, encryptionMethod := 0, 0, "/tmp", "", "NONE";
      excluding := false;
      cacheMaxSize, logLevel, profiling, profilingLogfile := 10 * 1024 * 1024, LOG_ERR, 0, "/tmp/dplfs_trace.log";
      new;
      hide AfterLines, FirstRejected, AfterEnv, FullCacheDir;
      assert Abs() == DEFAULTS;
      NoLines(Abs(), w.sites);
      NoLines(WithCacheDir(Abs(), w), w.sites);
      if w.home {
        var ret := SetFullCacheDir(w.site);
        assert Abs() == WithCacheDir(DEFAULTS, w);
        if ret != -1 {
          ret := ParseFile(w.file, w.sites);
        }
      }
      EnvOverride(w.env, w.compiles);
      hide IntegerIs, Configured;
      EveryInteger(w);
    }
  }
}
