/** The settings by the words that users write: the keywords of the file, the names of the variables, and
    the values a setting has when neither gives one. */
module ConfWords {
  import opened Basics
  import opened Text
  import opened Decimal
  import opened ConfSpec

  // ----- Integers -----

  /** The environment's value if it is not empty, else that of the last line for the word before the
      first rejected one, else the default. */
  function IntegerIs(w: World, variable: string, word: string, default: int): int {
    if variable in w.env && w.env[variable] != "" then CInt(w.env[variable])
    else
      FirstRejectedIs(Lines(w), w.sites);
      match LastForWord(Lines(w), FirstRejected(Lines(w), w.sites), word)
      case Some(i) => CInt(ValueText(Token(Lines(w)[i])))
      case None => default
  }

  lemma IntegerByKey(w: World, k: Key)
    requires IsInt(k)
    ensures IntOf(Configured(w), k) == IntegerIs(w, Variable(k), Keyword(k), IntOf(DEFAULTS, k))
  {
    Precedence(w, k);
    hide Configured, IntOf, Keyword, Variable, FirstRejected, LastForWord, Lines, CInt, ValueText, Token;
  }

  /** Each integer field has its own variable, its own keyword and its own default. */
  lemma EveryInteger(w: World)
    ensures var c := Configured(w);
            && c.zlibLevel == IntegerIs(w, "DROPLETFS_ZLIB_LEVEL", "zlib_level", 3)
            && c.maxRetry == IntegerIs(w, "DROPLETFS_MAX_RETRY", "max_retry", 5)
            && c.gcLoopDelay == IntegerIs(w, "DROPLETFS_GC_LOOP_DELAY", "gc_loop_delay", 60)
            && c.gcAgeThreshold == IntegerIs(w, "DROPLETFS_GC_AGE_THRESHOLD", "gc_age_threshold", 900)
            && c.scLoopDelay == IntegerIs(w, "DROPLETFS_SC_LOOP_DELAY", "sc_loop_delay", 0)
            && c.scAgeThreshold == IntegerIs(w, "DROPLETFS_SC_AGE_THRESHOLD", "sc_age_threshold", 0)
            && c.cacheMaxSize == IntegerIs(w, "DROPLETFS_CACHE_MAX_SIZE", "cache_max_size", 10485760)
            && c.profiling == IntegerIs(w, "DROPLETFS_PROFILING", "profiling", 0)
  {
    hide Configured, IntegerIs;
    IntegerByKey(w, ZlibLevel);
    IntegerByKey(w, MaxRetry);
    IntegerByKey(w, CacheMaxSize);
    IntegerByKey(w, Profiling);
    EveryDelay(w);
  }

  lemma EveryDelay(w: World)
    ensures var c := Configured(w);
            && c.gcLoopDelay == IntegerIs(w, "DROPLETFS_GC_LOOP_DELAY", "gc_loop_delay", 60)
            && c.gcAgeThreshold == IntegerIs(w, "DROPLETFS_GC_AGE_THRESHOLD", "gc_age_threshold", 900)
            && c.scLoopDelay == IntegerIs(w, "DROPLETFS_SC_LOOP_DELAY", "sc_loop_delay", 0)
            && c.scAgeThreshold == IntegerIs(w, "DROPLETFS_SC_AGE_THRESHOLD", "sc_age_threshold", 0)
  {
    hide Configured, IntegerIs;
    IntegerByKey(w, GcLoopDelay);
    IntegerByKey(w, GcAgeThreshold);
    IntegerByKey(w, ScLoopDelay);
    IntegerByKey(w, ScAgeThreshold);
  }

  /** The small letters have the codes 97 to 122, and the capitals come 32 before them. */
  function Capital(c: char): char {
    if 97 <= c as int <= 122 then (c as int - 32) as char else c
  }

  function Capitals(s: string): string {
    seq(|s|, i requires 0 <= i < |s| => Capital(s[i]))
  }

  lemma CapitalWords()
    ensures Capitals("zlib_level") == "ZLIB_LEVEL"
    ensures "DROPLETFS_" + "ZLIB_LEVEL" == "DROPLETFS_ZLIB_LEVEL"
    ensures Capitals("max_retry") == "MAX_RETRY"
    ensures "DROPLETFS_" + "MAX_RETRY" == "DROPLETFS_MAX_RETRY"
    ensures Capitals("profiling") == "PROFILING"
    ensures "DROPLETFS_" + "PROFILING" == "DROPLETFS_PROFILING"
  {
  }

  lemma CapitalGcLoop()
    ensures Capitals("gc_loop_delay") == "GC_LOOP_DELAY"
    ensures "DROPLETFS_" + "GC_LOOP_DELAY" == "DROPLETFS_GC_LOOP_DELAY"
  {
  }

  lemma CapitalScLoop()
    ensures Capitals("sc_loop_delay") == "SC_LOOP_DELAY"
    ensures "DROPLETFS_" + "SC_LOOP_DELAY" == "DROPLETFS_SC_LOOP_DELAY"
  {
  }

  lemma CapitalGcAge()
    ensures Capitals("gc_age_threshold") == "GC_AGE_THRESHOLD"
    ensures "DROPLETFS_" + "GC_AGE_THRESHOLD" == "DROPLETFS_GC_AGE_THRESHOLD"
  {
  }

  lemma CapitalScAge()
    ensures Capitals("sc_age_threshold") == "SC_AGE_THRESHOLD"
    ensures "DROPLETFS_" + "SC_AGE_THRESHOLD" == "DROPLETFS_SC_AGE_THRESHOLD"
  {
  }

  lemma CapitalSize()
    ensures Capitals("cache_max_size") == "CACHE_MAX_SIZE"
    ensures "DROPLETFS_" + "CACHE_MAX_SIZE" == "DROPLETFS_CACHE_MAX_SIZE"
  {
  }

  /** A variable is the keyword in capitals, behind the name of the program. */
  lemma VariableOfKeyword(k: Key)
    requires IsInt(k)
    ensures Variable(k) == "DROPLETFS_" + Capitals(Keyword(k))
  {
    hide Capitals;
    match k
    case ZlibLevel | MaxRetry | Profiling => CapitalWords();
    case GcLoopDelay => CapitalGcLoop();
    case ScLoopDelay => CapitalScLoop();
    case GcAgeThreshold => CapitalGcAge();
    case ScAgeThreshold => CapitalScAge();
    case CacheMaxSize => CapitalSize();
  }

  // ----- Texts -----

  /** The settings that hold a text and nothing else. */
  predicate IsText(k: Key) {
    k == CompressionMethod || k == EncryptionMethod || k == ExclusionPattern || k == ProfilingLogfile
  }

  function TextOf(s: Settings, k: Key): string
    requires IsText(k)
  {
    match k
    case CompressionMethod => s.compressionMethod
    case EncryptionMethod => s.encryptionMethod
    case ExclusionPattern => s.exclusionPattern
    case ProfilingLogfile => s.profilingLogfile
  }

  /** The line gives a value that is not empty. */
  predicate GivesWord(line: string, word: string) {
    SetsWord(line, word) && ValueText(Token(line)) != ""
  }

  function LastTextFor(lines: seq<string>, n: nat, word: string): Option<nat>
    requires n <= |lines|
  {
    LastWhere(lines, n, line => GivesWord(line, word))
  }

  lemma LastTextIs(lines: seq<string>, n: nat, word: string)
    requires n <= |lines|
    ensures LastTextFor(lines, n, word).Some? ==>
              LastTextFor(lines, n, word).value < n && GivesWord(lines[LastTextFor(lines, n, word).value], word)
  {
    hide GivesWord;
  }

  lemma OneMoreText(lines: seq<string>, n: nat, word: string)
    requires 0 < n <= |lines|
    ensures LastTextFor(lines, n, word) ==
            if GivesWord(lines[n - 1], word) then Some(n - 1) else LastTextFor(lines, n - 1, word)
    ensures LastTextFor(lines, 0, word) == None
  {
    hide GivesWord;
  }

  lemma TextAfter(s: Settings, token: string, site: Site, k: Key)
    requires IsText(k)
    ensures TextOf(AfterToken(s, token, site), k) == StrAfter(token, k, TextOf(s, k))
  {
    hide StrAfter, IntAfter, LevelAfter, CacheDirAfter;
  }

  /** The last of the first `n` lines that gives `k` a text decides. */
  function TextOfLast(lines: seq<string>, n: nat, word: string, default: string): string
    requires n <= |lines|
  {
    LastTextIs(lines, n, word);
    match LastTextFor(lines, n, word)
    case Some(i) => ValueText(Token(lines[i]))
    case None => default
  }

  lemma TextMore(lines: seq<string>, n: nat, k: Key, default: string)
    requires 0 < n <= |lines|
    ensures TextOfLast(lines, n, Keyword(k), default) ==
            StrAfter(Token(lines[n - 1]), k, TextOfLast(lines, n - 1, Keyword(k), default))
  {
    hide Keyword, StrAfter, GivesWord, ValueText, Token, TextOfLast;
    GivesMeans(lines[n - 1], k, TextOfLast(lines, n - 1, Keyword(k), default));
    TextDecides(lines, n, Keyword(k), default);
  }

  lemma TextDecides(lines: seq<string>, n: nat, word: string, default: string)
    requires 0 < n <= |lines|
    ensures TextOfLast(lines, n, word, default) ==
            if GivesWord(lines[n - 1], word) then ValueText(Token(lines[n - 1]))
            else TextOfLast(lines, n - 1, word, default)
  {
    hide GivesWord, ValueText, Token, LastTextFor;
    OneMoreText(lines, n, word);
  }

  lemma GivesMeans(line: string, k: Key, before: string)
    ensures StrAfter(Token(line), k, before) == if GivesWord(line, Keyword(k)) then ValueText(Token(line)) else before
  {
    hide Keyword, StartsWithNoCase, Assigns, ValueText, Token;
  }

  lemma {:induction false} TextFold(s: Settings, lines: seq<string>, n: nat, k: Key, sites: nat -> Site)
    requires n <= |lines| && IsText(k)
    ensures TextOf(AfterLines(s, lines, n, sites), k) == TextOfLast(lines, n, Keyword(k), TextOf(s, k))
  {
    hide Keyword, TextOf, AfterToken, TextOfLast, Token, StrAfter;
    if n > 0 {
      TextFold(s, lines, n - 1, k, sites);
      TextMore(lines, n, k, TextOf(s, k));
      OneMoreLine(s, lines, n - 1, sites);
      TextAfter(AfterLines(s, lines, n - 1, sites), Token(lines[n - 1]), sites(n - 1), k);
    } else {
      NoText(lines, Keyword(k), TextOf(s, k));
    }
  }

  lemma NoText(lines: seq<string>, word: string, default: string)
    ensures TextOfLast(lines, 0, word, default) == default
  {
  }

  /** The rejected line, applied last, gives no text. */
  lemma FileText(s: Settings, lines: seq<string>, sites: nat -> Site, k: Key)
    requires IsText(k)
    ensures FirstRejected(lines, sites) <= |lines|
    ensures TextOf(AfterFile(s, lines, sites), k) ==
            TextOf(AfterLines(s, lines, FirstRejected(lines, sites), sites), k)
  {
    FirstRejectedIs(lines, sites);
    var n := FirstRejected(lines, sites);
    hide Rejected, AfterToken, TextOf, FirstRejected, Token;
    if n < |lines| { RejectedGivesNone(AfterLines(s, lines, n, sites), Token(lines[n]), sites(n), k); }
  }

  lemma RejectedGivesNone(s: Settings, token: string, site: Site, k: Key)
    requires Rejected(token, site) && IsText(k)
    ensures TextOf(AfterToken(s, token, site), k) == TextOf(s, k)
  {
    hide Names, Assigns, ValueText, AfterToken, TextOf, NamesAny;
    TextAfter(s, token, site, k);
    if Assigns(token) && Names(token, k) { OneKey(token, k, CacheDir); }
  }

  /** The environment's text if it is not empty, else that of the last line that gives one before the
      first rejected line, else the default. */
  function TextIs(w: World, variable: string, word: string, default: string): string {
    if variable in w.env && w.env[variable] != "" then w.env[variable] else FileTextIs(w, word, default)
  }

  function FileTextIs(w: World, word: string, default: string): string {
    FirstRejectedIs(Lines(w), w.sites);
    TextOfLast(Lines(w), FirstRejected(Lines(w), w.sites), word, default)
  }

  lemma TextByKey(w: World, k: Key)
    requires IsText(k)
    ensures TextOf(AfterFile(WithCacheDir(DEFAULTS, w), Lines(w), w.sites), k) ==
            FileTextIs(w, Keyword(k), TextOf(DEFAULTS, k))
  {
    var s := WithCacheDir(DEFAULTS, w);
    assert TextOf(s, k) == TextOf(DEFAULTS, k);
    hide AfterFile, AfterLines, WithCacheDir, TextOf, Keyword, FirstRejected, TextOfLast, Lines;
    FileText(s, Lines(w), w.sites, k);
    TextFold(s, Lines(w), FirstRejected(Lines(w), w.sites), k, w.sites);
  }

  /** What the environment makes of the texts. */
  lemma EnvTexts(s: Settings, env: Env, compiles: string -> bool)
    ensures var c := AfterEnv(s, env, compiles);
            && c.compressionMethod == Getenv(env, "DROPLETFS_COMPRESSION_METHOD").GetOr(s.compressionMethod)
            && c.encryptionMethod == Getenv(env, "DROPLETFS_ENCRYPTION_METHOD").GetOr(s.encryptionMethod)
            && c.profilingLogfile == Getenv(env, "DROPLETFS_PROFILING_LOGFILE").GetOr(s.profilingLogfile)
            && c.exclusionPattern == PatternFromEnv(env, compiles, s.exclusionPattern)
            && c.logLevel == LevelFromEnv(env, s.logLevel)
  {
    hide Getenv, PatternFromEnv, LevelFromEnv, IntFromEnv, Excluding;
  }

  lemma TextFromEnv(w: World, variable: string, word: string, default: string)
    ensures TextIs(w, variable, word, default) == Getenv(w.env, variable).GetOr(FileTextIs(w, word, default))
  {
    hide FileTextIs;
  }

  /** Each text has its own variable, its own keyword and its own default. */
  lemma EveryText(w: World)
    ensures var c := Configured(w);
            && c.compressionMethod == TextIs(w, "DROPLETFS_COMPRESSION_METHOD", "compression_method", "NONE")
            && c.encryptionMethod == TextIs(w, "DROPLETFS_ENCRYPTION_METHOD", "encryption_method", "NONE")
            && c.profilingLogfile == TextIs(w, "DROPLETFS_PROFILING_LOGFILE", "profiling_logfile",
                                            "/tmp/dplfs_trace.log")
  {
    hide AfterFile, FileTextIs, WithCacheDir, AfterEnv, TextIs, Getenv, Lines;
    TextByKey(w, CompressionMethod);
    TextByKey(w, EncryptionMethod);
    TextByKey(w, ProfilingLogfile);
    EnvTexts(AfterFile(WithCacheDir(DEFAULTS, w), Lines(w), w.sites), w.env, w.compiles);
    TextFromEnv(w, "DROPLETFS_COMPRESSION_METHOD", "compression_method", "NONE");
    TextFromEnv(w, "DROPLETFS_ENCRYPTION_METHOD", "encryption_method", "NONE");
    TextFromEnv(w, "DROPLETFS_PROFILING_LOGFILE", "profiling_logfile", "/tmp/dplfs_trace.log");
  }

  /** The exclusion pattern's variable counts even when it is empty or wrong, and leaves no pattern then. */
  lemma ThePattern(w: World)
    ensures var v := "DROPLETFS_EXCLUSION_PATTERN";
            Configured(w).exclusionPattern ==
            if v !in w.env then FileTextIs(w, "exclusion_pattern", "")
            else if w.env[v] != "" && w.compiles(w.env[v]) then w.env[v] else ""
  {
    hide AfterFile, FileTextIs, WithCacheDir, AfterEnv, Lines, PatternFromEnv;
    TextByKey(w, ExclusionPattern);
    var s := AfterFile(WithCacheDir(DEFAULTS, w), Lines(w), w.sites);
    EnvTexts(s, w.env, w.compiles);
    PatternText(w.env, w.compiles, s.exclusionPattern);
  }

  lemma PatternText(env: Env, compiles: string -> bool, before: string)
    ensures var v := "DROPLETFS_EXCLUSION_PATTERN";
            PatternFromEnv(env, compiles, before) ==
            if v !in env then before else if env[v] != "" && compiles(env[v]) then env[v] else ""
  {
  }

  // ----- The log level -----

  function Level(text: string): int {
    match text
    case "LOG_EMERG" => 0
    case "LOG_ALERT" => 1
    case "LOG_CRIT" => 2
    case "LOG_ERR" => 3
    case "LOG_WARNING" => 4
    case "LOG_NOTICE" => 5
    case "LOG_INFO" => 6
    case "LOG_DEBUG" => 7
    case _ => 3
  }

  lemma LevelNames(text: string)
    ensures StrToLogLevel(text) == Level(text)
  {
  }

  function LevelOfLast(lines: seq<string>, n: nat, word: string, default: int): int
    requires n <= |lines|
  {
    match LastForWord(lines, n, word)
    case Some(i) => Level(ValueText(Token(lines[i])))
    case None => default
  }

  lemma LevelMore(lines: seq<string>, n: nat, default: int)
    requires 0 < n <= |lines|
    ensures LevelOfLast(lines, n, Keyword(LogLevel), default) ==
            LevelAfter(Token(lines[n - 1]), LevelOfLast(lines, n - 1, Keyword(LogLevel), default))
  {
    hide LastForWord, SetsWord, StartsWithNoCase, Assigns, ValueText, Token, Level, StrToLogLevel, Names, Keyword;
    SetsMeans(lines[n - 1], LogLevel);
    OneMoreWord(lines, n, Keyword(LogLevel));
    if Sets(lines[n - 1], LogLevel) {
      SetAssigns(lines[n - 1], LogLevel);
      LevelNames(ValueText(Token(lines[n - 1])));
    }
  }

  lemma SetAssigns(line: string, k: Key)
    requires Sets(line, k)
    ensures Assigns(Token(line))
  {
  }

  lemma OneMoreWord(lines: seq<string>, n: nat, word: string)
    requires 0 < n <= |lines|
    ensures LastForWord(lines, n, word) ==
            if SetsWord(lines[n - 1], word) then Some(n - 1) else LastForWord(lines, n - 1, word)
  {
    hide SetsWord;
  }

  lemma {:induction false} LevelFold(s: Settings, lines: seq<string>, n: nat, sites: nat -> Site)
    requires n <= |lines|
    ensures AfterLines(s, lines, n, sites).logLevel == LevelOfLast(lines, n, Keyword(LogLevel), s.logLevel)
  {
    hide Keyword;
    if n > 0 {
      hide AfterToken, Token, LevelAfter, LevelOfLast;
      LevelFold(s, lines, n - 1, sites);
      LevelMore(lines, n, s.logLevel);
      OneMoreLine(s, lines, n - 1, sites);
      LevelOne(AfterLines(s, lines, n - 1, sites), Token(lines[n - 1]), sites(n - 1));
    } else {
      hide Level, Token;
    }
  }

  lemma LevelOne(s: Settings, token: string, site: Site)
    ensures AfterToken(s, token, site).logLevel == LevelAfter(token, s.logLevel)
    ensures Rejected(token, site) ==> LevelAfter(token, s.logLevel) == s.logLevel
  {
    hide Names, Assigns, ValueText, StrAfter, IntAfter, CacheDirAfter, StrToLogLevel, NamesAny;
    if Assigns(token) && Names(token, LogLevel) && Names(token, CacheDir) { OneKey(token, LogLevel, CacheDir); }
  }

  lemma FileLevel(s: Settings, lines: seq<string>, sites: nat -> Site)
    ensures FirstRejected(lines, sites) <= |lines|
    ensures AfterFile(s, lines, sites).logLevel ==
            LevelOfLast(lines, FirstRejected(lines, sites), Keyword(LogLevel), s.logLevel)
  {
    FirstRejectedIs(lines, sites);
    var n := FirstRejected(lines, sites);
    hide FirstRejected, LevelOfLast, AfterToken, Token, Rejected, Keyword, LevelAfter;
    LevelFold(s, lines, n, sites);
    if n < |lines| { LevelOne(AfterLines(s, lines, n, sites), Token(lines[n]), sites(n)); }
  }

  lemma DefaultLevel(w: World)
    ensures WithCacheDir(DEFAULTS, w).logLevel == 3
  {
    hide FullCacheDir;
  }

  lemma LevelByKey(w: World)
    ensures FirstRejected(Lines(w), w.sites) <= |Lines(w)|
    ensures Configured(w).logLevel ==
            LevelFromEnv(w.env, LevelOfLast(Lines(w), FirstRejected(Lines(w), w.sites), Keyword(LogLevel), 3))
  {
    hide WithCacheDir, Lines, FirstRejected, LevelOfLast, AfterFile, LevelFromEnv, AfterEnv, Keyword;
    DefaultLevel(w);
    var s := WithCacheDir(DEFAULTS, w);
    EnvTexts(AfterFile(s, Lines(w), w.sites), w.env, w.compiles);
    FileLevel(s, Lines(w), w.sites);
  }

  /** The log level: by the environment's name if it is not empty, else by that on the last line for it
      before the first rejected one, else the level of errors. */
  lemma TheLevel(w: World)
    ensures FirstRejected(Lines(w), w.sites) <= |Lines(w)|
    ensures var v := "DROPLETFS_LOG_LEVEL";
            Configured(w).logLevel ==
            if v in w.env && w.env[v] != "" then Level(w.env[v])
            else LevelOfLast(Lines(w), FirstRejected(Lines(w), w.sites), "log_level", 3)
  {
    hide Lines, FirstRejected, LevelOfLast, Level, LevelFromEnv, Configured;
    LevelByKey(w);
    LevelFromName(w.env, LevelOfLast(Lines(w), FirstRejected(Lines(w), w.sites), "log_level", 3));
  }

  lemma LevelFromName(env: Env, before: int)
    ensures var v := "DROPLETFS_LOG_LEVEL";
            LevelFromEnv(env, before) == if v in env && env[v] != "" then Level(env[v]) else before
  {
    if "DROPLETFS_LOG_LEVEL" in env { LevelNames(env["DROPLETFS_LOG_LEVEL"]); }
    hide Level, StrToLogLevel;
  }

  // ----- What a line says -----

  /** A line is rejected when it has no '=' and begins with a keyword, in any case of its letters, or when
      it names a cache directory that cannot be made. */
  lemma RejectedMeans(token: string, site: Site)
    ensures Rejected(token, site) <==>
            if '=' in token then StartsWithNoCase(token, "cache_dir") && !site.mkdirOk
            else
              || StartsWithNoCase(token, "compression_method") || StartsWithNoCase(token, "zlib_level")
              || StartsWithNoCase(token, "max_retry") || StartsWithNoCase(token, "gc_loop_delay")
              || StartsWithNoCase(token, "gc_age_threshold") || StartsWithNoCase(token, "sc_loop_delay")
              || StartsWithNoCase(token, "sc_age_threshold") || StartsWithNoCase(token, "cache_dir")
              || StartsWithNoCase(token, "exclusion_pattern") || StartsWithNoCase(token, "encryption_method")
              || StartsWithNoCase(token, "cache_max_size") || StartsWithNoCase(token, "log_level")
              || StartsWithNoCase(token, "profiling")
  {
    if Names(token, ProfilingLogfile) { PrefixOverlap(token); }
    hide StartsWithNoCase;
  }

  /** A line that is written out: the keyword in any case of its letters, behind spaces and in front of
      anything without a '=', then the '=' and a number. It gives the keyword's setting that number. */
  lemma WrittenInAnyCase(blanks: string, word: string, written: string, gap: string, n: nat, rest: string)
    requires AllSpace(blanks) && |written| == |word| && written != "" && !IsSpace(written[0])
    requires forall i :: 0 <= i < |word| ==>
               || written[i] == word[i]
               || (65 <= written[i] as int <= 90 && word[i] as int == written[i] as int + 32)
               || (65 <= word[i] as int <= 90 && written[i] as int == word[i] as int + 32)
    requires '=' !in written && '=' !in gap && (rest == "" || !IsDigit(rest[0])) && n < 0x8000_0000
    ensures var line := blanks + (written + gap + "=" + (blanks + (Print(n) + rest)));
            SetsWord(line, word) && CInt(ValueText(Token(line))) == n
  {
    hide IsSpace, Print, IsDigit, CInt, SkipSpaces;
    var value, token := blanks + (Print(n) + rest), written + gap + "=" + (blanks + (Print(n) + rest));
    assert token[0] == written[0];
    SkipsSpaces(blanks, token);
    assert StartsWithNoCase(token, word) by { Begins(written, gap + "=" + value, word, token); }
    hide StartsWithNoCase, AllSpace, ValueText, Assigns;
    ValueAfter(written + gap, value);
    assert SkipSpaces(value) == Print(n) + rest by {
      FirstDigit(n, rest);
      SkipsSpaces(blanks, Print(n) + rest);
    }
    NumberRead(n, rest);
  }

  lemma Begins(written: string, after: string, word: string, token: string)
    requires |written| == |word| && token == written + after
    requires forall i :: 0 <= i < |word| ==>
               || written[i] == word[i]
               || (65 <= written[i] as int <= 90 && word[i] as int == written[i] as int + 32)
               || (65 <= word[i] as int <= 90 && written[i] as int == word[i] as int + 32)
    ensures StartsWithNoCase(token, word)
  {
    NoCaseMeans(token, word);
    hide StartsWithNoCase;
    forall i | 0 <= i < |word| ensures token[i] == written[i] {}
  }

  lemma FirstDigit(n: nat, rest: string)
    requires rest == "" || !IsDigit(rest[0])
    ensures Print(n) + rest != "" && !IsSpace((Print(n) + rest)[0])
  {
    DigitsFirst(n, rest);
    hide Print, DigitRun;
  }

  lemma NumberRead(n: nat, rest: string)
    requires (rest == "" || !IsDigit(rest[0])) && n < 0x8000_0000
    ensures CInt(Print(n) + rest) == n
  {
    hide Print, Strtoull, IsDigit;
    ReadsInt("", n, rest, "");
    var u := Print(n) + rest;
    assert "" + ("" + u) == u;
  }

  lemma {:induction false} ValueAfter(before: string, value: string)
    requires '=' !in before
    ensures Assigns(before + "=" + value) && ValueText(before + "=" + value) == SkipSpaces(value)
  {
    hide SkipSpaces;
    var s := before + "=" + value;
    if before == "" {
      assert s[0] == '=' && s[1..] == value;
    } else {
      assert s[0] == before[0] && s[1..] == before[1..] + "=" + value;
      ValueAfter(before[1..], value);
      assert '=' in s[1..];
    }
  }

  // ----- The cache directory -----

  /** The directory that is used: the bucket below the one given, without the slashes at its end if it
      could be made. */
  lemma CacheDirIs(dir: string, site: Site)
    ensures var full, r := dir + "/" + site.bucket, FullCacheDir(dir, site);
            && r <= full && (forall i :: |r| <= i < |full| ==> full[i] == '/')
            && (site.mkdirOk ==> r == "" || r[|r| - 1] != '/')
            && (!site.mkdirOk ==> r == full)
  {
    if site.mkdirOk { Stripped(dir + "/" + site.bucket); }
  }

  lemma {:induction false} Stripped(s: string)
    ensures var r := StripSlashes(s);
            && r <= s && (forall i :: |r| <= i < |s| ==> s[i] == '/')
            && (r == "" || r[|r| - 1] != '/')
  {
    if s != "" && s[|s| - 1] == '/' { Stripped(s[..|s| - 1]); }
  }
}
