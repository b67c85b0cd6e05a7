/** What the configuration file and the environment make of the settings. */
module ConfSpec {
  import opened Basics
  import opened Text
  import opened Decimal

  /** The settings a line of the file can name. */
  datatype Key =
    | CompressionMethod | ZlibLevel | MaxRetry | GcLoopDelay | GcAgeThreshold | ScLoopDelay | ScAgeThreshold
    | CacheDir | ExclusionPattern | EncryptionMethod | CacheMaxSize | LogLevel | Profiling | ProfilingLogfile

  function Keyword(k: Key): string {
    match k
    case CompressionMethod => "compression_method"
    case ZlibLevel => "zlib_level"
    case MaxRetry => "max_retry"
    case GcLoopDelay => "gc_loop_delay"
    case GcAgeThreshold => "gc_age_threshold"
    case ScLoopDelay => "sc_loop_delay"
    case ScAgeThreshold => "sc_age_threshold"
    case CacheDir => "cache_dir"
    case ExclusionPattern => "exclusion_pattern"
    case EncryptionMethod => "encryption_method"
    case CacheMaxSize => "cache_max_size"
    case LogLevel => "log_level"
    case Profiling => "profiling"
    case ProfilingLogfile => "profiling_logfile"
  }

  /** The integer settings the environment can override. */
  predicate IsInt(k: Key) {
    k == ZlibLevel || k == MaxRetry || k == GcLoopDelay || k == GcAgeThreshold || k == ScLoopDelay
        || k == ScAgeThreshold
    || k == CacheMaxSize || k == Profiling
  }

  /** The variable that does: src/env.c:79-138. */
  function Variable(k: Key): string
    requires IsInt(k)
  {
    match k
    case ZlibLevel => "DROPLETFS_ZLIB_LEVEL"
    case MaxRetry => "DROPLETFS_MAX_RETRY"
    case GcLoopDelay => "DROPLETFS_GC_LOOP_DELAY"
    case GcAgeThreshold => "DROPLETFS_GC_AGE_THRESHOLD"
    case ScLoopDelay => "DROPLETFS_SC_LOOP_DELAY"
    case ScAgeThreshold => "DROPLETFS_SC_AGE_THRESHOLD"
    case CacheMaxSize => "DROPLETFS_CACHE_MAX_SIZE"
    case Profiling => "DROPLETFS_PROFILING"
  }

  /** `excluding` is the field `set` of the exclusion pattern: without it nothing is matched. */
  datatype Settings = Settings(
    compressionMethod: string, zlibLevel: int, maxRetry: int, gcLoopDelay: int, gcAgeThreshold: int,
    scLoopDelay: int, scAgeThreshold: int, cacheDir: string, exclusionPattern: string, excluding: bool,
    encryptionMethod: string, cacheMaxSize: int, logLevel: int, profiling: int, profilingLogfile: string)

  function IntOf(s: Settings, k: Key): int
    requires IsInt(k)
  {
    match k
    case ZlibLevel => s.zlibLevel
    case MaxRetry => s.maxRetry
    case GcLoopDelay => s.gcLoopDelay
    case GcAgeThreshold => s.gcAgeThreshold
    case ScLoopDelay => s.scLoopDelay
    case ScAgeThreshold => s.scAgeThreshold
    case CacheMaxSize => s.cacheMaxSize
    case Profiling => s.profiling
  }

  const LOG_ERR := 3

  /** src/conf.c:16-31, 503-513. */
  const DEFAULTS := Settings("NONE", 3, 5, 60, 900, 0, 0, "/tmp", "", false, "NONE", 10 * 1024 * 1024, LOG_ERR, 0,
                             "/tmp/dplfs_trace.log")

  // ----- One line -----

  predicate Names(token: string, k: Key) {
    StartsWithNoCase(token, Keyword(k))
  }

  predicate Assigns(token: string) {
    '=' in token
  }

  /** What follows the first '=', spaces skipped. */
  function ValueText(token: string): string
    requires Assigns(token)
  {
    if token[0] == '=' then SkipSpaces(token[1..]) else ValueText(token[1..])
  }

  lemma PastLetter(line: string, p: nat)
    requires p < |line| && line[p] != '='
    ensures Assigns(line[p..]) == Assigns(line[p + 1..])
    ensures Assigns(line[p..]) ==> ValueText(line[p..]) == ValueText(line[p + 1..])
  {
    hide SkipSpaces;
    assert line[p..][1..] == line[p + 1..];
  }

  lemma AtAssignment(line: string, p: nat)
    requires p < |line| && line[p] == '='
    ensures Assigns(line[p..]) && ValueText(line[p..]) == SkipSpaces(line[p + 1..])
  {
    hide SkipSpaces;
    assert line[p..][0] == '=' && line[p..][1..] == line[p + 1..];
  }

  /** (int)strtoul(text, NULL, 10), where a long has 64 bits. */
  function CInt(text: string): int {
    ToInt32(Strtoull(text))
  }

  function IntAfter(token: string, k: Key, before: int): int {
    if Names(token, k) && Assigns(token) then CInt(ValueText(token)) else before
  }

  /** An empty value leaves the string that was there. */
  function StrAfter(token: string, k: Key, before: string): string {
    if Names(token, k) && Assigns(token) && ValueText(token) != "" then ValueText(token) else before
  }

  function StripSlashes(s: string): string {
    if s != "" && s[|s| - 1] == '/' then StripSlashes(s[..|s| - 1]) else s
  }

  /** What a cache directory is made with: the bucket's name, and whether mkdir(2) succeeds. */
  datatype Site = Site(bucket: string, mkdirOk: bool)

  /** conf_set_full_cache_dir: src/conf.c:168-210. The trailing slashes go only when the directory is there. */
  function FullCacheDir(dir: string, site: Site): string {
    var full := dir + "/" + site.bucket;
    if site.mkdirOk then StripSlashes(full) else full
  }

  function CacheDirAfter(token: string, site: Site, before: string): string {
    if Names(token, CacheDir) && Assigns(token) then FullCacheDir(StrAfter(token, CacheDir, before), site) else before
  }

  /** str_to_log_level: src/conf.c:83-99. */
  function StrToLogLevel(s: string): int {
    if s == "LOG_EMERG" then 0
    else if s == "LOG_ALERT" then 1
    else if s == "LOG_CRIT" then 2
    else if s == "LOG_ERR" then 3
    else if s == "LOG_WARNING" then 4
    else if s == "LOG_NOTICE" then 5
    else if s == "LOG_INFO" then 6
    else if s == "LOG_DEBUG" then 7
    else LOG_ERR
  }

  function LevelAfter(token: string, before: int): int {
    if Names(token, LogLevel) && Assigns(token) then StrToLogLevel(ValueText(token)) else before
  }

  predicate NamesAny(token: string) {
    NamesEarly(token) || NamesLate(token)
  }

  /** The settings parse_token looks for before cache_dir, and from there on. */
  predicate NamesEarly(token: string) {
    Names(token, CompressionMethod) || Names(token, ZlibLevel) || Names(token, MaxRetry) || Names(token, GcLoopDelay)
    || Names(token, GcAgeThreshold) || Names(token, ScLoopDelay) || Names(token, ScAgeThreshold)
  }

  predicate NamesLate(token: string) {
    Names(token, CacheDir) || Names(token, ExclusionPattern) || Names(token, EncryptionMethod)
        || Names(token, CacheMaxSize)
    || Names(token, LogLevel) || Names(token, Profiling) || Names(token, ProfilingLogfile)
  }

  lemma NamesAnyKey(token: string)
    ensures NamesAny(token) <==> exists k: Key :: Names(token, k)
  {
    hide Names;
    if k: Key :| Names(token, k) {
      match k
      case CompressionMethod | ZlibLevel | MaxRetry | GcLoopDelay | GcAgeThreshold | ScLoopDelay | ScAgeThreshold =>
        assert NamesEarly(token);
      case _ =>
        assert NamesLate(token);
    }
  }

  /** A line that names a setting and has no '=' is rejected, and so is one whose cache directory
      cannot be made; any other line is accepted. */
  predicate Rejected(token: string, site: Site) {
    (!Assigns(token) && NamesAny(token)) || (Assigns(token) && Names(token, CacheDir) && !site.mkdirOk)
  }

  function AfterToken(s: Settings, token: string, site: Site): Settings {
    Settings(StrAfter(token, CompressionMethod, s.compressionMethod), IntAfter(token, ZlibLevel, s.zlibLevel),
             IntAfter(token, MaxRetry, s.maxRetry), IntAfter(token, GcLoopDelay, s.gcLoopDelay),
             IntAfter(token, GcAgeThreshold, s.gcAgeThreshold), IntAfter(token, ScLoopDelay, s.scLoopDelay),
             IntAfter(token, ScAgeThreshold, s.scAgeThreshold), CacheDirAfter(token, site, s.cacheDir),
             StrAfter(token, ExclusionPattern, s.exclusionPattern), s.excluding,
               StrAfter(token, EncryptionMethod, s.encryptionMethod),
             IntAfter(token, CacheMaxSize, s.cacheMaxSize), LevelAfter(token, s.logLevel),
             IntAfter(token, Profiling, s.profiling), StrAfter(token, ProfilingLogfile, s.profilingLogfile))
  }

  lemma NothingAssigned(token: string, site: Site)
    requires !Assigns(token)
    ensures forall k: Key, x :: IntAfter(token, k, x) == x
    ensures forall k: Key, x :: StrAfter(token, k, x) == x
    ensures forall x :: LevelAfter(token, x) == x
    ensures forall x :: CacheDirAfter(token, site, x) == x
  {
  }

  /** The letters of a keyword at positions 0, 3 and 6. */
  function Letters(k: Key): (char, char, char) {
    match k
    case CompressionMethod => ('c', 'p', 's')
    case ZlibLevel => ('z', 'b', 'e')
    case MaxRetry => ('m', '_', 't')
    case GcLoopDelay => ('g', 'l', 'p')
    case GcAgeThreshold => ('g', 'a', '_')
    case ScLoopDelay => ('s', 'l', 'p')
    case ScAgeThreshold => ('s', 'a', '_')
    case CacheDir => ('c', 'h', 'd')
    case ExclusionPattern => ('e', 'l', 'i')
    case EncryptionMethod => ('e', 'r', 't')
    case CacheMaxSize => ('c', 'h', 'm')
    case LogLevel => ('l', '_', 'v')
    case Profiling => ('p', 'f', 'i')
    case ProfilingLogfile => ('p', 'f', 'i')
  }

  lemma LettersAre(k: Key)
    ensures |Keyword(k)| > 6 && (Keyword(k)[0], Keyword(k)[3], Keyword(k)[6]) == Letters(k)
  {
  }

  lemma TokenLetters(token: string, k: Key)
    requires Names(token, k)
    ensures |token| > 6 && (Lower(token[0]), Lower(token[3]), Lower(token[6])) == Letters(k)
  {
    LettersAre(k);
    hide Keyword;
  }

  /** A token names two settings only in one case. */
  lemma OneKey(token: string, k: Key, j: Key)
    requires Names(token, k) && Names(token, j) && k != j
    ensures {k, j} == {Profiling, ProfilingLogfile}
  {
    hide Names;
    TokenLetters(token, k);
    TokenLetters(token, j);
  }

  lemma OnlyKey(token: string, k: Key)
    requires Names(token, k) && k != Profiling && k != ProfilingLogfile
    ensures forall j: Key :: j != k ==> !Names(token, j)
  {
    hide Names;
    forall j: Key | j != k ensures !Names(token, j)
    {
      if Names(token, j) { OneKey(token, k, j); }
    }
  }

  lemma NothingElse(token: string)
    requires forall j: Key :: j != CacheDir ==> !Names(token, j)
    ensures forall k: Key, x :: k != CacheDir ==> IntAfter(token, k, x) == x
    ensures forall k: Key, x :: k != CacheDir ==> StrAfter(token, k, x) == x
    ensures forall x :: LevelAfter(token, x) == x
  {
    hide Names;
  }

  /** Every line for profiling_logfile is one for profiling too. */
  lemma PrefixOverlap(token: string)
    requires Names(token, ProfilingLogfile)
    ensures Names(token, Profiling)
  {
    var a, b := Keyword(Profiling), Keyword(ProfilingLogfile);
    assert a == b[..|a|];
  }

  /** The lines name no common setting. */
  ghost predicate Apart(a: string, b: string) {
    forall k: Key :: !(Names(a, k) && Names(b, k))
  }

  /** Lines that have no setting in common commute. */
  lemma LinesCommute(s: Settings, a: string, b: string, i: Site, j: Site)
    requires Apart(a, b)
    ensures AfterToken(AfterToken(s, a, i), b, j) == AfterToken(AfterToken(s, b, j), a, i)
  {
    hide Names, CInt, ValueText, FullCacheDir, StrToLogLevel;
    assert forall k: Key :: !Names(a, k) || !Names(b, k);
  }

  /** A line for profiling and one for its log file commute only when both read as the same number. */
  lemma ProfilingOrder(s: Settings, a: string, b: string, i: Site, j: Site)
    requires Names(a, Profiling) && !Names(a, ProfilingLogfile) && Names(b, ProfilingLogfile)
    requires Assigns(a) && Assigns(b)
    ensures AfterToken(AfterToken(s, a, i), b, j) == AfterToken(AfterToken(s, b, j), a, i)
            <==> CInt(ValueText(a)) == CInt(ValueText(b))
  {
    hide Names, CInt, ValueText, FullCacheDir, StrToLogLevel, Assigns;
    PrefixOverlap(b);
    OnlyTheseTwo(a, b);
    var ab, ba := AfterToken(AfterToken(s, a, i), b, j), AfterToken(AfterToken(s, b, j), a, i);
    assert ab.profiling == CInt(ValueText(b)) && ba.profiling == CInt(ValueText(a));
  }

  lemma OnlyTheseTwo(a: string, b: string)
    requires Names(a, Profiling) && Names(b, Profiling)
    ensures forall k: Key :: k != Profiling && k != ProfilingLogfile ==> !Names(a, k) && !Names(b, k)
  {
    hide Names;
    forall k: Key | k != Profiling && k != ProfilingLogfile ensures !Names(a, k) && !Names(b, k)
    {
      if Names(a, k) { OneKey(a, k, Profiling); }
      if Names(b, k) { OneKey(b, k, Profiling); }
    }
  }

  lemma NotANumber(text: string)
    requires text != "" && !IsDigit(text[0]) && !IsSpace(text[0]) && text[0] != '-' && text[0] != '+'
    ensures CInt(text) == 0
  {
    assert SkipSpaces(text) == text && DigitRun(text) == 0 && text[..0] == "";
  }

  /** So naming an absolute path as log file turns profiling off. */
  lemma LogfileTurnsProfilingOff(s: Settings, token: string, site: Site)
    requires Names(token, ProfilingLogfile) && Assigns(token)
    requires ValueText(token) != "" && ValueText(token)[0] == '/'
    ensures AfterToken(s, token, site).profiling == 0
  {
    hide Names, Assigns, ValueText, CacheDirAfter, StrAfter, LevelAfter, CInt;
    PrefixOverlap(token);
    NotANumber(ValueText(token));
  }

  /** The manual's "compression_level" is no setting: such a line is accepted and changes nothing. */
  lemma CompressionLevelIgnored(s: Settings, token: string, site: Site)
    requires StartsWithNoCase(token, "compression_level")
    ensures AfterToken(s, token, site) == s && !Rejected(token, site)
  {
    forall k: Key ensures !Names(token, k)
    {
      CompressionLevelNames(token, k);
    }
    NamesAnyKey(token);
    hide Names, NamesAny, Assigns, ValueText, CInt;
  }

  lemma CompressionLevelNames(token: string, k: Key)
    requires StartsWithNoCase(token, "compression_level")
    ensures !Names(token, k)
  {
    var a, c := Keyword(k), "compression_level";
    assert Lower(token[0]) == Lower(c[0]) && Lower(token[1]) == Lower(c[1]) && Lower(token[12]) == Lower(c[12]);
    assert Lower(a[0]) != Lower(c[0]) || Lower(a[1]) != Lower(c[1]) || k == CompressionMethod;
    assert Lower(Keyword(CompressionMethod)[12]) != Lower(c[12]);
  }

  /** A blank line and a comment name nothing. */
  lemma CommentIgnored(s: Settings, token: string, site: Site)
    requires token == "" || token[0] == '#'
    ensures AfterToken(s, token, site) == s && !Rejected(token, site)
  {
    hide Names, NamesAny, Assigns, ValueText, CInt;
    forall k: Key ensures !Names(token, k)
    {
      if Names(token, k) { TokenLetters(token, k); }
    }
    NamesAnyKey(token);
  }

  // ----- The file -----

  function Token(line: string): string {
    SkipSpaces(line)
  }

  predicate RejectedAt(lines: seq<string>, sites: nat -> Site, i: nat) {
    i < |lines| && Rejected(Token(lines[i]), sites(i))
  }

  /** The first rejected line, or the number of lines; reading the file stops there. */
  function FirstRejected(lines: seq<string>, sites: nat -> Site): (n: nat) {
    FirstFrom(0, |lines|, (i: nat) => RejectedAt(lines, sites, i))
  }

  lemma FirstRejectedIs(lines: seq<string>, sites: nat -> Site)
    ensures var n := FirstRejected(lines, sites);
            && n <= |lines| && (n < |lines| ==> RejectedAt(lines, sites, n))
            && forall i: nat :: i < n ==> !RejectedAt(lines, sites, i)
  {
    hide RejectedAt;
    var p := (i: nat) => RejectedAt(lines, sites, i);
    forall i: nat | i < FirstRejected(lines, sites) ensures !RejectedAt(lines, sites, i)
    {
      assert !p(i);
    }
  }

  lemma RejectedHere(lines: seq<string>, sites: nat -> Site, i: nat)
    requires i < |lines|
    ensures RejectedAt(lines, sites, i) == Rejected(Token(lines[i]), sites(i))
  {
    hide Rejected, Token;
  }

  function AfterLines(s: Settings, lines: seq<string>, n: nat, sites: nat -> Site): Settings
    requires n <= |lines|
  {
    if n == 0 then s else AfterToken(AfterLines(s, lines, n - 1, sites), Token(lines[n - 1]), sites(n - 1))
  }

  /** The rejected line takes its effect too, if it has one, and is the last to do so. */
  function AfterFile(s: Settings, lines: seq<string>, sites: nat -> Site): Settings {
    FirstRejectedIs(lines, sites);
    var n := FirstRejected(lines, sites);
    AfterLines(s, lines, if n < |lines| then n + 1 else n, sites)
  }

  lemma NoLines(s: Settings, sites: nat -> Site)
    ensures AfterFile(s, [], sites) == s
  {
    FirstRejectedIs([], sites);
  }

  // ----- Two neighbouring lines of the file -----

  function Swapped(lines: seq<string>, i: nat): (r: seq<string>)
    requires i + 1 < |lines|
    ensures |r| == |lines|
  {
    lines[i := lines[i + 1]][i + 1 := lines[i]]
  }

  /** How making the cache directory of a line goes does not depend on the line's place. */
  function SwappedSites(sites: nat -> Site, i: nat): nat -> Site {
    (j: nat) => if j == i then sites(i + 1) else if j == i + 1 then sites(i) else sites(j)
  }

  lemma SwappedAt(lines: seq<string>, sites: nat -> Site, i: nat, j: nat)
    requires i + 1 < |lines| && j < |lines|
    ensures var k := if j == i then i + 1 else if j == i + 1 then i else j;
            Swapped(lines, i)[j] == lines[k] && SwappedSites(sites, i)(j) == sites(k)
  {
  }

  lemma {:induction false} SwapLater(s: Settings, lines: seq<string>, sites: nat -> Site, i: nat, n: nat)
    requires i + 1 < |lines| && n <= |lines| && n != i + 1 && Apart(Token(lines[i]), Token(lines[i + 1]))
    ensures AfterLines(s, Swapped(lines, i), n, SwappedSites(sites, i)) == AfterLines(s, lines, n, sites)
  {
    hide AfterToken, Token, Apart, Swapped, SwappedSites;
    var lines', sites' := Swapped(lines, i), SwappedSites(sites, i);
    if n == i + 2 {
      SwapLater(s, lines, sites, i, i);
      SwappedAt(lines, sites, i, i);
      SwappedAt(lines, sites, i, i + 1);
      OneMoreLine(s, lines, i, sites);
      OneMoreLine(s, lines, i + 1, sites);
      OneMoreLine(s, lines', i, sites');
      OneMoreLine(s, lines', i + 1, sites');
      hide AfterLines;
      LinesCommute(AfterLines(s, lines, i, sites), Token(lines[i]), Token(lines[i + 1]), sites(i), sites(i + 1));
    } else if n > 0 {
      SwapLater(s, lines, sites, i, n - 1);
      SwappedAt(lines, sites, i, n - 1);
      OneMoreLine(s, lines, n - 1, sites);
      OneMoreLine(s, lines', n - 1, sites');
    }
  }

  lemma OneMoreLine(s: Settings, lines: seq<string>, n: nat, sites: nat -> Site)
    requires n < |lines|
    ensures AfterLines(s, lines, n + 1, sites) == AfterToken(AfterLines(s, lines, n, sites), Token(lines[n]), sites(n))
  {
    hide AfterToken, Token;
  }

  lemma SwapRejected(lines: seq<string>, sites: nat -> Site, i: nat)
    requires i + 1 < |lines| && !RejectedAt(lines, sites, i) && !RejectedAt(lines, sites, i + 1)
    ensures FirstRejected(Swapped(lines, i), SwappedSites(sites, i)) == FirstRejected(lines, sites)
    ensures FirstRejected(lines, sites) != i && FirstRejected(lines, sites) != i + 1
  {
    hide Rejected, Token, FirstRejected, SwappedSites;
    var lines', sites' := Swapped(lines, i), SwappedSites(sites, i);
    forall j: nat | j < |lines|
      ensures RejectedAt(lines', sites', j) == (j != i && j != i + 1 && RejectedAt(lines, sites, j))
    {
      SwappedAt(lines, sites, i, j);
    }
    hide RejectedAt, Swapped;
    FirstRejectedIs(lines, sites);
    FirstRejectedIs(lines', sites');
  }

  /** Two neighbouring lines that name no common setting and are not rejected can change places,
      whatever stands before and after them: the file says the same. */
  lemma NeighboursCommute(s: Settings, lines: seq<string>, sites: nat -> Site, i: nat)
    requires i + 1 < |lines| && !RejectedAt(lines, sites, i) && !RejectedAt(lines, sites, i + 1)
    requires Apart(Token(lines[i]), Token(lines[i + 1]))
    ensures AfterFile(s, Swapped(lines, i), SwappedSites(sites, i)) == AfterFile(s, lines, sites)
  {
    hide Rejected, AfterLines, Apart, FirstRejected, Token, RejectedAt;
    SwapRejected(lines, sites, i);
    FirstRejectedIs(lines, sites);
    var n := FirstRejected(lines, sites);
    SwapLater(s, lines, sites, i, if n < |lines| then n + 1 else n);
  }

  // ----- The environment -----

  type Env = map<string, string>

  function Getenv(env: Env, variable: string): Option<string> {
    if variable in env && env[variable] != "" then Some(env[variable]) else None
  }

  function IntFromEnv(env: Env, k: Key, before: int): int
    requires IsInt(k)
  {
    match Getenv(env, Variable(k))
    case Some(text) => CInt(text)
    case None => before
  }

  /** re_dtor and re_ctor on the variable's text: an empty or a wrong one leaves nothing to match. */
  function Excluding(env: Env, compiles: string -> bool, before: bool): bool {
    if "DROPLETFS_EXCLUSION_PATTERN" in env then
      env["DROPLETFS_EXCLUSION_PATTERN"] != "" && compiles(env["DROPLETFS_EXCLUSION_PATTERN"])
    else before
  }

  /** What is left of the pattern's text. */
  function PatternFromEnv(env: Env, compiles: string -> bool, before: string): string {
    if "DROPLETFS_EXCLUSION_PATTERN" in env then
      if Excluding(env, compiles, false) then env["DROPLETFS_EXCLUSION_PATTERN"] else ""
    else before
  }

  function LevelFromEnv(env: Env, before: int): int {
    match Getenv(env, "DROPLETFS_LOG_LEVEL")
    case Some(text) => StrToLogLevel(text)
    case None => before
  }

  /** env_override_conf. `compiles` is what regcomp(3) answers. */
  function AfterEnv(s: Settings, env: Env, compiles: string -> bool): Settings {
    Settings(Getenv(env, "DROPLETFS_COMPRESSION_METHOD").GetOr(s.compressionMethod),
             IntFromEnv(env, ZlibLevel, s.zlibLevel), IntFromEnv(env, MaxRetry, s.maxRetry),
             IntFromEnv(env, GcLoopDelay, s.gcLoopDelay), IntFromEnv(env, GcAgeThreshold, s.gcAgeThreshold),
             IntFromEnv(env, ScLoopDelay, s.scLoopDelay), IntFromEnv(env, ScAgeThreshold, s.scAgeThreshold),
             s.cacheDir, PatternFromEnv(env, compiles, s.exclusionPattern), Excluding(env, compiles, s.excluding),
             Getenv(env, "DROPLETFS_ENCRYPTION_METHOD").GetOr(s.encryptionMethod),
             IntFromEnv(env, CacheMaxSize, s.cacheMaxSize), LevelFromEnv(env, s.logLevel),
             IntFromEnv(env, Profiling, s.profiling),
             Getenv(env, "DROPLETFS_PROFILING_LOGFILE").GetOr(s.profilingLogfile))
  }

  // ----- All of it -----

  /** What conf_ctor finds: whether HOME is set, the lines of the file if there is one, how making the
      first cache directory and that of each line goes, the environment, and which patterns compile. */
  datatype World = World(home: bool, site: Site, file: Option<seq<string>>, sites: nat -> Site, env: Env,
                         compiles: string -> bool)

  /** The lines that are read at all. */
  function Lines(w: World): seq<string> {
    if w.home && w.site.mkdirOk && w.file.Some? then w.file.value else []
  }

  function WithCacheDir(s: Settings, w: World): Settings {
    if w.home then s.(cacheDir := FullCacheDir(s.cacheDir, w.site)) else s
  }

  function Configured(w: World): Settings {
    AfterEnv(AfterFile(WithCacheDir(DEFAULTS, w), Lines(w), w.sites), w.env, w.compiles)
  }

  /** The line gives a value to what `word` stands for. */
  predicate SetsWord(line: string, word: string) {
    StartsWithNoCase(Token(line), word) && Assigns(Token(line))
  }

  /** The line sets `k`. */
  predicate Sets(line: string, k: Key) {
    SetsWord(line, Keyword(k))
  }

  /** The position of the last of the first `n` elements that satisfies `p`. */
  function LastWhere<T>(s: seq<T>, n: nat, p: T -> bool): (r: Option<nat>)
    requires n <= |s|
    ensures r.Some? ==> r.value < n && p(s[r.value])
    ensures forall i :: (if r.Some? then r.value < i else 0 <= i) && i < n ==> !p(s[i])
  {
    if n == 0 then None else if p(s[n - 1]) then Some(n - 1) else LastWhere(s, n - 1, p)
  }

  lemma SetsMeans(line: string, k: Key)
    ensures Sets(line, k) <==> Names(Token(line), k) && Assigns(Token(line))
  {
  }

  function LastForWord(lines: seq<string>, n: nat, word: string): Option<nat>
    requires n <= |lines|
  {
    LastWhere(lines, n, line => SetsWord(line, word))
  }

  function LastFor(lines: seq<string>, n: nat, k: Key): Option<nat>
    requires n <= |lines|
  {
    LastForWord(lines, n, Keyword(k))
  }

  /** The last of the first `n` lines that sets `k` decides, whatever the others are. */
  lemma {:induction false} FileFold(s: Settings, lines: seq<string>, n: nat, k: Key, sites: nat -> Site)
    requires n <= |lines| && IsInt(k)
    ensures IntOf(AfterLines(s, lines, n, sites), k) ==
            match LastFor(lines, n, k)
            case Some(i) => CInt(ValueText(Token(lines[i])))
            case None => IntOf(s, k)
  {
    hide Names, Assigns, CInt, ValueText, FullCacheDir, StrToLogLevel, Token, CacheDirAfter, StrAfter, LevelAfter;
    if n > 0 {
      FileFold(s, lines, n - 1, k, sites);
      SetsMeans(lines[n - 1], k);
    }
  }

  /** The rejected line, applied last, has no effect on an integer setting. */
  lemma FileSetting(s: Settings, lines: seq<string>, sites: nat -> Site, k: Key)
    requires IsInt(k)
    ensures FirstRejected(lines, sites) <= |lines|
    ensures var n := FirstRejected(lines, sites);
            IntOf(AfterFile(s, lines, sites), k) == IntOf(AfterLines(s, lines, n, sites), k)
  {
    hide Rejected, AfterToken, IntOf, FirstRejected;
    FirstRejectedIs(lines, sites);
    var n := FirstRejected(lines, sites);
    if n < |lines| { RejectedLine(AfterLines(s, lines, n, sites), Token(lines[n]), sites(n), k); }
  }

  lemma {:induction false} FileExcludesNothing(s: Settings, lines: seq<string>, n: nat, sites: nat -> Site)
    requires n <= |lines|
    ensures AfterLines(s, lines, n, sites).excluding == s.excluding
  {
    hide Token;
    if n > 0 { FileExcludesNothing(s, lines, n - 1, sites); }
  }

  /** Paths are excluded if and only if the environment has a pattern that compiles: the file's lines set
      the pattern's text, which nothing compiles. */
  lemma ExclusionByEnvironment(w: World)
    ensures Configured(w).excluding <==>
            "DROPLETFS_EXCLUSION_PATTERN" in w.env && w.env["DROPLETFS_EXCLUSION_PATTERN"] != ""
            && w.compiles(w.env["DROPLETFS_EXCLUSION_PATTERN"])
  {
    hide AfterLines, FirstRejected, Lines;
    var lines, s := Lines(w), WithCacheDir(DEFAULTS, w);
    FirstRejectedIs(lines, w.sites);
    var n := FirstRejected(lines, w.sites);
    FileExcludesNothing(s, lines, if n < |lines| then n + 1 else n, w.sites);
  }

  /** Precedence: the environment's value if it is not empty, else the value on the last line for
      the setting before the first rejected line, else the default. */
  lemma Precedence(w: World, k: Key)
    requires IsInt(k)
    ensures FirstRejected(Lines(w), w.sites) <= |Lines(w)|
    ensures IntOf(Configured(w), k) ==
            match Getenv(w.env, Variable(k))
            case Some(text) => CInt(text)
            case None =>
              match LastFor(Lines(w), FirstRejected(Lines(w), w.sites), k)
              case Some(i) => CInt(ValueText(Token(Lines(w)[i])))
              case None => IntOf(DEFAULTS, k)
  {
    hide AfterFile, AfterLines, FirstRejected, LastFor, Lines, CInt, ValueText, Token, Getenv, StrToLogLevel,
         FullCacheDir;
    var s := WithCacheDir(DEFAULTS, w);
    FileSetting(s, Lines(w), w.sites, k);
    FileFold(s, Lines(w), FirstRejected(Lines(w), w.sites), k, w.sites);
    assert IntOf(Configured(w), k) == IntFromEnv(w.env, k, IntOf(AfterFile(s, Lines(w), w.sites), k));
  }

  lemma RejectedLine(s: Settings, token: string, site: Site, k: Key)
    requires Rejected(token, site) && IsInt(k)
    ensures IntOf(AfterToken(s, token, site), k) == IntOf(s, k)
  {
    hide Names, Assigns, CInt, ValueText, FullCacheDir, StrToLogLevel, Keyword;
    if Names(token, k) && Names(token, CacheDir) { OneKey(token, k, CacheDir); }
  }
}
