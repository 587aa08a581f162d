/**
 * Start-up settings of src/main.rs:79-115: the thread count read from the
 * configuration, and the merge of command-line arguments with the
 * configuration file. Regex compilation is the parameter `compiles`; a
 * pattern it rejects is the `expect` panic, returned here as an error.
 */
module Settings {
  import opened Wrappers
  import opened Strings
  import opened Matcher

  /** The command-line arguments (`Args`). */
  datatype CliArgs = CliArgs(
    startPattern: string, endPattern: string, checksum: bool,
    step: nat, maxTries: nat, logInterval: nat, minZeros: nat,
    regexPattern: string, skipConfirmation: bool)

  /** The configuration fields the program reads (src/config.rs). */
  datatype Config = Config(
    start: string, end: string, regex: string,
    useChecksum: bool, minZeros: nat,
    stepSize: nat, maxTries: nat, logIntervalMs: nat, threads: string,
    skipConfirmation: bool)

  const DefaultStart: string := "69"
  const DefaultEnd: string := "69696969"

  /** The arguments when none are given: the clap defaults. */
  const DefaultCli: CliArgs := CliArgs(DefaultStart, DefaultEnd, true, 50_000, 10_000_000_000, 15_000, 0, "", false)

  /** The merged settings the search runs with. */
  datatype Settings = Settings(
    criteria: Criteria, useChecksum: bool,
    step: nat, maxTries: nat, logInterval: nat,
    skipConfirmation: bool, threadCount: nat)

  datatype ConfigError = InvalidRegex(pattern: string)

  /** `usize::MAX` on a 64-bit target. */
  const UsizeMax: nat := 0xFFFF_FFFF_FFFF_FFFF

  predicate AllDigits(s: string) {
    forall i :: 0 <= i < |s| ==> IsDigit(s[i])
  }

  function DecimalValue(digits: string): nat
    requires AllDigits(digits)
  {
    if digits == [] then 0
    else DecimalValue(digits[..|digits| - 1]) * 10 + (digits[|digits| - 1] as int - '0' as int)
  }

  /** `str::parse::<usize>()`: an optional '+', then one or more ASCII digits, at most `usize::MAX`. */
  function ParseUsize(s: string): (r: Option<nat>)
    ensures r.Some? ==> r.value <= UsizeMax
  {
    var digits := if |s| > 0 && s[0] == '+' then s[1..] else s;
    if |digits| == 0 || !AllDigits(digits) then None
    else if DecimalValue(digits) > UsizeMax then None
    else Some(DecimalValue(digits))
  }

  /** The decimal text of `n`, without sign or leading zeros. */
  function ToDecimal(n: nat): (s: string)
    ensures |s| > 0 && AllDigits(s)
  {
    var d := ('0' as int + n % 10) as char;
    if n < 10 then [d] else ToDecimal(n / 10) + [d]
  }

  lemma {:induction false} DecimalRoundTrip(n: nat)
    ensures DecimalValue(ToDecimal(n)) == n
  {
    if n >= 10 {
      DecimalRoundTrip(n / 10);
      var s := ToDecimal(n);
      assert s[..|s| - 1] == ToDecimal(n / 10);
    }
  }

  /** Parsing the decimal text of any `usize` gives it back. */
  lemma ParseDecimal(n: nat)
    requires n <= UsizeMax
    ensures ParseUsize(ToDecimal(n)) == Some(n)
  {
    DecimalRoundTrip(n);
  }

  /** `thread_count` (src/main.rs:79-82): the CPU count for "auto" or an unparsable setting. */
  function ThreadCount(threads: string, cpus: nat): (n: nat)
    ensures threads == "auto" ==> n == cpus
    ensures threads != "auto" && ParseUsize(threads).Some? ==> n == ParseUsize(threads).value
    ensures ParseUsize(threads).None? ==> n == cpus
  {
    if threads == "auto" then cpus
    else match ParseUsize(threads)
      case Some(n) => n
      case None => cpus
  }

  /** A setting holding the decimal text of a number selects that number. */
  lemma ThreadCountExplicit(n: nat, cpus: nat)
    requires n <= UsizeMax
    ensures ThreadCount(ToDecimal(n), cpus) == n
  {
    ParseDecimal(n);
    assert ToDecimal(n)[0] != 'a';
  }

  /** The regex the search uses: the command line's if non-empty, else the configuration's if non-empty. */
  function ChosenRegex(cli: CliArgs, cfg: Config): Option<string> {
    if cli.regexPattern != "" then Some(cli.regexPattern)
    else if cfg.regex != "" then Some(cfg.regex)
    else None
  }

  function Max(a: nat, b: nat): nat { if a >= b then a else b }

  /** src/main.rs:79-115. */
  function Merge(cli: CliArgs, cfg: Config, compiles: string -> bool, cpus: nat): (r: Result<Settings, ConfigError>)
    ensures r.Err? <==> ChosenRegex(cli, cfg).Some? && !compiles(ChosenRegex(cli, cfg).value)
  {
    var threadCount := ThreadCount(cfg.threads, cpus);
    var start := if cli.startPattern == DefaultStart then cfg.start else cli.startPattern;
    var end := if cli.endPattern == DefaultEnd then cfg.end else cli.endPattern;
    var regex := ChosenRegex(cli, cfg);
    if regex.Some? && !compiles(regex.value) then Err(InvalidRegex(regex.value))
    else
      Ok(Settings(
        Criteria(start, end, Max(cli.minZeros, cfg.minZeros), regex),
        cli.checksum || cfg.useChecksum,
        Max(cli.step, cfg.stepSize), Max(cli.maxTries, cfg.maxTries), Max(cli.logInterval, cfg.logIntervalMs),
        cli.skipConfirmation || cfg.skipConfirmation,
        threadCount))
  }

  /** Every numeric limit is the larger of the two sources; the flags are on if either source sets them. */
  lemma MergeLimits(cli: CliArgs, cfg: Config, compiles: string -> bool, cpus: nat)
    requires Merge(cli, cfg, compiles, cpus).Ok?
    ensures var s := Merge(cli, cfg, compiles, cpus).value;
      && s.step >= cli.step && s.step >= cfg.stepSize && (s.step == cli.step || s.step == cfg.stepSize)
      && s.maxTries >= cli.maxTries && s.maxTries >= cfg.maxTries && (s.maxTries == cli.maxTries || s.maxTries == cfg.maxTries)
      && s.logInterval >= cli.logInterval && s.logInterval >= cfg.logIntervalMs
      && (s.logInterval == cli.logInterval || s.logInterval == cfg.logIntervalMs)
      && s.criteria.minZeros >= cli.minZeros && s.criteria.minZeros >= cfg.minZeros
      && (s.criteria.minZeros == cli.minZeros || s.criteria.minZeros == cfg.minZeros)
      && (s.useChecksum <==> cli.checksum || cfg.useChecksum)
      && (s.skipConfirmation <==> cli.skipConfirmation || cfg.skipConfirmation)
  {
  }

  /**
   * A pattern argument equal to its default is replaced by the configuration's,
   * so "69" can never be asked for explicitly against a different configured value.
   */
  lemma MergePatterns(cli: CliArgs, cfg: Config, compiles: string -> bool, cpus: nat)
    requires Merge(cli, cfg, compiles, cpus).Ok?
    ensures var c := Merge(cli, cfg, compiles, cpus).value.criteria;
      && (c.prefix == if cli.startPattern == "69" then cfg.start else cli.startPattern)
      && (c.suffix == if cli.endPattern == "69696969" then cfg.end else cli.endPattern)
      && (cli.regexPattern != "" ==> c.regex == Some(cli.regexPattern))
      && (cli.regexPattern == "" && cfg.regex != "" ==> c.regex == Some(cfg.regex))
      && (cli.regexPattern == "" && cfg.regex == "" ==> c.regex == None)
  {
  }

  /**
   * The argument records the command-line parser can produce. `checksum` is
   * a `bool` flag: giving it sets it to true, and its default is true, so no
   * command line turns it off.
   */
  predicate Parsable(cli: CliArgs) {
    cli.checksum
  }

  /** Checksum casing is on after every successful merge of parsed arguments, whatever the configuration says. */
  lemma ChecksumAlwaysOn(cli: CliArgs, cfg: Config, compiles: string -> bool, cpus: nat)
    requires Parsable(cli) && Merge(cli, cfg, compiles, cpus).Ok?
    ensures Merge(cli, cfg, compiles, cpus).value.useChecksum
  {
  }

  /** With no arguments the configuration decides the patterns, checksum casing is always on, and the limits are at least the defaults. */
  lemma DefaultArgumentsDeferToConfig(cfg: Config, compiles: string -> bool, cpus: nat)
    requires cfg.regex == "" || compiles(cfg.regex)
    ensures Merge(DefaultCli, cfg, compiles, cpus).Ok?
    ensures var s := Merge(DefaultCli, cfg, compiles, cpus).value;
      && s.criteria.prefix == cfg.start && s.criteria.suffix == cfg.end
      && s.useChecksum
      && s.step >= 50_000 && s.maxTries >= 10_000_000_000 && s.logInterval >= 15_000
      && s.criteria.minZeros == cfg.minZeros
  {
  }

  /** Size of the worker pool as written (src/main.rs:180): always the CPU count. */
  function PoolSizeAsWritten(s: Settings, cpus: nat): nat {
    cpus
  }

  /** As written, a configured count of 4 threads on an 8-CPU machine still spawns 8 workers. */
  lemma ConfiguredThreadsIgnored(s: Settings)
    requires s.threadCount == ThreadCount("4", 8)
    ensures s.threadCount == 4 && PoolSizeAsWritten(s, 8) == 8
  {
    assert ParseUsize("4") == Some(4) by {
      assert DecimalValue("4") == DecimalValue("") * 10 + 4;
    }
  }

  /** Size of the worker pool as evidently intended: the thread count the settings selected. */
  function PoolSize(s: Settings, cpus: nat): nat {
    s.threadCount
  }

  /** With the intended pool size, a configured number is authoritative and "auto" uses every CPU. */
  lemma PoolSizeHonoursConfig(cli: CliArgs, cfg: Config, compiles: string -> bool, cpus: nat, n: nat)
    requires Merge(cli, cfg, compiles, cpus).Ok?
    requires n <= UsizeMax
    ensures cfg.threads == ToDecimal(n) ==> PoolSize(Merge(cli, cfg, compiles, cpus).value, cpus) == n
    ensures cfg.threads == "auto" ==> PoolSize(Merge(cli, cfg, compiles, cpus).value, cpus) == cpus
  {
    ThreadCountExplicit(n, cpus);
  }
}
