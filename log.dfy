/**
 * The logging layer of log.c (non-Windows branch): the level and facility
 * name tables, their case-insensitive lookups, and the small state machine
 * over the statics `log_level`, `log_on_stderr`, `log_facility` and `argv0`
 * that `log_init` sets and `do_log` reads.
 *
 * Numeric codes: LogLevel and SyslogFacility follow OpenSSH's log.h
 * (QUIET = 0 .. DEBUG3 = 7, DAEMON = 0 .. LOCAL7 = 11, NOT_SET = -1, with
 * LOG_AUTHPRIV defined); priorities and facility codes follow <syslog.h>.
 */
module Log {
  import opened Wrappers
  import opened CStrings

  const SYSLOG_LEVEL_QUIET := 0
  const SYSLOG_LEVEL_FATAL := 1
  const SYSLOG_LEVEL_ERROR := 2
  const SYSLOG_LEVEL_INFO := 3
  const SYSLOG_LEVEL_VERBOSE := 4
  const SYSLOG_LEVEL_DEBUG1 := 5
  const SYSLOG_LEVEL_DEBUG2 := 6
  const SYSLOG_LEVEL_DEBUG3 := 7
  const SYSLOG_LEVEL_NOT_SET := -1

  const SYSLOG_FACILITY_DAEMON := 0
  const SYSLOG_FACILITY_USER := 1
  const SYSLOG_FACILITY_AUTH := 2
  const SYSLOG_FACILITY_AUTHPRIV := 3
  const SYSLOG_FACILITY_LOCAL0 := 4
  const SYSLOG_FACILITY_LOCAL7 := 11
  const SYSLOG_FACILITY_NOT_SET := -1

  const LOG_CRIT := 2
  const LOG_ERR := 3
  const LOG_INFO := 6
  const LOG_DEBUG := 7

  const LOG_USER := 1 * 8
  const LOG_DAEMON := 3 * 8
  const LOG_AUTH := 4 * 8
  const LOG_AUTHPRIV := 10 * 8
  const LOG_LOCAL0 := 16 * 8

  /** Size of `msgbuf` and `fmtbuf` in do_log. */
  const MSGBUFSIZ := 1024
  /** do_log hands syslog at most this many characters ("%.500s"). */
  const SYSLOG_MAX := 500

  /** One row of a name table. */
  datatype Entry = Entry(name: CString, val: int)

  /** `log_levels[]` (log.c:101-116) without its NULL sentinel. */
  const LogLevels: seq<Entry> := [
    Entry("QUIET", SYSLOG_LEVEL_QUIET),
    Entry("FATAL", SYSLOG_LEVEL_FATAL),
    Entry("ERROR", SYSLOG_LEVEL_ERROR),
    Entry("INFO", SYSLOG_LEVEL_INFO),
    Entry("VERBOSE", SYSLOG_LEVEL_VERBOSE),
    Entry("DEBUG", SYSLOG_LEVEL_DEBUG1),
    Entry("DEBUG1", SYSLOG_LEVEL_DEBUG1),
    Entry("DEBUG2", SYSLOG_LEVEL_DEBUG2),
    Entry("DEBUG3", SYSLOG_LEVEL_DEBUG3)
  ]

  /** `log_facilities[]` (log.c:79-98) without its NULL sentinel. */
  const LogFacilities: seq<Entry> := [
    Entry("DAEMON", SYSLOG_FACILITY_DAEMON),
    Entry("USER", SYSLOG_FACILITY_USER),
    Entry("AUTH", SYSLOG_FACILITY_AUTH),
    Entry("AUTHPRIV", SYSLOG_FACILITY_AUTHPRIV),
    Entry("LOCAL0", 4),
    Entry("LOCAL1", 5),
    Entry("LOCAL2", 6),
    Entry("LOCAL3", 7),
    Entry("LOCAL4", 8),
    Entry("LOCAL5", 9),
    Entry("LOCAL6", 10),
    Entry("LOCAL7", SYSLOG_FACILITY_LOCAL7)
  ]

  /** The eight levels `log_init` accepts (log.c:270-277). */
  predicate IsLevel(v: int) {
    SYSLOG_LEVEL_QUIET <= v <= SYSLOG_LEVEL_DEBUG3
  }

  /** The facilities `log_init` accepts (log.c:291-328). */
  predicate IsFacility(f: int) {
    SYSLOG_FACILITY_DAEMON <= f <= SYSLOG_FACILITY_LOCAL7
  }

  /** Whether some row of `table` names `name`, ignoring case. */
  predicate Named(table: seq<Entry>, name: string) {
    exists k | 0 <= k < |table| :: CaseEqual(table[k].name, name)
  }

  /**
   * The index loop of log_level_number / log_facility_number: the value of
   * the FIRST row whose name equals `name` ignoring case, else `notSet`.
   */
  function Lookup(table: seq<Entry>, name: string, notSet: int): (v: int)
    ensures !Named(table, name) ==> v == notSet
    ensures Named(table, name) ==> exists k | 0 <= k < |table| ::
      CaseEqual(table[k].name, name) && v == table[k].val &&
      forall j | 0 <= j < k :: !CaseEqual(table[j].name, name)
  {
    if |table| == 0 then notSet
    else if CaseEqual(table[0].name, name) then table[0].val
    else
      var v := Lookup(table[1..], name, notSet);
      assert Named(table, name) ==> Named(table[1..], name) by {
        if Named(table, name) {
          var k :| 0 <= k < |table| && CaseEqual(table[k].name, name);
          assert k != 0 && table[1..][k - 1] == table[k];
        }
      }
      assert Named(table[1..], name) ==> Named(table, name) by {
        if Named(table[1..], name) {
          var k :| 0 <= k < |table| - 1 && CaseEqual(table[1..][k].name, name);
          assert table[k + 1] == table[1..][k];
        }
      }
      assert Named(table[1..], name) ==> exists k | 0 <= k < |table| ::
        CaseEqual(table[k].name, name) && v == table[k].val &&
        forall j | 0 <= j < k :: !CaseEqual(table[j].name, name) by {
        if Named(table[1..], name) {
          var k :| 0 <= k < |table| - 1 && CaseEqual(table[1..][k].name, name) &&
            v == table[1..][k].val && forall j | 0 <= j < k :: !CaseEqual(table[1..][j].name, name);
          assert forall j | 0 <= j < k + 1 :: !CaseEqual(table[j].name, name) by {
            forall j | 0 <= j < k + 1 ensures !CaseEqual(table[j].name, name) {
              if j > 0 { assert table[j] == table[1..][j - 1]; }
            }
          }
          assert table[k + 1] == table[1..][k];
        }
      }
      v
  }

  /** `log_level_number(name)` (log.c:132-142); `None` is the NULL pointer. */
  function LogLevelNumber(name: Option<CString>): (v: int)
    ensures v == SYSLOG_LEVEL_NOT_SET || IsLevel(v)
    ensures v == SYSLOG_LEVEL_NOT_SET <==> name.None? || !Named(LogLevels, name.value)
  {
    match name
    case None => SYSLOG_LEVEL_NOT_SET
    case Some(s) => TableValues(LogLevels, s, SYSLOG_LEVEL_NOT_SET, IsLevel); Lookup(LogLevels, s, SYSLOG_LEVEL_NOT_SET)
  }

  /** `log_facility_number(name)` (log.c:119-129); `None` is the NULL pointer. */
  function LogFacilityNumber(name: Option<CString>): (v: int)
    ensures v == SYSLOG_FACILITY_NOT_SET || IsFacility(v)
    ensures v == SYSLOG_FACILITY_NOT_SET <==> name.None? || !Named(LogFacilities, name.value)
  {
    match name
    case None => SYSLOG_FACILITY_NOT_SET
    case Some(s) =>
      TableValues(LogFacilities, s, SYSLOG_FACILITY_NOT_SET, IsFacility);
      Lookup(LogFacilities, s, SYSLOG_FACILITY_NOT_SET)
  }

  /** A lookup returns `notSet` or the value of some row. */
  lemma TableValues(table: seq<Entry>, name: string, notSet: int, ok: int -> bool)
    requires forall k | 0 <= k < |table| :: ok(table[k].val)
    ensures var v := Lookup(table, name, notSet); v == notSet || ok(v)
  {
  }

  /** A name found at row k with no earlier match yields row k's value. */
  lemma {:induction false} LookupAt(table: seq<Entry>, k: nat, name: string, notSet: int)
    requires k < |table| && CaseEqual(table[k].name, name)
    requires forall j | 0 <= j < k :: !CaseEqual(table[j].name, name)
    ensures Lookup(table, name, notSet) == table[k].val
  {
    var v := Lookup(table, name, notSet);
    var k' :| 0 <= k' < |table| && CaseEqual(table[k'].name, name) && v == table[k'].val &&
      forall j | 0 <= j < k' :: !CaseEqual(table[j].name, name);
    assert k' == k;
  }

  /** Case-insensitive lookups agree on names that are equal ignoring case. */
  lemma {:induction false} LookupIgnoresCase(table: seq<Entry>, a: string, b: string, notSet: int)
    requires CaseEqual(a, b)
    ensures Lookup(table, a, notSet) == Lookup(table, b, notSet)
  {
    if |table| > 0 {
      if CaseEqual(table[0].name, a) {
        CaseEqualTransitive(table[0].name, a, b);
      } else {
        CaseEqualSymmetric(a, b);
        if CaseEqual(table[0].name, b) {
          CaseEqualTransitive(table[0].name, b, a);
        }
        LookupIgnoresCase(table[1..], a, b, notSet);
      }
    }
  }

  /** No two rows of `table` have names equal ignoring case. */
  ghost predicate DistinctNames(table: seq<Entry>) {
    forall j, k | 0 <= j < k < |table| :: !CaseEqual(table[j].name, table[k].name)
  }

  /** In a table with distinct names, a name equal to row k's (in any case) yields row k's value. */
  lemma {:induction false} RowRoundTrip(table: seq<Entry>, k: nat, s: string, notSet: int)
    requires DistinctNames(table)
    requires k < |table| && CaseEqual(s, table[k].name)
    ensures Lookup(table, s, notSet) == table[k].val
  {
    CaseEqualSymmetric(s, table[k].name);
    forall j | 0 <= j < k ensures !CaseEqual(table[j].name, s) {
      if CaseEqual(table[j].name, s) {
        CaseEqualTransitive(table[j].name, s, table[k].name);
      }
    }
    LookupAt(table, k, s, notSet);
  }

  /** The names of a table whose same-length names differ at index 0, 1 or the last. */
  lemma CheckDistinct(table: seq<Entry>)
    requires forall k | 0 <= k < |table| :: |table[k].name| >= 2
    requires forall k, i | 0 <= k < |table| && 0 <= i < |table[k].name| ::
      'A' <= table[k].name[i] <= 'Z' || '0' <= table[k].name[i] <= '9'
    requires forall j, k | 0 <= j < k < |table| :: var a, b := table[j].name, table[k].name;
      |a| != |b| || a[0] != b[0] || a[1] != b[1] || a[|a| - 1] != b[|b| - 1]
    ensures DistinctNames(table)
  {
    forall j, k | 0 <= j < k < |table|
      ensures !CaseEqual(table[j].name, table[k].name)
    {
      var a, b := table[j].name, table[k].name;
      if |a| == |b| {
        var i := if a[0] != b[0] then 0 else if a[1] != b[1] then 1 else |a| - 1;
        assert ToLower(a[i]) != ToLower(b[i]);
      }
    }
  }

  lemma LevelNamesDistinct()
    ensures DistinctNames(LogLevels)
  {
    CheckDistinct(LogLevels);
  }

  lemma FacilityNamesDistinct()
    ensures DistinctNames(LogFacilities)
  {
    CheckDistinct(LogFacilities);
  }

  /** Every name of `log_levels[]` maps back to its own row's value, in any case. */
  lemma LevelNamesRoundTrip(k: nat, s: CString)
    requires k < |LogLevels| && CaseEqual(s, LogLevels[k].name)
    ensures LogLevelNumber(Some(s)) == LogLevels[k].val
  {
    LevelNamesDistinct();
    RowRoundTrip(LogLevels, k, s, SYSLOG_LEVEL_NOT_SET);
  }

  /** Every name of `log_facilities[]` maps back to its own row's value, in any case. */
  lemma FacilityNamesRoundTrip(k: nat, s: CString)
    requires k < |LogFacilities| && CaseEqual(s, LogFacilities[k].name)
    ensures LogFacilityNumber(Some(s)) == LogFacilities[k].val
  {
    FacilityNamesDistinct();
    RowRoundTrip(LogFacilities, k, s, SYSLOG_FACILITY_NOT_SET);
  }

  /** "DEBUG" and "DEBUG1" both name DEBUG1 (log.c:111-112). */
  lemma DebugAliases()
    ensures LogLevelNumber(Some("DEBUG")) == SYSLOG_LEVEL_DEBUG1
    ensures LogLevelNumber(Some("DEBUG1")) == SYSLOG_LEVEL_DEBUG1
  {
    LevelNamesRoundTrip(5, LogLevels[5].name);
    LevelNamesRoundTrip(6, LogLevels[6].name);
  }

  /** Names are matched ignoring case. */
  lemma LowerCaseLevelName()
    ensures LogLevelNumber(Some("debug3")) == SYSLOG_LEVEL_DEBUG3
  {
    var s: CString := "debug3";
    assert CaseEqual(s, LogLevels[8].name) by {
      forall i | 0 <= i < |s| ensures ToLower(s[i]) == ToLower(LogLevels[8].name[i]) {
        if i == 5 { assert s[i] == '3'; } else { assert 'a' <= s[i] <= 'z'; }
      }
    }
    LevelNamesRoundTrip(8, s);
  }

  /** A word that is the lower-case form of a table name matches it (strcasecmp). */
  lemma LowerCaseMatches(t: string, name: string)
    requires |t| == |name|
    requires forall i | 0 <= i < |t| ::
      ('a' <= t[i] <= 'z' && name[i] as int == t[i] as int - 32) || ('0' <= t[i] <= '9' && name[i] == t[i])
    ensures CaseEqual(t, name)
  {
  }

  /** syslog facility codes `log_init` can store. */
  predicate IsFacilityCode(c: int) {
    c == LOG_DAEMON || c == LOG_USER || c == LOG_AUTH || c == LOG_AUTHPRIV ||
    (LOG_LOCAL0 <= c <= LOG_LOCAL0 + 7 * 8 && c % 8 == 0)
  }

  /** The syslog code `log_init` stores for a SyslogFacility (log.c:290-328). */
  function FacilityCode(f: int): (c: int)
    requires IsFacility(f)
    ensures IsFacilityCode(c)
  {
    if f == SYSLOG_FACILITY_DAEMON then LOG_DAEMON
    else if f == SYSLOG_FACILITY_USER then LOG_USER
    else if f == SYSLOG_FACILITY_AUTH then LOG_AUTH
    else if f == SYSLOG_FACILITY_AUTHPRIV then LOG_AUTHPRIV
    else LOG_LOCAL0 + (f - SYSLOG_FACILITY_LOCAL0) * 8
  }

  /** Distinct facilities are stored as distinct syslog codes. */
  lemma FacilityCodeInjective(f: int, g: int)
    requires IsFacility(f) && IsFacility(g) && f != g
    ensures FacilityCode(f) != FacilityCode(g)
  {
  }

  /** Whether `do_log` emits a message of `level` under the threshold `threshold` (log.c:366-367). */
  predicate Emits(level: int, threshold: int) {
    level <= threshold
  }

  /** The word do_log puts before a message (log.c:369-402); None is `txt == NULL`. */
  function Prefix(level: int, onStderr: bool): (p: Option<string>)
    ensures p.None? <==> (level == SYSLOG_LEVEL_INFO || level == SYSLOG_LEVEL_VERBOSE ||
                          (onStderr && (level == SYSLOG_LEVEL_FATAL || level == SYSLOG_LEVEL_ERROR)))
    ensures p == Some("internal error") <==> !(SYSLOG_LEVEL_FATAL <= level <= SYSLOG_LEVEL_DEBUG3)
  {
    if level == SYSLOG_LEVEL_FATAL then (if onStderr then None else Some("fatal"))
    else if level == SYSLOG_LEVEL_ERROR then (if onStderr then None else Some("error"))
    else if level == SYSLOG_LEVEL_INFO || level == SYSLOG_LEVEL_VERBOSE then None
    else if level == SYSLOG_LEVEL_DEBUG1 then Some("debug1")
    else if level == SYSLOG_LEVEL_DEBUG2 then Some("debug2")
    else if level == SYSLOG_LEVEL_DEBUG3 then Some("debug3")
    else Some("internal error")
  }

  /** The syslog priority do_log uses (log.c:369-402). */
  function Priority(level: int): (pri: int)
    ensures pri == LOG_ERR <==> !(SYSLOG_LEVEL_FATAL <= level <= SYSLOG_LEVEL_DEBUG3) || level == SYSLOG_LEVEL_ERROR
  {
    if level == SYSLOG_LEVEL_FATAL then LOG_CRIT
    else if level == SYSLOG_LEVEL_ERROR then LOG_ERR
    else if level == SYSLOG_LEVEL_INFO || level == SYSLOG_LEVEL_VERBOSE then LOG_INFO
    else if SYSLOG_LEVEL_DEBUG1 <= level <= SYSLOG_LEVEL_DEBUG3 then LOG_DEBUG
    else LOG_ERR
  }

  /** Only the fatal and error words depend on where the log goes. */
  lemma PrefixStderrOnlyDropsFatalError(level: int)
    requires level != SYSLOG_LEVEL_FATAL && level != SYSLOG_LEVEL_ERROR
    ensures Prefix(level, true) == Prefix(level, false)
  {
  }

  /** A level word do_log prints, read back through log_level_number, gives the level again. */
  lemma {:induction false} PrefixNamesItsLevel(level: int, onStderr: bool)
    requires Prefix(level, onStderr).Some? && Prefix(level, onStderr) != Some("internal error")
    ensures LogLevelNumber(Some(Prefix(level, onStderr).value)) == level
  {
    var t: CString := Prefix(level, onStderr).value;
    var k := if level == SYSLOG_LEVEL_FATAL then 1 else if level == SYSLOG_LEVEL_ERROR then 2
      else level + 1;
    LowerCaseMatches(t, LogLevels[k].name);
    LevelNamesRoundTrip(k, t);
  }

  /** "internal error" is no level name. */
  lemma InternalErrorIsNoLevel()
    ensures LogLevelNumber(Some("internal error")) == SYSLOG_LEVEL_NOT_SET
  {
  }

  /** `s` cut to at most `n` characters, as snprintf does with a buffer of n + 1. */
  function Truncate(s: string, n: nat): (t: string)
    ensures |t| == Min(|s|, n) && t == s[..|t|]
  {
    if |s| <= n then s else s[..n]
  }

  /**
   * `fmtbuf` once do_log has formatted and encoded a message: the prefix and
   * ": " (when there is one) before the formatted `text`, cut to the buffer,
   * then passed through `vis` (strnvis, foreign; its second argument selects
   * the stderr flags LOG_STDERR_VIS rather than LOG_SYSLOG_VIS) and cut again.
   */
  function Formatted(level: int, onStderr: bool, text: string, vis: (string, bool) -> string): (f: string)
    ensures |f| <= MSGBUFSIZ - 1
  {
    var p := Prefix(level, onStderr);
    var msg := Truncate(if p.Some? then p.value + ": " + text else text, MSGBUFSIZ - 1);
    Truncate(vis(msg, onStderr), MSGBUFSIZ - 1)
  }

  /**
   * The line do_log writes to stderr: `snprintf(msgbuf, sizeof msgbuf, "%s\r\n", fmtbuf)`
   * (log.c:412). The terminator survives whole only when fmtbuf leaves room for it.
   */
  function StderrLine(fmt: string): (line: string)
    requires |fmt| <= MSGBUFSIZ - 1
    ensures |line| <= MSGBUFSIZ - 1
    ensures |fmt| <= MSGBUFSIZ - 3 <==> line == fmt + "\r\n"
    ensures |fmt| > MSGBUFSIZ - 3 ==> line == (fmt + "\r\n")[..MSGBUFSIZ - 1]
  {
    Truncate(fmt + "\r\n", MSGBUFSIZ - 1)
  }

  /** What do_log hands to syslog: ident (argv0, or __progname when None), priority, facility, text. */
  datatype SyslogRecord = SyslogRecord(ident: Option<CString>, priority: int, facility: int, text: string)

  /** Why `log_init` exits 1 (log.c:280-284, 329-333). */
  datatype InitResult = Initialised | UnknownLevel(level: int) | UnknownFacility(facility: int)

  /** The statics of log.c, and the process state do_log touches. */
  class Logger {
    var level: int
    var onStderr: bool
    var facility: int
    var argv0: Option<CString>
    /** The process's errno. */
    var errno: int
    /** Lines written to stderr and records handed to syslog, oldest first. */
    var stderrLines: seq<string>
    var syslogRecords: seq<SyslogRecord>

    ghost predicate Valid()
      reads this
    {
      IsLevel(level) && IsFacilityCode(facility)
    }

    /** The static initialisers (log.c:67-70). */
    constructor (errno0: int)
      ensures Valid()
      ensures level == SYSLOG_LEVEL_INFO && onStderr && facility == LOG_AUTH && argv0 == None
      ensures errno == errno0 && stderrLines == [] && syslogRecords == []
    {
      level, onStderr, facility, argv0 := SYSLOG_LEVEL_INFO, true, LOG_AUTH, None;
      errno, stderrLines, syslogRecords := errno0, [], [];
    }

    /**
     * `log_init(av0, level, facility, on_stderr)` (log.c:260-348). The level is
     * checked first and stored; with `on_stderr` the facility is neither checked
     * nor changed. An unknown code makes the process exit 1.
     */
    method Init(av0: Option<CString>, lvl: int, fac: int, toStderr: bool) returns (r: InitResult)
      requires Valid()
      modifies this`argv0, this`level, this`onStderr, this`facility
      ensures Valid()
      ensures argv0 == av0
      ensures r.Initialised? <==> IsLevel(lvl) && (toStderr || IsFacility(fac))
      ensures r == UnknownLevel(lvl) <==> !IsLevel(lvl)
      ensures IsLevel(lvl) ==> level == lvl && onStderr == toStderr
      ensures !IsLevel(lvl) ==> level == old(level) && onStderr == old(onStderr)
      ensures IsLevel(lvl) && !toStderr && !IsFacility(fac) ==> r == UnknownFacility(fac)
      ensures facility == if IsLevel(lvl) && !toStderr && IsFacility(fac) then FacilityCode(fac) else old(facility)
    {
      argv0 := av0;
      if !IsLevel(lvl) {
        return UnknownLevel(lvl);
      }
      level := lvl;
      onStderr := toStderr;
      if toStderr {
        return Initialised;
      }
      if !IsFacility(fac) {
        return UnknownFacility(fac);
      }
      facility := FacilityCode(fac);
      r := Initialised;
    }

    /**
     * `do_log(level, fmt, args)` (log.c:353-425). `text` is the formatted
     * message, `vis` stands for strnvis (told whether the output is stderr), and `clobbered` is the errno that
     * write or syslog may leave behind; do_log restores the caller's errno.
     */
    method DoLog(lvl: int, text: string, vis: (string, bool) -> string, clobbered: int)
      requires Valid()
      modifies this`errno, this`stderrLines, this`syslogRecords
      ensures Valid()
      ensures errno == old(errno)
      ensures !Emits(lvl, level) ==> stderrLines == old(stderrLines) && syslogRecords == old(syslogRecords)
      ensures Emits(lvl, level) && onStderr ==>
                syslogRecords == old(syslogRecords) &&
                stderrLines == old(stderrLines) + [StderrLine(Formatted(lvl, true, text, vis))]
      ensures Emits(lvl, level) && !onStderr ==>
                stderrLines == old(stderrLines) &&
                syslogRecords == old(syslogRecords) +
                  [SyslogRecord(argv0, Priority(lvl), facility, Truncate(Formatted(lvl, false, text, vis), SYSLOG_MAX))]
    {
      var savedErrno := errno;
      if lvl > level {
        return;
      }
      var fmt := Formatted(lvl, onStderr, text, vis);
      if onStderr {
        stderrLines := stderrLines + [StderrLine(fmt)];
      } else {
        syslogRecords := syslogRecords + [SyslogRecord(argv0, Priority(lvl), facility, Truncate(fmt, SYSLOG_MAX))];
      }
      errno := clobbered;
      errno := savedErrno;
    }
  }
}
