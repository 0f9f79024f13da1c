/** The logging adapter of log.c: the level scale 0..5 (FATAL .. TRACE),
    its names, the mapping onto syslog priorities, the parsing of a level
    given as text, the clamped maximum level, and the decision and text of
    one log line. syslog, stderr and the mutex are not modelled; what
    would be handed to them is returned as an `Emitted` value. */
module Log {
  import opened Wrappers
  import opened CString

  const Fatal := 0
  const Error := 1
  const Warn := 2
  const Info := 3
  const Debug := 4
  const Trace := 5

  /** A level on the scale. */
  predicate IsLevel(l: int) {
    Fatal <= l <= Trace
  }

  // ---------------------------------------------------------------------
  // level_str and syslog_prio

  /** level_str / log_level_to_string: the name of a level, "UNK" for
      anything off the scale. */
  function LevelStr(l: int): (r: string)
    ensures IsLevel(l) <==> r != "UNK"
    ensures 3 <= |r| <= 5
  {
    if l == Fatal then "FATAL"
    else if l == Error then "ERROR"
    else if l == Warn then "WARN"
    else if l == Info then "INFO"
    else if l == Debug then "DEBUG"
    else if l == Trace then "TRACE"
    else "UNK"
  }

  /** The syslog.h priorities the levels map onto. */
  const LogCrit := 2
  const LogErr := 3
  const LogWarning := 4
  const LogInfo := 6
  const LogDebug := 7
  /** LOG_DAEMON, the facility before log_init. */
  const LogDaemon := 24

  /** syslog_prio: TRACE shares DEBUG's priority, and so does anything
      off the scale. */
  function SyslogPrio(l: int): (r: int)
    ensures LogCrit <= r <= LogDebug
    ensures l == Trace || l == Debug || !IsLevel(l) <==> r == LogDebug
  {
    if l == Fatal then LogCrit
    else if l == Error then LogErr
    else if l == Warn then LogWarning
    else if l == Info then LogInfo
    else LogDebug
  }

  /** A more verbose level never has a more urgent priority, so the mask
      LOG_UPTO(syslog_prio(max)) lets through every level up to max. */
  lemma PrioMonotone(l: int, m: int)
    requires IsLevel(l) && IsLevel(m) && l <= m
    ensures SyslogPrio(l) <= SyslogPrio(m)
  {
  }

  /** Distinct levels below TRACE have distinct priorities. */
  lemma PrioDistinct(l: int, m: int)
    requires Fatal <= l < m <= Debug
    ensures SyslogPrio(l) < SyslogPrio(m)
  {
  }

  // ---------------------------------------------------------------------
  // log_level_from_string

  /** The size of upper_str: at most 15 characters are copied. */
  const UpperMax := 15

  function UpperChar(c: char): (r: char)
    ensures 'a' <= c <= 'z' ==> r as int == c as int - 32
    ensures !('a' <= c <= 'z') ==> r == c
  {
    if 'a' <= c <= 'z' then (c as int - 32) as char else c
  }

  /** upper_str: the first 15 characters of the text, with lower-case
      ASCII letters made upper case. */
  function UpperPrefix(s: string): (r: string)
    ensures |r| == if |s| < UpperMax then |s| else UpperMax
    ensures forall i :: 0 <= i < |r| ==> r[i] == UpperChar(s[i])
  {
    var n := if |s| < UpperMax then |s| else UpperMax;
    seq(n, i requires 0 <= i < n => UpperChar(s[i]))
  }

  /** The loop that fills upper_str. */
  method CopyUpper(s: string) returns (u: string)
    ensures u == UpperPrefix(s)
  {
    u := [];
    var i := 0;
    while i < UpperMax && i < |s|
      invariant 0 <= i <= |s| && i <= UpperMax
      invariant |u| == i && forall k :: 0 <= k < i ==> u[k] == UpperChar(s[k])
    {
      u := u + [UpperChar(s[i])];
      i := i + 1;
    }
  }

  /** The strcmp chain against the level names, WARNING included. */
  function NamedLevel(u: string): (r: Option<int>)
    ensures r.Some? ==> IsLevel(r.value)
    ensures r.Some? ==> |u| > 0 && 'A' <= u[0] <= 'Z'
  {
    if u == "FATAL" then Some(Fatal)
    else if u == "ERROR" then Some(Error)
    else if u == "WARN" then Some(Warn)
    else if u == "WARNING" then Some(Warn)
    else if u == "INFO" then Some(Info)
    else if u == "DEBUG" then Some(Debug)
    else if u == "TRACE" then Some(Trace)
    else None
  }

  /** strtol(s, &endptr, 10) with *endptr == '\0' afterwards: white space,
      an optional sign, then digits up to the end of the text. None when
      anything else follows or there is no digit (endptr then stays at the
      start, which is not the end of a non-empty text). strtol's clamping
      to LONG_MIN/LONG_MAX moves no value into 0..5 and is left out. */
  function WholeNumber(s: string): (r: Option<int>)
    ensures r.Some? ==> |s| > 0
  {
    var t := s[SpaceRun(s)..];
    var k := if |t| > 0 && (t[0] == '-' || t[0] == '+') then 1 else 0;
    var d := t[k..];
    if |d| > 0 && DigitRun(d) == |d| then
      var v: int := DigitsValue(d);
      Some(if k == 1 && t[0] == '-' then -v else v)
    else None
  }

  /** log_level_from_string, on its specification: -1 for NULL, for the
      empty text and for anything that is neither a level name (case
      aside) nor the whole decimal text of a level. */
  function LevelOf(s: Option<string>): (r: int)
    ensures r == -1 || IsLevel(r)
    ensures s.None? || s.value == "" ==> r == -1
    ensures r != -1 ==> s.Some? && (CaseEq(s.value, LevelStr(r)) || (r == Warn && CaseEq(s.value, "WARNING"))
                                    || WholeNumber(s.value) == Some(r))
  {
    if s.None? || s.value == "" then -1
    else
      match NamedLevel(UpperPrefix(s.value))
      case Some(l) => NamedLevelCaseEq(s.value); l
      case None =>
        var n := WholeNumber(s.value);
        if n.Some? && IsLevel(n.value) then n.value else -1
  }

  /** log_level_from_string, with its loop. */
  method LevelFromString(s: Option<string>) returns (level: int)
    ensures level == LevelOf(s)
  {
    if s.None? || s.value == "" {
      return -1;
    }
    var u := CopyUpper(s.value);
    var named := NamedLevel(u);
    if named.Some? {
      return named.value;
    }
    var n := WholeNumber(s.value);
    if n.Some? && IsLevel(n.value) {
      return n.value;
    }
    return -1;
  }

  /** Comparing upper_str with an upper-case name is comparing the text
      with it case aside. */
  lemma UpperOfCaseEq(s: string, name: string)
    requires |name| <= UpperMax && forall i :: 0 <= i < |name| ==> 'A' <= name[i] <= 'Z'
    requires CaseEq(s, name)
    ensures UpperPrefix(s) == name
  {
    var u := UpperPrefix(s);
    forall i | 0 <= i < |name| ensures u[i] == name[i] {
      assert LowerChar(s[i]) == LowerChar(name[i]);
    }
  }

  /** The other direction: a text whose upper_str is an upper-case name
      shorter than the buffer is that name, case aside. */
  lemma CaseEqOfUpper(s: string, name: string)
    requires |name| < UpperMax && forall i :: 0 <= i < |name| ==> 'A' <= name[i] <= 'Z'
    requires UpperPrefix(s) == name
    ensures CaseEq(s, name)
  {
    forall i | 0 <= i < |name| ensures LowerChar(s[i]) == LowerChar(name[i]) {
      assert UpperChar(s[i]) == name[i];
    }
  }

  /** A text the strcmp chain names is that level's name, or WARNING, in
      some case. */
  lemma NamedLevelCaseEq(s: string)
    requires NamedLevel(UpperPrefix(s)).Some?
    ensures CaseEq(s, LevelStr(NamedLevel(UpperPrefix(s)).value))
            || (NamedLevel(UpperPrefix(s)).value == Warn && CaseEq(s, "WARNING"))
  {
    var u := UpperPrefix(s);
    if u == "WARNING" {
      CaseEqOfUpper(s, "WARNING");
    } else {
      LevelNamesUpper(NamedLevel(u).value);
      CaseEqOfUpper(s, LevelStr(NamedLevel(u).value));
    }
  }

  lemma LevelNamesUpper(l: int)
    requires IsLevel(l)
    ensures forall i :: 0 <= i < |LevelStr(l)| ==> 'A' <= LevelStr(l)[i] <= 'Z'
  {
  }

  /** Every level's name, in any case, is read back as that level. */
  lemma NameRoundTrip(l: int, s: string)
    requires IsLevel(l) && CaseEq(s, LevelStr(l))
    ensures LevelOf(Some(s)) == l
  {
    LevelNamesUpper(l);
    UpperOfCaseEq(s, LevelStr(l));
  }

  /** log_level_from_string(log_level_to_string(l)) == l on the scale. */
  lemma LevelRoundTrip(l: int)
    requires IsLevel(l)
    ensures LevelOf(Some(LevelStr(l))) == l
  {
    NameRoundTrip(l, LevelStr(l));
  }

  /** WARNING, in any case, is an alias of WARN. */
  lemma WarningAlias(s: string)
    requires CaseEq(s, "WARNING")
    ensures LevelOf(Some(s)) == Warn
  {
    UpperOfCaseEq(s, "WARNING");
  }

  /** The name printed for a level off the scale is not read as a level. */
  lemma UnknownNameRejected(l: int)
    requires !IsLevel(l)
    ensures LevelOf(Some(LevelStr(l))) == -1
  {
    assert UpperPrefix("UNK") == "UNK";
    assert SpaceRun("UNK") == 0;
    assert DigitRun("UNK") == 0;
  }

  /** The decimal text of a number is read as that number when it is on
      the scale, and rejected otherwise. */
  lemma NumericLevel(n: nat)
    ensures LevelOf(Some(NatToDecimal(n))) == if n <= Trace then n else -1
  {
    var d := NatToDecimal(n);
    assert UpperPrefix(d)[0] == d[0];
    WholeDecimal(n);
  }

  /** strtol reads the whole decimal text of a number back. */
  lemma WholeDecimal(n: nat)
    ensures WholeNumber(NatToDecimal(n)) == Some(n)
  {
    var d := NatToDecimal(n);
    assert SpaceRun(d) == 0;
    assert d[0..] == d;
    DigitRunAll(d, []);
    assert d + [] == d;
    DigitsValueOfDecimal(n);
  }

  // ---------------------------------------------------------------------
  // The logger state G and log_log

  /** Clamping into [FATAL, TRACE], as log_init and log_set_level do. */
  function Clamp(level: int): (r: int)
    ensures IsLevel(r)
    ensures IsLevel(level) ==> r == level
    ensures level < Fatal ==> r == Fatal
    ensures level > Trace ==> r == Trace
  {
    if level < Fatal then Fatal else if level > Trace then Trace else level
  }

  /** Whether log_log goes on past its two early returns. */
  predicate Logged(level: int, maxLevel: int) {
    IsLevel(level) && level <= maxLevel
  }

  /** The size of msgbuf: vsnprintf keeps at most 4095 characters. */
  const MsgMax := 4095
  /** The size of outbuf: snprintf keeps at most 4199 characters. */
  const OutMax := 4199

  /** The message with one trailing newline, if there is one, removed. */
  function TrimNewline(m: string): (r: string)
    ensures |m| > 0 && m[|m| - 1] == '\n' ==> r == m[..|m| - 1]
    ensures !(|m| > 0 && m[|m| - 1] == '\n') ==> r == m
  {
    if |m| > 0 && m[|m| - 1] == '\n' then m[..|m| - 1] else m
  }

  /** Exactly one newline goes: a message that ended in two keeps one. */
  lemma TrimOnlyOne(m: string)
    ensures TrimNewline(m + "\n") == m
    ensures TrimNewline(m + "\n\n") == m + "\n"
  {
    assert (m + "\n")[..|m|] == m;
    assert (m + "\n\n")[..|m| + 1] == m + "\n";
  }

  /** One past the last '/' among the first n characters of f, 0 when
      there is none. */
  function SlashAfter(f: string, n: nat): (r: nat)
    requires n <= |f|
    ensures r <= n
    ensures r > 0 ==> f[r - 1] == '/'
    ensures forall k :: r <= k < n ==> f[k] != '/'
  {
    if n == 0 then 0 else if f[n - 1] == '/' then n else SlashAfter(f, n - 1)
  }

  /** The file name shown: what follows the last '/'. */
  function BaseName(f: string): (r: string)
    ensures '/' !in r
    ensures EndsWith(f, r)
    ensures r == f || f[|f| - |r| - 1] == '/'
  {
    var k := SlashAfter(f, |f|);
    assert f[k..] == f[|f| - |f[k..]|..];
    f[k..]
  }

  /** The for loop that moves `slash` past every '/'. */
  method FindBaseName(f: string) returns (r: string)
    ensures r == BaseName(f)
  {
    var slash := 0;
    var p := 0;
    while p < |f|
      invariant 0 <= p <= |f|
      invariant slash == SlashAfter(f, p)
    {
      if f[p] == '/' {
        slash := p + 1;
      }
      p := p + 1;
    }
    r := f[slash..];
  }

  /** "[%s:%s:%d]: %s" before snprintf's cut. */
  function LineText(level: int, base: string, line: int, msg: string): (r: string)
    ensures StartsWith(r, "[" + LevelStr(level) + ":")
    ensures EndsWith(r, "]: " + msg)
  {
    var head := "[" + LevelStr(level) + ":";
    var tail := "]: " + msg;
    var r := head + base + ":" + IntToDecimal(line) + tail;
    assert r[..|head|] == head;
    assert r[|r| - |tail|..] == tail;
    r
  }

  /** What one log_log call hands on: the syslog priority and text, and
      the stderr line when mirroring is on. */
  datatype Emitted = Emitted(priority: int, text: string, stderrLine: Option<string>)

  /** The whole of log_log after the level checks; `formatted` is what
      vsnprintf would produce from the format and arguments. */
  function Emit(level: int, file: Option<string>, line: int, formatted: string, toStderr: bool): (r: Emitted)
    ensures r.priority == SyslogPrio(level)
    ensures |r.text| <= OutMax
    ensures r.stderrLine.Some? <==> toStderr
    ensures toStderr ==> r.stderrLine.value == r.text + "\n"
  {
    var msg := TrimNewline(Truncate(formatted, MsgMax));
    var text := Truncate(LineText(level, BaseName(file.GetOr("")), line, msg), OutMax);
    Emitted(SyslogPrio(level), text, if toStderr then Some(text + "\n") else None)
  }

  /** A short message on a short path comes out whole, without the
      directory part and without its newline. */
  lemma ShortLineWhole(level: int, dir: string, name: string, line: int, m: string)
    requires IsLevel(level) && '/' !in name
    requires |m| < 4000 && |name| < 100 && -1000000 < line < 1000000
    ensures Emit(level, Some(dir + "/" + name), line, m + "\n", false).text
         == "[" + LevelStr(level) + ":" + name + ":" + IntToDecimal(line) + "]: " + m
  {
    var f := dir + "/" + name;
    var k := SlashAfter(f, |f|);
    assert f[|dir|] == '/';
    assert k == |dir| + 1;
    assert f[k..] == name;
    TrimOnlyOne(m);
    DecimalShort(line);
  }

  lemma DecimalShort(line: int)
    requires -1000000 < line < 1000000
    ensures |IntToDecimal(line)| <= 7
  {
    Pow10Values();
    if line < 0 {
      DecimalLength(-line, 6);
    } else {
      DecimalLength(line, 6);
    }
  }

  /** The global state G of log.c. */
  class Logger {
    var maxLevel: int
    var toStderr: bool
    var facility: int
    var ident: string
    var initialized: bool
    /** The argument of the last setlogmask(LOG_UPTO(p)), if any. */
    var maskUpTo: Option<int>

    /** Whether the state can follow log_init or log_set_level. */
    predicate Valid()
      reads this
    {
      IsLevel(maxLevel) && |ident| <= 31 && (initialized ==> maskUpTo == Some(SyslogPrio(maxLevel)))
    }

    /** The static initialiser of G. */
    constructor ()
      ensures Valid() && maxLevel == Fatal && !toStderr && facility == LogDaemon
      ensures ident == "" && !initialized && maskUpTo.None?
    {
      maxLevel := Fatal;
      toStderr := false;
      facility := LogDaemon;
      ident := "";
      initialized := false;
      maskUpTo := None;
    }

    /** log_init: "onvif" for a NULL ident, cut to 31 characters; the
        level clamped; the syslog mask set from it. */
    method Init(identArg: Option<string>, facilityArg: int, level: int, toStderrArg: int)
      modifies this
      ensures Valid() && initialized
      ensures ident == Truncate(identArg.GetOr("onvif"), 31) && facility == facilityArg
      ensures maxLevel == Clamp(level) && toStderr == (toStderrArg != 0)
      ensures maskUpTo == Some(SyslogPrio(Clamp(level)))
    {
      ident := Truncate(identArg.GetOr("onvif"), 31);
      facility := facilityArg;
      maxLevel := Clamp(level);
      toStderr := toStderrArg != 0;
      maskUpTo := Some(SyslogPrio(maxLevel));
      initialized := true;
    }

    /** log_set_level: the level clamped, the mask reset only once
        log_init has run. */
    method SetLevel(level: int)
      modifies this
      requires Valid()
      ensures Valid() && maxLevel == Clamp(level)
      ensures initialized == old(initialized) && toStderr == old(toStderr)
      ensures facility == old(facility) && ident == old(ident)
      ensures maskUpTo == if initialized then Some(SyslogPrio(Clamp(level))) else old(maskUpTo)
    {
      maxLevel := Clamp(level);
      if initialized {
        maskUpTo := Some(SyslogPrio(maxLevel));
      }
    }

    /** log_set_level_str: a text that is not a level changes nothing. */
    method SetLevelStr(s: Option<string>)
      modifies this
      requires Valid()
      ensures Valid()
      ensures LevelOf(s) == -1 ==> maxLevel == old(maxLevel) && maskUpTo == old(maskUpTo)
      ensures LevelOf(s) != -1 ==> maxLevel == LevelOf(s)
      ensures LevelOf(s) != -1 && initialized ==> maskUpTo == Some(SyslogPrio(LevelOf(s)))
      ensures initialized == old(initialized) && toStderr == old(toStderr)
      ensures facility == old(facility) && ident == old(ident)
    {
      var level := LevelFromString(s);
      if level >= 0 {
        SetLevel(level);
      }
    }

    /** log_log: nothing for a level off the scale or above the maximum;
        otherwise the trimmed message on a line naming the level and the
        file's base name. */
    method LogLine(level: int, file: Option<string>, line: int, formatted: string) returns (out: Option<Emitted>)
      requires Valid()
      ensures out.Some? <==> Logged(level, maxLevel)
      ensures out.Some? ==> out.value == Emit(level, file, line, formatted, toStderr)
      ensures out.Some? && initialized ==> out.value.priority <= maskUpTo.value
    {
      if level < Fatal || level > Trace {
        return None;
      }
      if level > maxLevel {
        return None;
      }
      var base := FindBaseName(file.GetOr(""));
      var msg := TrimNewline(Truncate(formatted, MsgMax));
      var text := Truncate(LineText(level, base, line, msg), OutMax);
      PrioMonotone(level, maxLevel);
      return Some(Emitted(SyslogPrio(level), text, if toStderr then Some(text + "\n") else None));
    }
  }
}
