/*
 * The JVM file logger shared by the server and the clients: one text file
 * of log lines. Each write adds the line "[ts] [LEVEL] [SOURCE] msg"; when
 * the file would then hold more than MaxLogs lines it is rewritten with
 * only the newest LogsToKeep. The file is modelled as the list of the
 * entries written to it, one per write; for messages without a line break
 * that is what reading it line by line yields. The formatted clock time of
 * the write is a parameter.
 */
module FileLogging {

  /** Line count above which the file is rotated. */
  const MaxLogs := 1000

  /** Lines a rotation keeps. */
  const LogsToKeep := 500

  datatype Level = INFO | ERROR | WARN | DEBUG

  /** The level's tag as it appears in a line. */
  function Tag(l: Level): string {
    match l
    case INFO => "INFO"
    case ERROR => "ERROR"
    case WARN => "WARN"
    case DEBUG => "DEBUG"
  }

  /** "[ts] [LEVEL] [SOURCE] msg", without its line terminator. */
  function FormatLine(ts: string, level: Level, source: string, msg: string): string {
    "[" + ts + "] [" + Tag(level) + "] [" + source + "] " + msg
  }

  /** The whitespace `trimEnd` removes (its ASCII part). */
  predicate IsBlank(c: char) {
    c == ' ' || c == '\t' || c == '\n' || c == '\r'
  }

  /** Kotlin's `trimEnd()`: drops trailing whitespace. */
  function TrimEnd(s: string): string {
    if s != [] && IsBlank(s[|s| - 1]) then TrimEnd(s[..|s| - 1]) else s
  }

  /** `TrimEnd(s)` is the longest prefix of `s` that does not end in whitespace. */
  lemma {:induction false} TrimEndLongestPrefix(s: string)
    ensures |TrimEnd(s)| <= |s| && TrimEnd(s) == s[..|TrimEnd(s)|]
    ensures TrimEnd(s) == [] || !IsBlank(TrimEnd(s)[|TrimEnd(s)| - 1])
    ensures forall k :: |TrimEnd(s)| <= k < |s| ==> IsBlank(s[k])
  {
    if s != [] && IsBlank(s[|s| - 1]) {
      TrimEndLongestPrefix(s[..|s| - 1]);
    }
  }

  /** Trimming twice is trimming once. */
  lemma TrimEndIdempotent(s: string)
    ensures TrimEnd(TrimEnd(s)) == TrimEnd(s)
  {
    TrimEndLongestPrefix(s);
  }

  /** The file after one write of `line` to a file holding `lines`. */
  function AfterWrite(lines: seq<string>, line: string): seq<string> {
    var all := lines + [TrimEnd(line)];
    if |all| > MaxLogs then all[|all| - LogsToKeep..] else lines + [line]
  }

  /** Whatever the file held before, a write leaves at most MaxLogs lines, the new one last. */
  lemma AfterWriteBounded(lines: seq<string>, line: string)
    ensures 0 < |AfterWrite(lines, line)| <= MaxLogs
    ensures TrimEnd(AfterWrite(lines, line)[|AfterWrite(lines, line)| - 1]) == TrimEnd(line)
  {
    TrimEndIdempotent(line);
  }

  /** Below the limit a write only appends; at the limit the file keeps exactly its newest LogsToKeep lines. */
  lemma AfterWriteRotates(lines: seq<string>, line: string)
    ensures |lines| < MaxLogs ==> AfterWrite(lines, line) == lines + [line]
    ensures |lines| >= MaxLogs ==>
      |AfterWrite(lines, line)| == LogsToKeep &&
      AfterWrite(lines, line)[..LogsToKeep - 1] == lines[|lines| - LogsToKeep + 1..] &&
      AfterWrite(lines, line)[LogsToKeep - 1] == TrimEnd(line)
  {
  }

  /** The file after writing each of `ws` in turn. */
  function WriteAll(lines: seq<string>, ws: seq<string>): seq<string> {
    if ws == [] then lines else AfterWrite(WriteAll(lines, ws[..|ws| - 1]), ws[|ws| - 1])
  }

  /** Line `j` of the last `|ws|` lines of `file` is `ws[j]`, up to trailing whitespace. */
  ghost predicate EndsWith(file: seq<string>, ws: seq<string>) {
    |ws| <= |file| && forall j :: 0 <= j < |ws| ==> TrimEnd(file[|file| - |ws| + j]) == TrimEnd(ws[j])
  }

  /**
   * Rotation never loses a recent line: after at most LogsToKeep writes,
   * the file ends with exactly those lines, in the order written.
   */
  lemma {:induction false} RecentLinesSurvive(lines: seq<string>, ws: seq<string>)
    requires |ws| <= LogsToKeep
    ensures EndsWith(WriteAll(lines, ws), ws)
  {
    if ws != [] {
      var init, w := ws[..|ws| - 1], ws[|ws| - 1];
      RecentLinesSurvive(lines, init);
      var file := WriteAll(lines, init);
      var next := AfterWrite(file, w);
      assert next == WriteAll(lines, ws);
      var all := file + [TrimEnd(w)];
      TrimEndIdempotent(w);
      forall j | 0 <= j < |ws|
        ensures TrimEnd(next[|next| - |ws| + j]) == TrimEnd(ws[j])
      {
        if j < |init| {
          assert ws[j] == init[j];
          if |all| > MaxLogs {
            assert next[|next| - |ws| + j] == file[|file| - |init| + j];
          } else {
            assert next[|next| - |ws| + j] == file[|file| - |init| + j];
          }
        }
      }
    }
  }

  /** The log file, as the list of its lines. */
  class FileLogger {
    var lines: seq<string>

    constructor (existing: seq<string>)
      ensures lines == existing
    {
      lines := existing;
    }

    /** Adds one formatted line, rotating the file when it grows past MaxLogs. */
    method Write(level: Level, source: string, msg: string, ts: string)
      modifies this
      ensures lines == AfterWrite(old(lines), FormatLine(ts, level, source, msg))
      ensures |lines| <= MaxLogs
    {
      var line := FormatLine(ts, level, source, msg);
      var all := lines + [TrimEnd(line)];
      if |all| > MaxLogs {
        lines := all[|all| - LogsToKeep..];
      } else {
        lines := lines + [line];
      }
      AfterWriteBounded(old(lines), line);
    }

    method Info(source: string, msg: string, ts: string)
      modifies this
      ensures lines == AfterWrite(old(lines), FormatLine(ts, INFO, source, msg))
    {
      Write(INFO, source, msg, ts);
    }

    method Error(source: string, msg: string, ts: string)
      modifies this
      ensures lines == AfterWrite(old(lines), FormatLine(ts, ERROR, source, msg))
    {
      Write(ERROR, source, msg, ts);
    }

    method Warning(source: string, msg: string, ts: string)
      modifies this
      ensures lines == AfterWrite(old(lines), FormatLine(ts, WARN, source, msg))
    {
      Write(WARN, source, msg, ts);
    }

    method Debug(source: string, msg: string, ts: string)
      modifies this
      ensures lines == AfterWrite(old(lines), FormatLine(ts, DEBUG, source, msg))
    {
      Write(DEBUG, source, msg, ts);
    }

    method Clear()
      modifies this
      ensures lines == []
    {
      lines := [];
    }
  }
}
