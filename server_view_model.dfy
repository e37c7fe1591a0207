/*
 * The server's log window view-model: it polls the shared log file, gives
 * every line a semantic level by its text, and exposes the server status.
 * Polling is a sequence of `RefreshLogs` events; what one read of the file
 * yields is their parameter.
 */
module ServerView {
  import opened Protocol
  import FileLogging

  datatype LogLevel = SERVER | CLIENT | ERROR | WARN | INFO | DEBUG | DEFAULT

  datatype ServerStatus = STARTING | RUNNING | STOPPED

  /** A parsed line: its text, its level, and the short id of the client it belongs to, if any. */
  datatype LogLine = LogLine(text: string, level: LogLevel, clientId: Option<string>)

  predicate StartsWith(s: string, p: string) {
    |p| <= |s| && s[..|p|] == p
  }

  /** Kotlin's `s.contains(p)`. */
  predicate Contains(s: string, p: string)
    decreases |s|
  {
    StartsWith(s, p) || (s != [] && Contains(s[1..], p))
  }

  /** `p` occurs in `s` at index `i`. */
  predicate OccursAt(s: string, p: string, i: int) {
    0 <= i && i + |p| <= |s| && s[i..i + |p|] == p
  }

  lemma OccursShift(s: string, p: string, i: int)
    requires s != [] && 0 <= i
    ensures OccursAt(s[1..], p, i) <==> OccursAt(s, p, i + 1)
  {
    if 0 <= i && i + |p| <= |s| - 1 {
      assert s[1..][i..i + |p|] == s[i + 1..i + 1 + |p|];
    }
  }

  /** `p` is contained in `s` exactly when it occurs at some index. */
  lemma {:induction false} ContainsAt(s: string, p: string)
    ensures Contains(s, p) <==> exists i :: OccursAt(s, p, i)
    decreases |s|
  {
    if StartsWith(s, p) {
      assert OccursAt(s, p, 0);
    } else if s != [] {
      ContainsAt(s[1..], p);
      if Contains(s[1..], p) {
        var i :| OccursAt(s[1..], p, i);
        OccursShift(s, p, i);
      } else {
        forall i ensures !OccursAt(s, p, i) {
          if i > 0 {
            OccursShift(s, p, i - 1);
          }
        }
      }
    } else {
      forall i ensures !OccursAt(s, p, i) {
      }
    }
  }

  /** One character of the regex class `[a-f0-9]`. */
  predicate IsHexDigit(c: char) {
    '0' <= c <= '9' || 'a' <= c <= 'f'
  }

  const ClientPrefix := "[CLIENT-"

  /** The regex `\[CLIENT-([a-f0-9]{4})\]` matches at index `i` of `s`. */
  predicate ClientTagAt(s: string, i: int) {
    0 <= i && i + 13 <= |s| && s[i..i + 8] == ClientPrefix &&
    IsHexDigit(s[i + 8]) && IsHexDigit(s[i + 9]) && IsHexDigit(s[i + 10]) && IsHexDigit(s[i + 11]) &&
    s[i + 12] == ']'
  }

  /** The captured group of the leftmost match at or after `from`, as `Regex.find` returns it. */
  function FindClientId(s: string, from: nat): Option<string>
    decreases |s| - from
  {
    if from + 13 > |s| then None
    else if ClientTagAt(s, from) then Some(s[from + 8..from + 12])
    else FindClientId(s, from + 1)
  }

  /** The search yields the group of the leftmost match, and nothing when there is no match. */
  lemma {:induction false} FindClientIdLeftmost(s: string, from: nat)
    ensures FindClientId(s, from).None? <==> forall i :: from <= i ==> !ClientTagAt(s, i)
    ensures FindClientId(s, from).Some? ==>
      exists i :: from <= i && ClientTagAt(s, i) && FindClientId(s, from).value == s[i + 8..i + 12] &&
        forall j :: from <= j < i ==> !ClientTagAt(s, j)
    decreases |s| - from
  {
    if from + 13 > |s| {
    } else if ClientTagAt(s, from) {
    } else {
      FindClientIdLeftmost(s, from + 1);
    }
  }

  /** Classification of one line: the first marker found, in the order SERVER, CLIENT, ERROR, WARN, INFO, DEBUG. */
  function ParseLine(line: string): LogLine {
    var clientId := FindClientId(line, 0);
    var level :=
      if Contains(line, "[SERVER]") then SERVER
      else if clientId.Some? then CLIENT
      else if Contains(line, "[CLIENT]") then CLIENT
      else if Contains(line, "[ERROR]") then ERROR
      else if Contains(line, "[WARN]") then WARN
      else if Contains(line, "[INFO]") then INFO
      else if Contains(line, "[DEBUG]") then DEBUG
      else DEFAULT;
    LogLine(line, level, clientId)
  }

  /** Precedence of the levels; a smaller rank wins. */
  function Rank(l: LogLevel): nat {
    match l
    case SERVER => 0
    case CLIENT => 1
    case ERROR => 2
    case WARN => 3
    case INFO => 4
    case DEBUG => 5
    case DEFAULT => 6
  }

  /** The line carries the marker of level `l` (every line carries DEFAULT). */
  ghost predicate Carries(line: string, l: LogLevel) {
    match l
    case SERVER => Contains(line, "[SERVER]")
    case CLIENT => (exists i :: ClientTagAt(line, i)) || Contains(line, "[CLIENT]")
    case ERROR => Contains(line, "[ERROR]")
    case WARN => Contains(line, "[WARN]")
    case INFO => Contains(line, "[INFO]")
    case DEBUG => Contains(line, "[DEBUG]")
    case DEFAULT => true
  }

  /** The level of a line is the highest-precedence marker it carries. */
  lemma ParseLineHighest(line: string)
    ensures Carries(line, ParseLine(line).level)
    ensures forall l :: Carries(line, l) ==> Rank(ParseLine(line).level) <= Rank(l)
  {
    FindClientIdLeftmost(line, 0);
  }

  /**
   * The text is kept unchanged, and the client id is present exactly when
   * the client pattern occurs, whatever level the line gets; it is then four
   * characters of `[a-f0-9]` that follow "[CLIENT-" in the line.
   */
  lemma ParseLineClientId(line: string)
    ensures ParseLine(line).text == line
    ensures ParseLine(line).clientId.Some? <==> exists i :: ClientTagAt(line, i)
    ensures ParseLine(line).clientId.Some? ==>
      var id := ParseLine(line).clientId.value;
      |id| == 4 && (forall k :: 0 <= k < 4 ==> IsHexDigit(id[k])) && Contains(line, ClientPrefix + id + "]")
  {
    FindClientIdLeftmost(line, 0);
    if ParseLine(line).clientId.Some? {
      var i :| 0 <= i && ClientTagAt(line, i) && ParseLine(line).clientId.value == line[i + 8..i + 12];
      var id := line[i + 8..i + 12];
      ClientTagText(line, i, id);
      ContainsAt(line, ClientPrefix + id + "]");
    }
  }

  /** A match spells "[CLIENT-", the four captured characters `id`, and "]". */
  lemma ClientTagText(s: string, i: int, id: string)
    requires ClientTagAt(s, i) && id == s[i + 8..i + 12]
    ensures OccursAt(s, ClientPrefix + id + "]", i)
    ensures |id| == 4 && forall k :: 0 <= k < 4 ==> IsHexDigit(id[k])
  {
    assert s[i..i + 13] == s[i..i + 8] + s[i + 8..i + 12] + s[i + 12..i + 13];
    forall k | 0 <= k < 4 ensures IsHexDigit(id[k]) {
      assert id[k] == s[i + 8 + k];
      assert k == 0 || k == 1 || k == 2 || k == 3;
    }
  }

  /** A "[SERVER]" line is SERVER whatever else it holds, and keeps its client id. */
  lemma ServerWins(line: string)
    requires Contains(line, "[SERVER]")
    ensures ParseLine(line).level == SERVER
    ensures ParseLine(line).clientId == FindClientId(line, 0)
  {
  }

  /** `lines.map { parseLine(it) }`. */
  function ParseAll(lines: seq<string>): seq<LogLine> {
    seq(|lines|, i requires 0 <= i < |lines| => ParseLine(lines[i]))
  }

  /** The published list has one entry per line, in order, each holding that line's text. */
  lemma ParseAllLines(lines: seq<string>)
    ensures |ParseAll(lines)| == |lines|
    ensures forall i :: 0 <= i < |lines| ==> ParseAll(lines)[i].text == lines[i]
  {
  }

  class ServerViewModel {
    var logs: seq<LogLine>
    var status: ServerStatus
    var lastLines: seq<string>

    /** The published logs are always the parse of the last lines read. */
    ghost predicate Valid()
      reads this
    {
      logs == ParseAll(lastLines)
    }

    constructor ()
      ensures Valid()
      ensures logs == [] && lastLines == [] && status == STARTING
    {
      logs := [];
      lastLines := [];
      status := STARTING;
    }

    method StartPolling()
      modifies this
      ensures status == RUNNING
      ensures logs == old(logs) && lastLines == old(lastLines)
    {
      status := RUNNING;
    }

    method StopPolling()
      modifies this
      ensures status == STOPPED
      ensures logs == old(logs) && lastLines == old(lastLines)
    {
      status := STOPPED;
    }

    /**
     * One poll. `read` is the file's lines, or None when the file is missing
     * or cannot be read. Nothing is published when the lines did not change.
     */
    method RefreshLogs(read: Option<seq<string>>)
      requires Valid()
      modifies this
      ensures Valid()
      ensures status == old(status)
      ensures read.None? || read.value == old(lastLines) ==> logs == old(logs) && lastLines == old(lastLines)
      ensures read.Some? ==> lastLines == read.value
    {
      if read.None? {
        return;
      }
      var newLines := read.value;
      if newLines == lastLines {
        return;
      }
      lastLines := newLines;
      logs := ParseAll(newLines);
    }

    /** Empties the log file and the in-memory lists. */
    method ClearLogs(file: FileLogging.FileLogger)
      requires Valid()
      modifies this, file
      ensures Valid()
      ensures file.lines == [] && lastLines == [] && logs == []
      ensures status == old(status)
    {
      file.Clear();
      lastLines := [];
      logs := [];
    }
  }
}
