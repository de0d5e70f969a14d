/** The index that the data lake builds from its commit messages. */
module GitLog {
  import opened Common

  const CHECK_IN_PREFIX := "check-in:"
  const INGEST_TOOL_PREFIX := "ingest-tool:"
  const TOOL_ARGS_PREFIX := "tool-args:"
  const REMOVE_PREFIX := "nmdl-remove: "

  datatype Commit = CheckIn(path: string, tool: string, args: string) | Remove(path: string)

  datatype DataEntry = DataEntry(deviceId: string, dataPath: string, ingestTool: string, toolArgs: string)

  type Index = map<string, (string, string)>

  // ----- messages and the log

  function Message(c: Commit): seq<string> {
    match c
    case CheckIn(path, tool, args) =>
      ["check-in:" + path, "ingest-tool:" + tool, "tool-args:" + args]
    case Remove(path) => ["nmdl-remove: " + path]
  }

  /** The lines of the log of commits, the newest first, with some blank lines after each message. */
  function Log(history: seq<Commit>, blanks: seq<nat>): seq<string>
    requires |blanks| == |history|
  {
    if history == [] then [] else Message(history[0]) + Blank(blanks[0], Log(history[1..], blanks[1..]))
  }

  function Blank(n: nat, rest: seq<string>): seq<string> {
    if n == 0 then rest else [""] + Blank(n - 1, rest)
  }

  /** Neither newlines nor carriage returns. */
  predicate OneLine(s: string) {
    '\n' !in s && '\r' !in s
  }

  predicate NoNewline(s: string) {
    '\n' !in s
  }

  predicate NoNewlines(c: Commit) {
    NoNewline(c.path) && (c.CheckIn? ==> NoNewline(c.tool) && NoNewline(c.args))
  }

  predicate NoReturns(c: Commit) {
    OneLine(c.path) && (c.CheckIn? ==> OneLine(c.tool) && OneLine(c.args))
  }

  function Text(lines: seq<string>): string {
    if lines == [] then "" else lines[0] + (['\n'] + Text(lines[1..]))
  }

  /** The lines of a text, as reading it line by line gives them. */
  function Lines(text: string): seq<string> {
    if text == "" then []
    else if text[0] == '\n' then [""] + Lines(text[1..])
    else
      var rest := Lines(text[1..]);
      if rest == [] then [[text[0]]] else [[text[0]] + rest[0]] + rest[1..]
  }

  lemma {:induction false} FirstLine(line: string, rest: string)
    requires NoNewline(line)
    ensures Lines(line + (['\n'] + rest)) == [line] + Lines(rest)
    decreases |line|
  {
    var text := line + (['\n'] + rest);
    if line == "" {
      assert text == ['\n'] + rest && text[1..] == rest;
    } else {
      FirstLine(line[1..], rest);
      assert text[1..] == line[1..] + (['\n'] + rest) && text[0] == line[0];
      assert line == [line[0]] + line[1..];
    }
  }

  /** A text's last line need not end in a newline. */
  lemma {:induction false} LastLine(line: string)
    requires NoNewline(line)
    ensures Lines(line) == if line == "" then [] else [line]
  {
    if line != "" {
      LastLine(line[1..]);
      var rest := Lines(line[1..]);
      assert line == [line[0]] + line[1..] && line[0] in line;
      if rest == [] {
        assert line == [line[0]];
        assert Lines(line) == [[line[0]]];
      } else {
        assert Lines(line) == [[line[0]] + rest[0]] + rest[1..];
      }
    }
  }

  predicate NoneBroken(lines: seq<string>) {
    lines == [] || (NoNewline(lines[0]) && NoneBroken(lines[1..]))
  }

  lemma {:induction false} LinesOfText(lines: seq<string>)
    requires NoneBroken(lines)
    ensures Lines(Text(lines)) == lines
  {
    if lines != [] {
      FirstLine(lines[0], Text(lines[1..]));
      LinesOfText(lines[1..]);
    }
  }

  // ----- scanning the log

  /** What follows the prefix up to the end of the line; a carriage return ends nothing and matches nothing. */
  function Matched(line: string, prefix: string): Option<string> {
    if |prefix| <= |line| && line[..|prefix|] == prefix && OneLine(line[|prefix|..])
    then Some(line[|prefix|..]) else None
  }

  function OrEmpty(m: Option<string>): string {
    if m.Some? then m.value else ""
  }

  /** The line at a position, empty when the log has ended. */
  function LineAt(lines: seq<string>, i: nat): string {
    if i < |lines| then lines[i] else ""
  }

  /** What each path is given by the first of its check-in messages. */
  function Scanned(top: string, lines: seq<string>): Index
    decreases |lines|
  {
    if lines == [] then map[]
    else
      match Matched(lines[0], CHECK_IN_PREFIX)
      case None => Scanned(top, lines[1..])
      case Some(path) =>
        Scanned(top, lines[if 3 <= |lines| then 3 else |lines|..])
          [top + path := (OrEmpty(Matched(LineAt(lines, 1), INGEST_TOOL_PREFIX)),
                          OrEmpty(Matched(LineAt(lines, 2), TOOL_ARGS_PREFIX)))]
  }

  function Updated(entry: DataEntry, index: Index): DataEntry {
    if entry.dataPath in index
    then entry.(ingestTool := index[entry.dataPath].0, toolArgs := index[entry.dataPath].1)
    else entry
  }

  /** Adding to an index what it does not have yet. */
  function Emplaced(index: Index, key: string, value: (string, string)): Index {
    if key in index then index else index[key := value]
  }

  lemma EmplaceFirst(older: Index, index: Index, key: string, value: (string, string))
    ensures older[key := value] + index == older + Emplaced(index, key, value)
  {
  }

  /** The log is read a line at a time; a check-in line takes the next two lines with it. */
  method Parse(top: string, log: string) returns (parsed: Index)
    ensures parsed == Scanned(top, Lines(log))
  {
    var lines := Lines(log);
    parsed := map[];
    var i := 0;
    while i < |lines|
      invariant 0 <= i <= |lines|
      invariant Scanned(top, lines) == Scanned(top, lines[i..]) + parsed
    {
      var m := Matched(lines[i], CHECK_IN_PREFIX);
      ghost var left := lines[i..];
      assert left[0] == lines[i] && left[1..] == lines[i + 1..];
      i := i + 1;
      if m.None? { continue; }
      var path := top + m.value;
      var ingest, toolArgs := "", "";
      var line := LineAt(lines, i);
      i := if i < |lines| then i + 1 else i;
      m := Matched(line, INGEST_TOOL_PREFIX);
      if m.Some? { ingest := m.value; }
      line := LineAt(lines, i);
      i := if i < |lines| then i + 1 else i;
      m := Matched(line, TOOL_ARGS_PREFIX);
      if m.Some? { toolArgs := m.value; }
      assert left[if 3 <= |left| then 3 else |left|..] == lines[i..];
      EmplaceFirst(Scanned(top, lines[i..]), parsed, path, (ingest, toolArgs));
      parsed := Emplaced(parsed, path, (ingest, toolArgs));
    }
  }

  method SetIngestToolData(top: string, log: string, vde: array<DataEntry>)
    modifies vde
    ensures forall j :: 0 <= j < vde.Length ==> vde[j] == Updated(old(vde[j]), Scanned(top, Lines(log)))
  {
    var parsed := Parse(top, log);
    for j := 0 to vde.Length
      invariant forall k :: 0 <= k < j ==> vde[k] == Updated(old(vde[k]), parsed)
      invariant forall k :: j <= k < vde.Length ==> vde[k] == old(vde[k])
    {
      var entry := vde[j];
      if entry.dataPath in parsed {
        var pair := parsed[entry.dataPath];
        vde[j] := entry.(ingestTool := pair.0, toolArgs := pair.1);
      }
    }
  }

  // ----- the newest check-in wins

  /** A field as it is read back: nothing of it if it has a carriage return. */
  function Clean(field: string): string {
    if '\n' in field || '\r' in field then "" else field
  }

  /** Tool and arguments of the newest check-in of a file whose path can be read back. */
  function Newest(top: string, history: seq<Commit>, file: string): Option<(string, string)> {
    if history == [] then None
    else if history[0].CheckIn? && '\n' !in history[0].path && '\r' !in history[0].path && top + history[0].path == file
    then Some((Clean(history[0].tool), Clean(history[0].args)))
    else Newest(top, history[1..], file)
  }

  /** What the newest check-in of a file was written with. */
  function NewestCheckIn(top: string, history: seq<Commit>, file: string): Option<(string, string)> {
    if history == [] then None
    else if history[0].CheckIn? && top + history[0].path == file then Some((history[0].tool, history[0].args))
    else NewestCheckIn(top, history[1..], file)
  }

  predicate Agrees(index: Index, top: string, history: seq<Commit>, file: string) {
    match Newest(top, history, file)
    case Some(pair) => file in index && index[file] == pair
    case None => file !in index
  }

  lemma MatchesOwn(prefix: string, field: string)
    ensures Matched(prefix + field, prefix) == if OneLine(field) then Some(field) else None
  {
    assert (prefix + field)[..|prefix|] == prefix && (prefix + field)[|prefix|..] == field;
  }

  /** A line matches only if it is the prefix and then text without newlines and carriage returns. */
  lemma MatchedIs(line: string, prefix: string, field: string)
    ensures Matched(line, prefix) == Some(field) <==> line == prefix + field && '\n' !in field && '\r' !in field
  {
    if Matched(line, prefix) == Some(field) { assert line == prefix + field; }
    if line == prefix + field { MatchesOwn(prefix, field); }
  }

  /** What a line gives for a field: what follows the prefix, and nothing if that cannot be read or the line is
      another. */
  ghost predicate Gives(line: string, prefix: string, field: string) {
    || (line == prefix + field && '\n' !in field && '\r' !in field)
    || (field == "" && forall f: string :: line == prefix + f ==> '\n' in f || '\r' in f)
  }

  lemma GivesMatched(line: string, prefix: string, field: string)
    requires Gives(line, prefix, field)
    ensures OrEmpty(Matched(line, prefix)) == field
  {
    if line == prefix + field && '\n' !in field && '\r' !in field {
      MatchedIs(line, prefix, field);
    } else if Matched(line, prefix).Some? {
      MatchedIs(line, prefix, Matched(line, prefix).value);
    }
  }

  /** The two lines after a check-in line are taken for its tool and its arguments, whatever they are, and the
      log may end before them. */
  lemma TwoLinesTaken(top: string, path: string, a: string, b: string, rest: seq<string>, tool: string, args: string)
    requires '\n' !in path && '\r' !in path && Gives(a, "ingest-tool:", tool) && Gives(b, "tool-args:", args)
    ensures Scanned(top, ["check-in:" + path, a, b] + rest) == Scanned(top, rest)[top + path := (tool, args)]
    ensures Scanned(top, ["check-in:" + path, a]) == map[top + path := (tool, "")]
    ensures Scanned(top, ["check-in:" + path]) == map[top + path := ("", "")]
  {
    MatchedIs("check-in:" + path, "check-in:", path);
    GivesMatched(a, "ingest-tool:", tool);
    GivesMatched(b, "tool-args:", args);
    var three, two, one := ["check-in:" + path, a, b] + rest, ["check-in:" + path, a], ["check-in:" + path];
    assert three[3..] == rest && two[2..] == [] && one[1..] == [];
  }

  lemma MatchStarts(line: string)
    requires Matched(line, CHECK_IN_PREFIX).Some?
    ensures line != "" && line[0] == 'c'
  {
    assert line[..|CHECK_IN_PREFIX|][0] == line[0];
  }

  lemma {:induction false} BlanksSkipped(top: string, n: nat, rest: seq<string>)
    ensures Scanned(top, Blank(n, rest)) == Scanned(top, rest)
  {
    if n > 0 {
      BlanksSkipped(top, n - 1, rest);
      assert Blank(n, rest)[1..] == Blank(n - 1, rest);
    }
  }

  /** A line that starts with another letter is skipped. */
  lemma LineSkipped(top: string, line: string, rest: seq<string>)
    requires line != "" && line[0] != 'c'
    ensures Scanned(top, [line] + rest) == Scanned(top, rest)
  {
    assert ([line] + rest)[1..] == rest;
    if Matched(line, CHECK_IN_PREFIX).Some? {
      MatchStarts(line);
      assert false;
    }
  }

  lemma RemoveSkipped(top: string, path: string, rest: seq<string>)
    ensures Scanned(top, Message(Remove(path)) + rest) == Scanned(top, rest)
  {
    LineSkipped(top, REMOVE_PREFIX + path, rest);
  }

  lemma CheckInScanned(top: string, c: Commit, rest: seq<string>)
    requires c.CheckIn? && OneLine(c.path)
    ensures Scanned(top, Message(c) + rest) == Scanned(top, rest)[top + c.path := (Clean(c.tool), Clean(c.args))]
  {
    var lines := Message(c) + rest;
    assert lines[3..] == rest;
    MatchesOwn(CHECK_IN_PREFIX, c.path);
    MatchesOwn(INGEST_TOOL_PREFIX, c.tool);
    MatchesOwn(TOOL_ARGS_PREFIX, c.args);
  }

  lemma CheckInSkipped(top: string, c: Commit, rest: seq<string>)
    requires c.CheckIn? && !OneLine(c.path)
    ensures Scanned(top, Message(c) + rest) == Scanned(top, rest)
  {
    var tool, args := INGEST_TOOL_PREFIX + c.tool, TOOL_ARGS_PREFIX + c.args;
    MatchesOwn(CHECK_IN_PREFIX, c.path);
    assert (Message(c) + rest)[1..] == [tool] + ([args] + rest);
    LineSkipped(top, args, rest);
    LineSkipped(top, tool, [args] + rest);
  }

  /** Of every file the scan gives what its newest check-in says, and nothing of files that have none. */
  lemma {:induction false} NewestWins(top: string, history: seq<Commit>, blanks: seq<nat>, file: string)
    requires |blanks| == |history|
    ensures Agrees(Scanned(top, Log(history, blanks)), top, history, file)
    decreases |history|
  {
    if history != [] {
      var rest := Log(history[1..], blanks[1..]);
      NewestWins(top, history[1..], blanks[1..], file);
      BlanksSkipped(top, blanks[0], rest);
      if history[0].Remove? {
        RemoveSkipped(top, history[0].path, Blank(blanks[0], rest));
      } else if OneLine(history[0].path) {
        CheckInScanned(top, history[0], Blank(blanks[0], rest));
      } else {
        CheckInSkipped(top, history[0], Blank(blanks[0], rest));
      }
    }
  }

  // ----- from the printed log

  lemma {:induction false} NoneBrokenConcat(a: seq<string>, b: seq<string>)
    requires NoneBroken(a) && NoneBroken(b)
    ensures NoneBroken(a + b)
    decreases |a|
  {
    if a == [] {
      assert a + b == b;
    } else {
      NoneBrokenConcat(a[1..], b);
      assert (a + b)[1..] == a[1..] + b;
    }
  }

  lemma {:induction false} BlankNotBroken(n: nat, rest: seq<string>)
    requires NoneBroken(rest)
    ensures NoneBroken(Blank(n, rest))
  {
    if n > 0 {
      BlankNotBroken(n - 1, rest);
      assert Blank(n, rest)[1..] == Blank(n - 1, rest);
    }
  }

  lemma ThreeLines(a: string, b: string, c: string)
    requires NoNewline(a) && NoNewline(b) && NoNewline(c)
    ensures NoneBroken([a, b, c])
  {
    assert [c][1..] == [];
    assert NoneBroken([c]);
    assert [b, c][1..] == [c];
    assert NoneBroken([b, c]);
    assert [a, b, c][1..] == [b, c];
  }

  lemma MessageNotBroken(c: Commit)
    requires NoNewlines(c)
    ensures NoneBroken(Message(c))
  {
    match c
    case CheckIn(path, tool, args) =>
      ThreeLines(CHECK_IN_PREFIX + path, INGEST_TOOL_PREFIX + tool, TOOL_ARGS_PREFIX + args);
    case Remove(path) =>
  }

  lemma {:induction false} LogNotBroken(history: seq<Commit>, blanks: seq<nat>)
    requires |blanks| == |history| && forall c :: c in history ==> NoNewlines(c)
    ensures NoneBroken(Log(history, blanks))
    decreases |history|
  {
    if history != [] {
      LogNotBroken(history[1..], blanks[1..]);
      BlankNotBroken(blanks[0], Log(history[1..], blanks[1..]));
      assert NoNewlines(history[0]);
      MessageNotBroken(history[0]);
      NoneBrokenConcat(Message(history[0]), Blank(blanks[0], Log(history[1..], blanks[1..])));
    }
  }

  /** For every history without newlines in its fields, printed as a log, each listed entry gets tool and
      arguments of its newest check-in, and entries without one stay as they are. */
  lemma EntriesGetNewest(top: string, history: seq<Commit>, blanks: seq<nat>, entry: DataEntry)
    requires |blanks| == |history| && forall c :: c in history ==> NoNewlines(c)
    ensures Updated(entry, Scanned(top, Lines(Text(Log(history, blanks))))) ==
      match Newest(top, history, entry.dataPath)
      case Some(pair) => entry.(ingestTool := pair.0, toolArgs := pair.1)
      case None => entry
  {
    LogNotBroken(history, blanks);
    LinesOfText(Log(history, blanks));
    NewestWins(top, history, blanks, entry.dataPath);
  }

  /** Without carriage returns the newest check-in is read back as it was written. */
  lemma {:induction false} NewestAsWritten(top: string, history: seq<Commit>, file: string)
    requires forall c :: c in history ==> NoReturns(c)
    ensures Newest(top, history, file) == NewestCheckIn(top, history, file)
    decreases |history|
  {
    if history != [] {
      assert NoReturns(history[0]);
      NewestAsWritten(top, history[1..], file);
    }
  }
}
