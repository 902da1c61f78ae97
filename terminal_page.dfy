/** The web terminal src/app/terminal/page.tsx: a line editor with a command history browsed by the
    arrow keys, and `executeCommand`, which dispatches on the lower-cased first word of the line to
    built-in commands (`echo`, `history`, `cd`, `pwd`, …) or sends the line to the command route
    prefixed by a `cd` into the current directory. The current path and the busy flag are inputs,
    since the handler reads them from the state captured when the terminal was created. */
module TerminalPage {
  import opened Wrappers
  import opened Js
  import opened Lookup

  // ---------------------------------------------------------------------------
  // The line editor

  /** A key press: the key's text, its `keyCode` and the modifier flags of the DOM event. */
  datatype KeyEvent = KeyEvent(key: string, keyCode: int, alt: bool, ctrl: bool, meta: bool)

  /** The handler's variables `currentLine`, `commandHistory` and `historyIndex`. */
  datatype LineState = LineState(line: string, history: seq<string>, historyIndex: int)

  const Fresh: LineState := LineState([], [], -1)

  /** The index stays in [-1, history length], it is -1 only before anything was recorded, and
      every recorded line is non-blank. */
  predicate Valid(s: LineState) {
    -1 <= s.historyIndex <= |s.history|
    && (s.historyIndex == -1 ==> s.history == [])
    && forall i :: 0 <= i < |s.history| ==> !AllWhitespace(s.history[i])
  }

  /** `commandHistory[i] || ''`. */
  function Entry(history: seq<string>, i: int): string {
    if 0 <= i < |history| then history[i] else []
  }

  /** Enter: record a non-blank line, point past the end of the history, hand the line to
      `executeCommand` and clear it. */
  function Enter(s: LineState): (LineState, Option<string>) {
    if Trim(s.line) != [] then (LineState([], s.history + [s.line], |s.history| + 1), Some(s.line))
    else (s.(line := []), Some(s.line))
  }

  function Backspace(s: LineState): LineState {
    if |s.line| > 0 then s.(line := s.line[..|s.line| - 1]) else s
  }

  function Up(s: LineState): LineState {
    if s.historyIndex > 0 then s.(historyIndex := s.historyIndex - 1, line := Entry(s.history, s.historyIndex - 1))
    else s
  }

  function Down(s: LineState): LineState {
    if s.historyIndex < |s.history| - 1 then s.(historyIndex := s.historyIndex + 1, line := Entry(s.history, s.historyIndex + 1))
    else if s.historyIndex == |s.history| - 1 then s.(historyIndex := s.historyIndex + 1, line := [])
    else s
  }

  /** `onKey`: the new variables and the line handed to `executeCommand`, if any. */
  function KeySpec(s: LineState, k: KeyEvent): (LineState, Option<string>) {
    if k.keyCode == 13 then Enter(s)
    else if k.keyCode == 8 then (Backspace(s), None)
    else if k.keyCode == 38 then (Up(s), None)
    else if k.keyCode == 40 then (Down(s), None)
    else if k.keyCode == 67 && k.ctrl then (s.(line := []), None)
    else if !k.alt && !k.ctrl && !k.meta then (s.(line := s.line + k.key), None)
    else (s, None)
  }

  /** Every key keeps the index in range, and the history only ever grows at its end. */
  lemma KeyKeepsValid(s: LineState, k: KeyEvent)
    requires Valid(s)
    ensures Valid(KeySpec(s, k).0)
    ensures s.history <= KeySpec(s, k).0.history && |KeySpec(s, k).0.history| <= |s.history| + 1
  {
    if k.keyCode == 13 && Trim(s.line) != [] {
      TrimEmptyIff(s.line);
    }
  }

  /** Enter records the line exactly when it is not blank, leaves the index past the end in that
      case and untouched otherwise, and always clears the line and executes it. */
  lemma EnterRecords(s: LineState)
    ensures var (t, executed) := Enter(s);
      executed == Some(s.line) && t.line == []
      && (!AllWhitespace(s.line) <==> t.history == s.history + [s.line])
      && (!AllWhitespace(s.line) ==> t.historyIndex == |t.history|)
      && (AllWhitespace(s.line) ==> t.history == s.history && t.historyIndex == s.historyIndex)
  {
    TrimEmptyIff(s.line);
  }

  /** Backspace drops the last character of a non-empty line and does nothing to an empty one. */
  lemma BackspaceDropsLast(s: LineState)
    ensures s.line != [] ==> Backspace(s).line + [s.line[|s.line| - 1]] == s.line
    ensures s.line == [] ==> Backspace(s) == s
    ensures Backspace(s).history == s.history && Backspace(s).historyIndex == s.historyIndex
  {
  }

  /** Up moves back one entry and loads it only when the index is positive; Down moves forward and
      loads the next entry, or from the last entry moves past the end with an empty line, and
      otherwise does nothing. */
  lemma ArrowsBrowse(s: LineState)
    requires Valid(s)
    ensures s.historyIndex > 0 ==> Up(s) == s.(historyIndex := s.historyIndex - 1, line := s.history[s.historyIndex - 1])
    ensures s.historyIndex <= 0 ==> Up(s) == s
    ensures s.historyIndex < |s.history| - 1 ==> Down(s) == s.(historyIndex := s.historyIndex + 1, line := s.history[s.historyIndex + 1])
    ensures s.historyIndex == |s.history| - 1 ==> Down(s) == s.(historyIndex := |s.history|, line := [])
    ensures s.historyIndex == |s.history| ==> Down(s) == s
  {
  }

  /** Up and then Down come back to the same place: the same entry, or past the end with an empty
      line. */
  lemma UpThenDown(s: LineState)
    requires Valid(s) && s.historyIndex > 0
    ensures Down(Up(s)).historyIndex == s.historyIndex
    ensures Down(Up(s)).line == Entry(s.history, s.historyIndex)
  {
  }

  /** Ctrl+C clears the line and leaves the history and the index as they are; it is checked
      before typing, so it never adds a `c`. */
  lemma CtrlCClears(s: LineState, k: KeyEvent)
    requires k.keyCode == 67 && k.ctrl
    ensures KeySpec(s, k) == (LineState([], s.history, s.historyIndex), None)
  {
  }

  /** A key with no modifier that is none of the editing keys is appended to the line. */
  lemma TypingAppends(s: LineState, k: KeyEvent)
    requires k.keyCode !in {13, 8, 38, 40} && !k.alt && !k.ctrl && !k.meta
    ensures KeySpec(s, k) == (s.(line := s.line + k.key), None)
  {
  }

  /** The closure's variables. */
  class LineEditor {
    var currentLine: string
    var commandHistory: seq<string>
    var historyIndex: int

    function State(): LineState
      reads this
    {
      LineState(currentLine, commandHistory, historyIndex)
    }

    constructor ()
      ensures State() == Fresh && Valid(State())
    {
      currentLine, commandHistory, historyIndex := [], [], -1;
    }

    /** `terminal.onKey`. */
    method OnKey(k: KeyEvent) returns (executed: Option<string>)
      modifies this
      ensures (State(), executed) == KeySpec(old(State()), k)
    {
      executed := None;
      if k.keyCode == 13 {
        if Trim(currentLine) != [] {
          commandHistory := commandHistory + [currentLine];
          historyIndex := |commandHistory|;
        }
        executed := Some(currentLine);
        currentLine := [];
      } else if k.keyCode == 8 {
        if |currentLine| > 0 {
          currentLine := currentLine[..|currentLine| - 1];
        }
      } else if k.keyCode == 38 {
        if historyIndex > 0 {
          historyIndex := historyIndex - 1;
          currentLine := Entry(commandHistory, historyIndex);
        }
      } else if k.keyCode == 40 {
        if historyIndex < |commandHistory| - 1 {
          historyIndex := historyIndex + 1;
          currentLine := Entry(commandHistory, historyIndex);
        } else if historyIndex == |commandHistory| - 1 {
          historyIndex := historyIndex + 1;
          currentLine := [];
        }
      } else if k.keyCode == 67 && k.ctrl {
        currentLine := [];
      } else if !k.alt && !k.ctrl && !k.meta {
        currentLine := currentLine + k.key;
      }
    }
  }

  // ---------------------------------------------------------------------------
  // executeCommand

  /** `command.trim().split(' ')`. */
  function Args(command: string): (args: seq<string>)
    ensures |args| >= 1
  {
    Split(Trim(command), ' ')
  }

  /** `args[0].toLowerCase()`. */
  function CommandWord(command: string): string {
    ToLowerAscii(Args(command)[0])
  }

  /** What `executeCommand` does. */
  datatype Action =
    | Busy                      // `Another command is already executing...`
    | Nothing                   // an empty line
    | ShowHelp
    | ClearScreen
    | Print(lines: seq<string>)
    | ChangeDir(path: string)
    | Remote(request: string)   // the `command` posted to the command route

  const HomePath: string := "/home/user"

  /** `parts.pop()` on the non-empty path segments. */
  function DropLast(parts: seq<string>): seq<string> {
    if parts == [] then [] else parts[..|parts| - 1]
  }

  /** The `cd` case: the new path for `target` from `current`. */
  function ResolveCd(current: string, target: string): string {
    if StartsWith(target, "/") then target
    else if target == ".." then "/" + Join(DropLast(NonEmpty(Split(current, '/'))), "/")
    else if current == "/" then "/" + target
    else current + "/" + target
  }

  /** `args[1] || '/home/user'`. */
  function CdTarget(args: seq<string>): string {
    if |args| > 1 && args[1] != [] then args[1] else HomePath
  }

  /** `  ${index + 1}: ${cmd}` for each entry, counting from `start`. */
  function HistoryLines(history: seq<string>, start: nat): (lines: seq<string>)
    ensures |lines| == |history|
    ensures forall i :: 0 <= i < |history| ==> lines[i] == "  " + NatToString(start + i + 1) + ": " + history[i]
  {
    if history == [] then []
    else ["  " + NatToString(start + 1) + ": " + history[0]] + HistoryLines(history[1..], start + 1)
  }

  /** The commands sent with the re-joined words rather than the line as typed. */
  const FileCommands: seq<string> := ["ls", "cat", "mkdir", "touch", "rm"]

  /** `cd "<path>" && <command>`. */
  function RemoteCommand(path: string, command: string): string {
    "cd \"" + path + "\" && " + command
  }

  function ExecuteCommand(command: string, currentPath: string, history: seq<string>, isExecuting: bool): Action {
    var args := Args(command);
    var cmd := CommandWord(command);
    if isExecuting then Busy
    else if cmd == [] then Nothing
    else if cmd == "help" then ShowHelp
    else if cmd == "clear" then ClearScreen
    else if cmd == "echo" then Print([Join(args[1..], " ")])
    else if cmd == "claude" then
      var text := Join(args[1..], " ");
      if text != [] then Print(["Sending to Claude Code: \"" + text + "\"", "(This is a simulation - integrate with actual Claude Code API)"])
      else Print(["Usage: claude <text>"])
    else if cmd == "history" then Print(HistoryLines(history, 0))
    else if cmd == "cd" then ChangeDir(ResolveCd(currentPath, CdTarget(args)))
    else if cmd == "pwd" then Print([currentPath])
    else if cmd in FileCommands then Remote(RemoteCommand(currentPath, Join(args, " ")))
    else Remote(RemoteCommand(currentPath, command))
  }

  /** The command word is the first space-free word of the trimmed line, lower-cased. */
  lemma CommandWordIsFirstWord(command: string, w: string, rest: string)
    requires ' ' !in w
    requires Trim(command) == w || Trim(command) == w + " " + rest
    ensures CommandWord(command) == ToLowerAscii(w)
    ensures Trim(command) == w + " " + rest ==> Args(command) == [w] + Split(rest, ' ')
  {
    if Trim(command) == w {
      SplitNoSep(w, ' ');
    } else {
      SplitAtFirst(w, rest, ' ');
    }
  }

  /** `echo` prints the rest of the trimmed line after the first space exactly, inner spaces
      included, whatever the case of the word `echo`. */
  lemma EchoPrintsRest(command: string, w: string, rest: string, currentPath: string, history: seq<string>)
    requires ' ' !in w && ToLowerAscii(w) == "echo"
    requires Trim(command) == w + " " + rest
    ensures ExecuteCommand(command, currentPath, history, false) == Print([rest])
  {
    CommandWordIsFirstWord(command, w, rest);
    assert Args(command)[1..] == Split(rest, ' ');
    JoinSplit(rest, ' ');
  }

  /** `history` lists every entry, numbered from 1 in recording order; a busy terminal does nothing
      else. */
  lemma HistoryNumbered(command: string, currentPath: string, history: seq<string>)
    requires CommandWord(command) == "history"
    ensures ExecuteCommand(command, currentPath, history, false).Print?
    ensures var lines := ExecuteCommand(command, currentPath, history, false).lines;
      |lines| == |history|
      && forall i :: 0 <= i < |history| ==> lines[i] == "  " + NatToString(i + 1) + ": " + history[i]
    ensures ExecuteCommand(command, currentPath, history, true) == Busy
  {
  }

  /** The file commands send the trimmed line, every other unknown word the line as typed, both
      after a `cd` into the current path. */
  lemma RemoteRequests(command: string, currentPath: string, history: seq<string>)
    requires CommandWord(command) !in ["", "help", "clear", "echo", "claude", "history", "cd", "pwd"]
    ensures CommandWord(command) in FileCommands ==>
      ExecuteCommand(command, currentPath, history, false) == Remote(RemoteCommand(currentPath, Trim(command)))
    ensures CommandWord(command) !in FileCommands ==>
      ExecuteCommand(command, currentPath, history, false) == Remote(RemoteCommand(currentPath, command))
  {
    JoinSplit(Trim(command), ' ');
  }

  // ---------------------------------------------------------------------------
  // cd

  /** `cd` with no argument goes home, an absolute path replaces the current one, and a relative
      name is appended after one `/` (none added after the root). */
  lemma CdCases(current: string, args: seq<string>, name: string)
    ensures |args| <= 1 ==> ResolveCd(current, CdTarget(args)) == HomePath
    ensures StartsWith(name, "/") ==> ResolveCd(current, name) == name
    ensures !StartsWith(name, "/") && name != ".." ==>
      ResolveCd(current, name) == (if current == "/" then "/" + name else current + "/" + name)
  {
    assert StartsWith(HomePath, "/");
  }

  /** Every resolved path of an absolute current path is absolute. */
  lemma CdKeepsAbsolute(current: string, target: string)
    requires StartsWith(current, "/")
    ensures StartsWith(ResolveCd(current, target), "/")
  {
    var r := ResolveCd(current, target);
    if !StartsWith(target, "/") && target != ".." && current != "/" {
      assert r[..1] == current[..1];
    }
  }

  /** A path made of segments: `/` followed by the segments joined by `/`. */
  function PathOf(segments: seq<string>): string {
    "/" + Join(segments, "/")
  }

  predicate Segment(s: string) {
    s != [] && '/' !in s
  }

  lemma {:induction false} JoinAppend(parts: seq<string>, x: string, sep: string)
    requires parts != []
    ensures Join(parts + [x], sep) == Join(parts, sep) + sep + x
  {
    if |parts| > 1 {
      assert (parts + [x])[1..] == parts[1..] + [x];
      JoinAppend(parts[1..], x, sep);
    }
  }

  lemma {:induction false} NonEmptyOfSegments(parts: seq<string>)
    requires forall k :: 0 <= k < |parts| ==> parts[k] != []
    ensures NonEmpty([[]] + parts) == parts
  {
    assert ([[]] + parts)[1..] == parts;
    NonEmptyKeeps(parts);
  }

  lemma {:induction false} NonEmptyKeeps(parts: seq<string>)
    requires forall k :: 0 <= k < |parts| ==> parts[k] != []
    ensures NonEmpty(parts) == parts
  {
    if parts != [] {
      NonEmptyKeeps(parts[1..]);
    }
  }

  /** The segments of a path made of segments. */
  lemma PathSegments(segments: seq<string>)
    requires forall k :: 0 <= k < |segments| ==> Segment(segments[k])
    ensures NonEmpty(Split(PathOf(segments), '/')) == segments
  {
    var parts := [[]] + segments;
    assert forall k :: 0 <= k < |parts| ==> '/' !in parts[k] by {
      forall k | 0 <= k < |parts| ensures '/' !in parts[k] {
        if k > 0 { assert parts[k] == segments[k - 1]; }
      }
    }
    if segments == [] {
      assert PathOf(segments) == "/";
      assert Split("/", '/') == [[], []];
    } else {
      assert Join(parts, "/") == [] + "/" + Join(segments, "/");
      assert PathOf(segments) == Join(parts, ['/']);
      SplitJoin(parts, '/');
      NonEmptyOfSegments(segments);
    }
  }

  /** `cd ..` drops the last segment, and at the root stays at the root. */
  lemma CdParent(segments: seq<string>)
    requires forall k :: 0 <= k < |segments| ==> Segment(segments[k])
    ensures ResolveCd(PathOf(segments), "..") == PathOf(DropLast(segments))
  {
    PathSegments(segments);
  }

  /** Going into a directory by name and back up returns to the same path. */
  lemma CdIntoAndBack(segments: seq<string>, name: string)
    requires forall k :: 0 <= k < |segments| ==> Segment(segments[k])
    requires Segment(name) && name != ".."
    ensures ResolveCd(ResolveCd(PathOf(segments), name), "..") == PathOf(segments)
  {
    var inner := ResolveCd(PathOf(segments), name);
    assert !StartsWith(name, "/") by { assert name[0] != '/'; }
    if segments == [] {
      assert inner == PathOf([name]);
    } else {
      assert PathOf(segments) != "/";
      JoinAppend(segments, name, "/");
      assert inner == PathOf(segments + [name]);
    }
    var longer := segments + [name];
    assert forall k :: 0 <= k < |longer| ==> Segment(longer[k]) by {
      forall k | 0 <= k < |longer| ensures Segment(longer[k]) {
        if k < |segments| { assert longer[k] == segments[k]; }
      }
    }
    CdParent(longer);
    assert DropLast(longer) == segments;
  }

  // ---------------------------------------------------------------------------
  // Showing the route's answer

  /** What `fetch` and `response.json()` deliver. */
  datatype CommandReply = ReplyThrows(error: Thrown) | Replied(result: Json)

  /** A line with something other than whitespace on it. */
  predicate NotBlank(line: string) {
    Trim(line) != []
  }

  /** The non-blank lines of an output stream, in order. */
  function NonBlankLines(s: string): seq<string> {
    Filter(Split(s, '\n'), NotBlank)
  }

  /** Standard-error lines and errors are shown in red. */
  function Red(line: string): string {
    "\U{1B}[31m" + line + "\U{1B}[0m"
  }

  function RedLines(lines: seq<string>): (r: seq<string>)
    ensures |r| == |lines| && forall i :: 0 <= i < |lines| ==> r[i] == Red(lines[i])
  {
    if lines == [] then [] else [Red(lines[0])] + RedLines(lines[1..])
  }

  /** `result.<stream>.split('\n')` on a truthy stream value: only a string has a `split`. */
  function StreamLines(v: Option<Json>, stream: string): Result<seq<string>, Thrown> {
    if !TruthyOpt(v) then Success([])
    else if v.value.JStr? then Success(NonBlankLines(v.value.s))
    else Failure(ErrorObject("result." + stream + ".split is not a function"))
  }

  /** The lines written for a reply; `thrownText` is `${error}` of a thrown value, which depends on
      the error's class. */
  function RenderReply(reply: CommandReply, thrownText: Thrown -> string): seq<string> {
    match reply
    case ReplyThrows(e) => [Red("Failed to execute command: " + thrownText(e))]
    case Replied(result) =>
      match Get(result, "stdout")
      case Failure(e) => [Red("Failed to execute command: " + thrownText(e))]
      case Success(out) =>
        match StreamLines(out, "stdout")
        case Failure(e) => [Red("Failed to execute command: " + thrownText(e))]
        case Success(outLines) =>
          match StreamLines(Get(result, "stderr").value, "stderr")
          case Failure(e) => outLines + [Red("Failed to execute command: " + thrownText(e))]
          case Success(errLines) =>
            var error := Get(result, "error").value;
            outLines + RedLines(errLines) + (if TruthyOpt(error) then [Red("Error: " + JsString(error.value))] else [])
  }

  /** The lines kept from a stream are its non-blank lines, each once per occurrence, in order. */
  lemma NonBlankLinesExact(s: string)
    ensures var r := NonBlankLines(s);
      (forall i :: 0 <= i < |r| ==> r[i] in Split(s, '\n') && !AllWhitespace(r[i]) && '\n' !in r[i])
      && (forall i :: 0 <= i < |Split(s, '\n')| && !AllWhitespace(Split(s, '\n')[i]) ==> Split(s, '\n')[i] in r)
      && IsSubsequence(r, Split(s, '\n'))
  {
    var parts := Split(s, '\n');
    var r := NonBlankLines(s);
    forall i | 0 <= i < |r| ensures !AllWhitespace(r[i]) {
      assert NotBlank(r[i]);
      TrimEmptyIff(r[i]);
    }
    forall i | 0 <= i < |parts| && !AllWhitespace(parts[i]) ensures parts[i] in r {
      TrimEmptyIff(parts[i]);
      assert NotBlank(parts[i]);
    }
    FilterIsSubsequence(parts, NotBlank);
  }

  /** A string stream, empty or not, gives its non-blank lines. */
  lemma StreamOfString(s: string, stream: string)
    ensures StreamLines(Some(JStr(s)), stream) == Success(NonBlankLines(s))
  {
    if s == [] {
      assert Split(s, '\n') == [[]];
      assert !NotBlank([]);
      assert NonBlankLines(s) == [];
    }
  }

  /** A reply whose two streams split into lines and which carries no error shows those lines. */
  lemma RenderOfStreams(result: Json, outLines: seq<string>, errLines: seq<string>, thrownText: Thrown -> string)
    requires Get(result, "stdout").Success?
    requires StreamLines(Get(result, "stdout").value, "stdout") == Success(outLines)
    requires StreamLines(Get(result, "stderr").value, "stderr") == Success(errLines)
    requires !TruthyOpt(Get(result, "error").value)
    ensures RenderReply(Replied(result), thrownText) == outLines + RedLines(errLines)
  {
    assert outLines + RedLines(errLines) + [] == outLines + RedLines(errLines);
  }

  /** A completed run without error shows its standard output's non-blank lines and then its
      standard error's, in red. */
  lemma CompletedReplyShown(stdout: string, stderr: string, code: Json, thrownText: Thrown -> string)
    ensures var result := JObj(map["stdout" := JStr(stdout), "stderr" := JStr(stderr), "exitCode" := code]);
      RenderReply(Replied(result), thrownText) == NonBlankLines(stdout) + RedLines(NonBlankLines(stderr))
  {
    var result := JObj(map["stdout" := JStr(stdout), "stderr" := JStr(stderr), "exitCode" := code]);
    assert Get(result, "stdout") == Success(Some(JStr(stdout)));
    assert Get(result, "stderr") == Success(Some(JStr(stderr)));
    assert Get(result, "error") == Success(None);
    StreamOfString(stdout, "stdout");
    StreamOfString(stderr, "stderr");
    RenderOfStreams(result, NonBlankLines(stdout), NonBlankLines(stderr), thrownText);
  }

  /** A reply carrying only an error message shows that message as one red `Error:` line; a fetch
      that throws shows one red line naming the failure. */
  lemma ErrorReplyShown(message: string, e: Thrown, thrownText: Thrown -> string)
    requires message != []
    ensures RenderReply(Replied(JObj(map["error" := JStr(message)])), thrownText) == [Red("Error: " + message)]
    ensures RenderReply(ReplyThrows(e), thrownText) == [Red("Failed to execute command: " + thrownText(e))]
  {
    var result := JObj(map["error" := JStr(message)]);
    assert Get(result, "stdout") == Success(None);
    assert Get(result, "stderr") == Success(None);
    assert Get(result, "error") == Success(Some(JStr(message)));
  }
}
