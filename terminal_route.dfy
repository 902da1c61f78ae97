/** The command route src/app/api/terminal/route.ts: a request's command is checked (present, a
    string, free of the blocked fragments, at most 1000 characters once trimmed) and then run by a
    shell; the child's output events are accumulated with caps on both streams, and whichever of
    overflow, close, error and the 30-second timer comes first answers the request. The child
    process is an input: what it does is a sequence of events. */
module TerminalRoute {
  import opened Wrappers
  import opened Js

  /** `DANGEROUS_COMMANDS`. */
  const DangerousCommands: seq<string> :=
    ["rm -rf /", "sudo rm", "rm -r /", "mkfs", "dd if=", ":(){ :|:& };:", "chmod -R 777 /", "chown -R"]

  const MaxCommandLength: nat := 1000
  const StdoutLimit: nat := 10000
  const StderrLimit: nat := 5000
  const StdoutNote: string := "\n... (output truncated)"
  const StderrNote: string := "\n... (error output truncated)"

  /** The route's answers. */
  datatype TerminalResponse =
    | InvalidCommand                                  // 400 `Invalid command`
    | Blocked                                         // 403 `Command blocked for security reasons`
    | TooLong                                         // 400 `Command too long`
    | RequestFailed                                   // 500 `Failed to parse request or execute command`
    | OutputTooLarge(stdout: string)                  // 200 `Output too large`
    | Completed(stdout: string, stderr: string, exitCode: int)
    | ExecutionError(message: string)                 // 500 `Execution error: …`
    | TimedOut                                        // 408 `Command timed out after 30 seconds`

  function Status(r: TerminalResponse): int {
    match r
    case InvalidCommand => 400
    case Blocked => 403
    case TooLong => 400
    case RequestFailed => 500
    case OutputTooLarge(_) => 200
    case Completed(_, _, _) => 200
    case ExecutionError(_) => 500
    case TimedOut => 408
  }

  /** The `exitCode` field, absent from the invalid-command answer. */
  function ExitCode(r: TerminalResponse): Option<int> {
    match r
    case InvalidCommand => None
    case Completed(_, _, code) => Some(code)
    case TimedOut => Some(124)
    case _ => Some(1)
  }

  // ---------------------------------------------------------------------------
  // Validation

  /** `fragments.some(f => command.includes(f))`. */
  function SomeIncluded(command: string, fragments: seq<string>): (b: bool)
    ensures b <==> exists k :: 0 <= k < |fragments| && Includes(command, fragments[k])
  {
    if fragments == [] then false
    else
      var rest := SomeIncluded(command, fragments[1..]);
      assert forall k :: 1 <= k < |fragments| ==> fragments[k] == fragments[1..][k - 1];
      Includes(command, fragments[0]) || rest
  }

  /** Either the answer given without running anything, or the trimmed command to run. */
  datatype Validation = Reject(response: TerminalResponse) | Spawn(command: string)

  /** Lines 17-37: `body` is what `request.json()` yields. */
  function Validate(body: Result<Json, Thrown>): Validation {
    if body.Failure? then Reject(RequestFailed)
    else match Get(body.value, "command")
      case Failure(_) => Reject(RequestFailed)
      case Success(command) =>
        if !TruthyOpt(command) || !command.value.JStr? then Reject(InvalidCommand)
        else CheckTrimmed(Trim(command.value.s))
  }

  /** Lines 25-37: the blocklist first, then the length limit, on the trimmed command. */
  function CheckTrimmed(clean: string): Validation {
    if SomeIncluded(clean, DangerousCommands) then Reject(Blocked)
    else if |clean| > MaxCommandLength then Reject(TooLong)
    else Spawn(clean)
  }

  /** For a string command: the empty string is invalid; a trimmed command holding a blocked
      fragment is refused with 403 whatever its length, since the blocklist is checked first; one
      that is clean but longer than 1000 characters is refused with 400; and only a clean command of
      at most 1000 characters is run, trimmed. */
  lemma ValidateStringCommand(s: string, rest: map<string, Json>)
    ensures var v := Validate(Success(JObj(rest["command" := JStr(s)])));
      var clean := Trim(s);
      var dangerous := SomeIncluded(clean, DangerousCommands);
      (s == [] ==> v == Reject(InvalidCommand))
      && (s != [] && dangerous ==> v == Reject(Blocked))
      && (s != [] && !dangerous && |clean| > MaxCommandLength ==> v == Reject(TooLong))
      && (v.Spawn? <==> s != [] && !dangerous && |clean| <= MaxCommandLength)
      && (v.Spawn? ==> v.command == clean)
  {
    var body := Success(JObj(rest["command" := JStr(s)]));
    assert Get(body.value, "command") == Success(Some(JStr(s)));
    if s == [] {
      assert Validate(body) == Reject(InvalidCommand);
    } else {
      assert Validate(body) == CheckTrimmed(Trim(s));
    }
  }

  /** A missing, falsy or non-string command is invalid, and an unreadable body fails with 500. */
  lemma ValidateNonString(rest: map<string, Json>, body: Result<Json, Thrown>)
    requires "command" !in rest || !rest["command"].JStr?
    ensures Validate(Success(JObj(rest))) == Reject(InvalidCommand)
    ensures body.Failure? || body == Success(JNull) ==> Validate(body) == Reject(RequestFailed)
  {
    assert Get(JObj(rest), "command") == Success(if "command" in rest then Some(rest["command"]) else None);
  }

  /** What reaches the shell is trimmed, contains no blocked fragment and fits the length limit. */
  lemma SpawnedCommandIsChecked(body: Result<Json, Thrown>)
    requires Validate(body).Spawn?
    ensures var c := Validate(body).command;
      Trim(c) == c && |c| <= MaxCommandLength
      && forall k :: 0 <= k < |DangerousCommands| ==> !Includes(c, DangerousCommands[k])
  {
    TrimIdempotent(body.value.fields["command"].s);
  }

  // ---------------------------------------------------------------------------
  // The child's events

  datatype Signal = SIGTERM | SIGKILL

  /** What the child and the timer do: a chunk on either stream, `close` with its code (`None`
      for `null`), `error` with its message, or the 30-second timer firing. */
  datatype Event = StdoutData(chunk: string) | StderrData(chunk: string) | Close(code: Option<int>) | ProcessError(message: string) | Timer

  /** The closure's variables, the answer given and the signals sent to the child. */
  datatype RunState = RunState(stdout: string, stderr: string, isResolved: bool, response: Option<TerminalResponse>, kills: seq<Signal>)

  const Started: RunState := RunState([], [], false, None, [])

  /** `code || 0`. */
  function ExitOr0(code: Option<int>): int {
    if code.None? || code.value == 0 then 0 else code.value
  }

  /** One callback. */
  function Step(s: RunState, e: Event): RunState {
    match e
    case StdoutData(d) =>
      var out := s.stdout + d;
      if |out| > StdoutLimit then
        if !s.isResolved then
          s.(stdout := out, kills := s.kills + [SIGTERM], isResolved := true,
             response := Some(OutputTooLarge(out[..StdoutLimit] + StdoutNote)))
        else s.(stdout := out, kills := s.kills + [SIGTERM])
      else s.(stdout := out)
    case StderrData(d) =>
      var err := s.stderr + d;
      s.(stderr := if |err| > StderrLimit then err[..StderrLimit] + StderrNote else err)
    case Close(code) =>
      if !s.isResolved then s.(isResolved := true, response := Some(Completed(s.stdout, s.stderr, ExitOr0(code))))
      else s
    case ProcessError(m) =>
      if !s.isResolved then s.(isResolved := true, response := Some(ExecutionError("Execution error: " + m)))
      else s
    case Timer =>
      if !s.isResolved then s.(kills := s.kills + [SIGKILL], isResolved := true, response := Some(TimedOut))
      else s
  }

  /** The state after a sequence of events, from the start. */
  function Run(events: seq<Event>): RunState {
    if events == [] then Started else Step(Run(events[..|events| - 1]), events[|events| - 1])
  }

  /** The route's answer: the validation's, or the first resolving event's (`None`: none came). */
  function Post(body: Result<Json, Thrown>, child: string -> seq<Event>): Option<TerminalResponse> {
    match Validate(body)
    case Reject(r) => Some(r)
    case Spawn(command) => Run(child(command)).response
  }

  /** The flag is set exactly when an answer has been given. */
  predicate Valid(s: RunState) {
    s.isResolved <==> s.response.Some?
  }

  /** Once resolved, no event changes the answer. */
  lemma StepKeepsResponse(s: RunState, e: Event)
    requires Valid(s)
    ensures Valid(Step(s, e))
    ensures s.isResolved ==> Step(s, e).response == s.response
    ensures !s.isResolved && Step(s, e).isResolved ==> e.Close? || e.ProcessError? || e.Timer? || (e.StdoutData? && |s.stdout + e.chunk| > StdoutLimit)
  {
  }

  /** The answer given after any prefix of the events is the answer at the end: at most one
      response is ever resolved. */
  lemma {:induction false} FirstResponseStands(events: seq<Event>, i: nat)
    requires i <= |events|
    ensures Valid(Run(events))
    ensures Run(events[..i]).isResolved ==> Run(events).response == Run(events[..i]).response
    decreases |events|
  {
    if events != [] {
      var front := events[..|events| - 1];
      FirstResponseStands(front, if i < |events| then i else |front|);
      StepKeepsResponse(Run(front), events[|events| - 1]);
      assert Run(events) == Step(Run(front), events[|events| - 1]);
      if i < |events| {
        assert front[..i] == events[..i];
        FirstResponseStands(events[..i], 0);
      } else {
        assert events[..i] == events;
      }
    }
  }

  /** A close, an error or the timer anywhere in a run means the run has been answered. */
  lemma {:induction false} ResolvingEventAnswers(events: seq<Event>, i: nat)
    requires i < |events| && (events[i].Close? || events[i].ProcessError? || events[i].Timer?)
    ensures Run(events).response.Some?
  {
    var upTo := events[..i + 1];
    var before := Run(events[..i]);
    assert upTo[..i] == events[..i];
    assert Run(upTo) == Step(before, events[i]);
    FirstResponseStands(events[..i], 0);
    StepKeepsResponse(before, events[i]);
    assert Run(upTo).isResolved;
    FirstResponseStands(events, i + 1);
  }

  /** The route leaves a request unanswered only when it spawned the command and the child never
      closed, failed or timed out; a refused request is answered without running anything. */
  lemma PostAnswers(body: Result<Json, Thrown>, child: string -> seq<Event>)
    ensures Validate(body).Reject? ==> Post(body, child) == Some(Validate(body).response)
    ensures Post(body, child).None? ==>
      && Validate(body).Spawn?
      && forall i :: 0 <= i < |child(Validate(body).command)| ==>
        !(child(Validate(body).command)[i].Close? || child(Validate(body).command)[i].ProcessError? || child(Validate(body).command)[i].Timer?)
  {
    if Validate(body).Spawn? {
      var events := child(Validate(body).command);
      forall i | 0 <= i < |events| && (events[i].Close? || events[i].ProcessError? || events[i].Timer?)
        ensures Post(body, child).Some?
      {
        ResolvingEventAnswers(events, i);
      }
    }
  }

  /** Everything the child wrote on a stream, in order. */
  function AllStdout(events: seq<Event>): string {
    if events == [] then []
    else AllStdout(events[..|events| - 1]) + (if events[|events| - 1].StdoutData? then events[|events| - 1].chunk else [])
  }

  function AllStderr(events: seq<Event>): string {
    if events == [] then []
    else AllStderr(events[..|events| - 1]) + (if events[|events| - 1].StderrData? then events[|events| - 1].chunk else [])
  }

  /** The capped standard error: all of it while it fits in 5000 characters, and otherwise its
      first 5000 characters followed by the note. */
  function CapStderr(all: string): (r: string)
    ensures |r| <= StderrLimit + |StderrNote|
    ensures Prefix(all, StderrLimit) <= r
  {
    if |all| <= StderrLimit then all else all[..StderrLimit] + StderrNote
  }

  /** One callback appends a stdout chunk as it is, and a stderr chunk followed by the cap. */
  lemma StepStreams(s: RunState, e: Event)
    ensures Step(s, e).stdout == s.stdout + (if e.StdoutData? then e.chunk else [])
    ensures Step(s, e).stderr == if e.StderrData? then CapStderr(s.stderr + e.chunk) else s.stderr
  {
  }

  /** Capping the text already kept and then appending a chunk and capping again is capping
      the whole text once: a cut text stays cut at the same place. */
  lemma CapStderrAppend(before: string, chunk: string)
    ensures CapStderr(CapStderr(before) + chunk) == CapStderr(before + chunk)
  {
    if |before| > StderrLimit {
      var cut := before[..StderrLimit] + StderrNote + chunk;
      assert cut[..StderrLimit] == (before + chunk)[..StderrLimit];
    }
  }

  /** stdout keeps every chunk, even after an overflow; stderr is always the capped text of
      everything written to it: once cut, each later chunk is appended and cut away again. */
  lemma {:induction false} StreamsAccumulate(events: seq<Event>)
    ensures Run(events).stdout == AllStdout(events)
    ensures Run(events).stderr == CapStderr(AllStderr(events))
  {
    if events != [] {
      var front := events[..|events| - 1];
      var e := events[|events| - 1];
      StreamsAccumulate(front);
      assert Run(events) == Step(Run(front), e);
      StepStreams(Run(front), e);
      if e.StderrData? {
        CapStderrAppend(AllStderr(front), e.chunk);
      }
    }
  }

  /** An overflow answer carries the first 10000 characters of standard output followed by the
      note, and the child has been sent SIGTERM. */
  lemma {:induction false} OverflowAnswer(events: seq<Event>)
    ensures var s := Run(events);
      s.response.Some? && s.response.value.OutputTooLarge? ==>
        |s.stdout| > StdoutLimit && s.response.value.stdout == s.stdout[..StdoutLimit] + StdoutNote
        && SIGTERM in s.kills
  {
    if events != [] {
      var front := events[..|events| - 1];
      OverflowAnswer(front);
      var s := Run(front);
      var e := events[|events| - 1];
      if e.StdoutData? && |s.stdout| > StdoutLimit {
        assert (s.stdout + e.chunk)[..StdoutLimit] == s.stdout[..StdoutLimit];
      }
    }
  }

  /** Close, error and timer answers: close reports both streams and `code || 0`; an error reports
      500 with the message; the timer sends SIGKILL and answers 408 with exit code 124. Once the
      request is answered, none of the three changes anything. */
  lemma ResolvingEvents(s: RunState, code: Option<int>, message: string)
    ensures !s.isResolved ==>
      Step(s, Close(code)).response == Some(Completed(s.stdout, s.stderr, ExitOr0(code)))
      && Step(s, ProcessError(message)).response == Some(ExecutionError("Execution error: " + message))
      && Step(s, Timer).response == Some(TimedOut) && Step(s, Timer).kills == s.kills + [SIGKILL]
      && Status(TimedOut) == 408 && ExitCode(TimedOut) == Some(124)
    ensures s.isResolved ==> Step(s, Close(code)) == s && Step(s, ProcessError(message)) == s && Step(s, Timer) == s
    ensures ExitOr0(code) == 0 <==> code.None? || code.value == 0
  {
  }

  /** The callbacks' shared variables. */
  class CommandRun {
    var stdout: string
    var stderr: string
    var isResolved: bool
    var response: Option<TerminalResponse>
    var kills: seq<Signal>

    function State(): RunState
      reads this
    {
      RunState(stdout, stderr, isResolved, response, kills)
    }

    constructor ()
      ensures State() == Started
    {
      stdout, stderr, isResolved, response, kills := [], [], false, None, [];
    }

    /** `child.stdout.on('data')`. */
    method OnStdoutData(data: string)
      modifies this
      ensures State() == Step(old(State()), StdoutData(data))
    {
      stdout := stdout + data;
      if |stdout| > StdoutLimit {
        kills := kills + [SIGTERM];
        if !isResolved {
          isResolved := true;
          response := Some(OutputTooLarge(stdout[..StdoutLimit] + StdoutNote));
        }
      }
    }

    /** `child.stderr.on('data')`. */
    method OnStderrData(data: string)
      modifies this
      ensures State() == Step(old(State()), StderrData(data))
    {
      stderr := stderr + data;
      if |stderr| > StderrLimit {
        stderr := stderr[..StderrLimit] + StderrNote;
      }
    }

    /** `child.on('close')`. */
    method OnClose(code: Option<int>)
      modifies this
      ensures State() == Step(old(State()), Close(code))
    {
      if !isResolved {
        isResolved := true;
        response := Some(Completed(stdout, stderr, ExitOr0(code)));
      }
    }

    /** `child.on('error')`. */
    method OnError(message: string)
      modifies this
      ensures State() == Step(old(State()), ProcessError(message))
    {
      if !isResolved {
        isResolved := true;
        response := Some(ExecutionError("Execution error: " + message));
      }
    }

    /** The 30-second `setTimeout`. */
    method OnTimeout()
      modifies this
      ensures State() == Step(old(State()), Timer)
    {
      if !isResolved {
        kills := kills + [SIGKILL];
        isResolved := true;
        response := Some(TimedOut);
      }
    }
  }
}
