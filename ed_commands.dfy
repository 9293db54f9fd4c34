/**
 * Command dispatch (src/ed_commands.rs): `command_runner` looks only at the
 * command verb.  `q` quits, `w` saves and continues, `wq` saves and quits
 * only if the save succeeded, and every other verb, or none, is a no-op that
 * continues.  Save errors are passed back to the caller.
 */
module EdCommands {
  import opened Wrappers
  import CS = CommandStructs
  import opened LineArrayBuffer

  datatype REPLStatus = Continue | Quit

  /** The buffer after a command, what the command returns, and the file it wrote, if any. */
  datatype Step = Step(after: BufferView, result: Result<REPLStatus, IoError>, written: Option<SavedFile>)

  /** A save followed by `status` on success, or by the save's error. */
  function AfterSave(s: SaveStep, status: REPLStatus): Step
  {
    match s.result
    case Ok(file) => Step(s.after, Ok(status), Some(file))
    case Err(e) => Step(s.after, Err(e), None)
  }

  /** What `command_runner` does to a buffer `v` when given `command`. */
  function Run(v: BufferView, command: CS.EdCommand, createSucceeds: bool): Step
  {
    if command.command == Some("q") then Step(v, Ok(REPLStatus.Quit), None)
    else if command.command == Some("w") then
      AfterSave(SaveOutcome(v, command.commandArgs, createSucceeds), Continue)
    else if command.command == Some("wq") then
      AfterSave(SaveOutcome(v, command.commandArgs, createSucceeds), REPLStatus.Quit)
    else Step(v, Ok(Continue), None)
  }

  /** `quit`: nothing to clean up; signals the REPL to stop. */
  method QuitCommand(buffer: LineBuffer, command: CS.EdCommand) returns (r: Result<REPLStatus, IoError>)
    ensures r == Ok(REPLStatus.Quit)
  {
    r := Ok(REPLStatus.Quit);
  }

  /** `write`: saves to the command's argument or the remembered file name, then continues. */
  method Write(buffer: LineBuffer, command: CS.EdCommand, createSucceeds: bool)
    returns (r: Result<REPLStatus, IoError>, written: Option<SavedFile>)
    modifies buffer`filename
    ensures Step(buffer.View(), r, written) ==
      AfterSave(SaveOutcome(old(buffer.View()), command.commandArgs, createSucceeds), Continue)
  {
    var saved := buffer.Save(command.commandArgs, createSucceeds);
    match saved {
      case Ok(file) =>
        r, written := Ok(Continue), Some(file);
      case Err(e) =>
        r, written := Err(e), None;
    }
  }

  /** `write_quit`: as `write`, but quits when the save succeeded. */
  method WriteQuit(buffer: LineBuffer, command: CS.EdCommand, createSucceeds: bool)
    returns (r: Result<REPLStatus, IoError>, written: Option<SavedFile>)
    modifies buffer`filename
    ensures Step(buffer.View(), r, written) ==
      AfterSave(SaveOutcome(old(buffer.View()), command.commandArgs, createSucceeds), REPLStatus.Quit)
  {
    var saved := buffer.Save(command.commandArgs, createSucceeds);
    match saved {
      case Ok(file) =>
        r, written := Ok(REPLStatus.Quit), Some(file);
      case Err(e) =>
        r, written := Err(e), None;
    }
  }

  /** `command_runner`. */
  method CommandRunner(buffer: LineBuffer, command: CS.EdCommand, createSucceeds: bool)
    returns (r: Result<REPLStatus, IoError>, written: Option<SavedFile>)
    modifies buffer`filename
    ensures Step(buffer.View(), r, written) == Run(old(buffer.View()), command, createSucceeds)
  {
    if command.command == Some("q") {
      r := QuitCommand(buffer, command);
      written := None;
    } else if command.command == Some("w") {
      r, written := Write(buffer, command, createSucceeds);
    } else if command.command == Some("wq") {
      r, written := WriteQuit(buffer, command, createSucceeds);
    } else {
      r, written := Ok(Continue), None;
    }
  }

  // ---------------------------------------------------------------------------
  // Properties of the dispatch.

  /** `q` quits and leaves the buffer as it was. */
  lemma QuitLeavesBuffer(v: BufferView, command: CS.EdCommand, createSucceeds: bool)
    requires command.command == Some("q")
    ensures Run(v, command, createSucceeds) == Step(v, Ok(REPLStatus.Quit), None)
  {
  }

  /** A missing or unrecognised verb continues and leaves the buffer as it was. */
  lemma OtherVerbsContinue(v: BufferView, command: CS.EdCommand, createSucceeds: bool)
    requires command.command !in {Some("q"), Some("w"), Some("wq")}
    ensures Run(v, command, createSucceeds) == Step(v, Ok(Continue), None)
  {
  }

  /**
   * `w` and `wq` write the serialised lines to the argument, else to the
   * remembered name; they succeed exactly when there is such a target and
   * it can be created, and otherwise return the save's error.  On success
   * `w` continues and `wq` quits.
   */
  lemma WriteSaves(v: BufferView, command: CS.EdCommand, createSucceeds: bool)
    requires command.command in {Some("w"), Some("wq")}
    ensures var step := Run(v, command, createSucceeds);
      var target := SaveTarget(command.commandArgs, v.filename);
      && step.after == v.(filename := target)
      && (step.result.Ok? <==> target.Some? && createSucceeds)
      && (step.result.Ok? ==>
            step.written == Some(SavedFile(target.value, Serialise(v.lines)))
            && step.result.value == (if command.command == Some("w") then Continue else REPLStatus.Quit))
      && (step.result.Err? ==>
            step.written == None
            && SaveOutcome(v, command.commandArgs, createSucceeds).result == Err(step.result.error))
  {
  }

  /** `wq` quits only when the save succeeds. */
  lemma WriteQuitNeedsSave(v: BufferView, command: CS.EdCommand, createSucceeds: bool)
    requires command.command == Some("wq")
    ensures Run(v, command, createSucceeds).result == Ok(REPLStatus.Quit) <==>
      SaveOutcome(v, command.commandArgs, createSucceeds).result.Ok?
  {
  }

  /** `w` with no argument and no remembered file name fails with `InvalidInput`. */
  lemma WriteWithoutFilename(v: BufferView, command: CS.EdCommand, createSucceeds: bool)
    requires command.command in {Some("w"), Some("wq")}
    requires command.commandArgs.None? && v.filename.None?
    ensures Run(v, command, createSucceeds) == Step(v, Err(InvalidInput("No filename provided")), None)
  {
  }

  /** Dispatch never looks at the addresses or the range separator. */
  lemma RunIgnoresRange(v: BufferView, c1: CS.EdCommand, c2: CS.EdCommand, createSucceeds: bool)
    requires c1.command == c2.command && c1.commandArgs == c2.commandArgs
    ensures Run(v, c1, createSucceeds) == Run(v, c2, createSucceeds)
  {
  }

  /** No command changes the lines or the cursor; only `w`/`wq` with an argument change the file name. */
  lemma RunKeepsLines(v: BufferView, command: CS.EdCommand, createSucceeds: bool)
    ensures Run(v, command, createSucceeds).after.lines == v.lines
    ensures Run(v, command, createSucceeds).after.currentLine == v.currentLine
    ensures Run(v, command, createSucceeds).after.filename ==
      if command.command in {Some("w"), Some("wq")} && command.commandArgs.Some? then command.commandArgs
      else v.filename
  {
  }

  /**
   * `EdCommand::default()` addresses the current line with a comma and has no
   * verb and no argument; run as it is, it changes nothing and continues.
   */
  lemma DefaultCommandIsNoOp(v: BufferView, createSucceeds: bool)
    ensures CS.Default().address1 == CS.Current && CS.Default().address2 == CS.Current
    ensures CS.Default().rangeSep == CS.Comma
    ensures CS.Default().command == None && CS.Default().commandArgs == None
    ensures Run(v, CS.Default(), createSucceeds) == Step(v, Ok(Continue), None)
  {
  }

  // ---------------------------------------------------------------------------
  // The module's own tests, replayed on the model; the file system accepts `/tmp/foo.txt`.

  method QuitReturnsQuitSignal() returns (r: Result<REPLStatus, IoError>)
    ensures r == Ok(REPLStatus.Quit)
  {
    var buffer := new LineBuffer.Empty();
    var written;
    r, written := CommandRunner(buffer, CS.Default().(command := Some("q")), true);
  }

  method WriteReturnsContinueSignal() returns (first: Result<REPLStatus, IoError>, second: Result<REPLStatus, IoError>)
    ensures first == second == Ok(Continue)
  {
    var buffer := new LineBuffer.Empty();
    buffer.filename := Some("/tmp/foo.txt");
    var command := CS.Default().(command := Some("w"));
    var written;
    first, written := CommandRunner(buffer, command, true);
    second, written := CommandRunner(buffer, command, true);
  }

  method WriteWithNoFilename() returns (r: Result<REPLStatus, IoError>)
    ensures r == Err(InvalidInput("No filename provided"))
  {
    var buffer := new LineBuffer.Empty();
    var written;
    r, written := CommandRunner(buffer, CS.Default().(command := Some("w")), true);
  }

  method WriteQuitReturnsQuit() returns (r: Result<REPLStatus, IoError>, written: Option<SavedFile>)
    ensures r == Ok(REPLStatus.Quit)
    ensures written == Some(SavedFile("/tmp/foo.txt", []))
  {
    var buffer := new LineBuffer.Empty();
    buffer.filename := Some("/tmp/foo.txt");
    r, written := CommandRunner(buffer, CS.Default().(command := Some("wq")), true);
  }
}
