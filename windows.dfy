/** The Windows-console driver, read_password_from_stdin for cfg(windows):
    it replaces the console input mode with line input plus processed input
    (so no echo) for one read_line, and re-applies the saved mode after a
    successful read. */
module Windows {
  import opened Io
  import opened Secret

  /** Console input mode flags (wincon.h). */
  const ENABLE_PROCESSED_INPUT: bv32 := 0x0001
  const ENABLE_LINE_INPUT: bv32 := 0x0002
  const ENABLE_ECHO_INPUT: bv32 := 0x0004

  /** The mode applied for the read: ENABLE_LINE_INPUT | ENABLE_PROCESSED_INPUT.
      It does not depend on the saved mode: echo is off, line editing and
      backspace work, and every other flag is cleared. */
  function PasswordMode(): (m: bv32)
    ensures m & ENABLE_ECHO_INPUT == 0
    ensures m & ENABLE_LINE_INPUT == ENABLE_LINE_INPUT
    ensures m & ENABLE_PROCESSED_INPUT == ENABLE_PROCESSED_INPUT
    ensures m & !(ENABLE_LINE_INPUT | ENABLE_PROCESSED_INPUT) == 0
  {
    ENABLE_LINE_INPUT | ENABLE_PROCESSED_INPUT
  }

  /** A console input handle's state as a value: its current input mode, the
      bytes still to be read from it, and the calls issued to it so far. */
  datatype ConsoleState = ConsoleState(mode: bv32, input: seq<byte>, trace: seq<DeviceCall>)

  /** The console input behind the standard input handle or behind CONIN$. */
  class Console {
    var mode: bv32
    var input: seq<byte>
    var trace: seq<DeviceCall>

    function State(): ConsoleState
      reads this
    {
      ConsoleState(mode, input, trace)
    }

    constructor (mode: bv32, input: seq<byte>)
      ensures State() == ConsoleState(mode, input, [])
    {
      this.mode, this.input, this.trace := mode, input, [];
    }

    /** GetConsoleMode; it fails, among other cases, on a handle that is not a console. */
    method GetConsoleMode(step: Step) returns (r: Result<bv32>)
      modifies this`trace
      ensures trace == old(trace) + [Query]
      ensures r == (if step.Succeeds? then Ok(mode) else Err(Error(GetMode, step.code)))
    {
      trace := trace + [Query];
      r := if step.Succeeds? then Ok(mode) else Err(Error(GetMode, step.code));
    }

    /** SetConsoleMode: a failed call leaves the mode as it was. */
    method SetConsoleMode(newMode: bv32, step: Step) returns (r: Result<()>)
      modifies this`mode, this`trace
      ensures trace == old(trace) + [Apply(newMode)]
      ensures mode == (if step.Succeeds? then newMode else old(mode))
      ensures r == (if step.Succeeds? then Ok(()) else Err(Error(SetMode, step.code)))
    {
      trace := trace + [Apply(newMode)];
      if step.Succeeds? {
        mode := newMode;
        r := Ok(());
      } else {
        r := Err(Error(SetMode, step.code));
      }
    }

    /** read_line on a BufReader over the handle. */
    method ReadLine(buf: SecretString, step: ReadStep) returns (r: Result<nat>)
      requires buf.Valid()
      modifies this`input, this`trace, buf, buf.bytes
      ensures buf.Valid() && buf.Contents() == old(buf.Contents()) + Received(old(input), step)
      ensures fresh(buf.bytes) || buf.bytes == old(buf.bytes)
      ensures input == Remaining(old(input), step)
      ensures trace == old(trace) + [ReadIn(mode)]
      ensures r.Err? <==> step.FailsAfter?
      ensures r.Err? ==> r.error == Error(Read, step.code)
    {
      trace := trace + [ReadIn(mode)];
      r, input := Secret.ReadLine(input, step, buf);
    }
  }

  /** The console behind GetStdHandle(STD_INPUT_HANDLE) and the one behind
      CreateFileA("CONIN$"); they may be the same. */
  datatype Consoles = Consoles(stdin: Console, conin: Console) {
    /** The console read_password_from_stdin(openTty) reads from. */
    function Select(openTty: bool): Console
    {
      if openTty then conin else stdin
    }
  }

  /** How each OS call of one read_password_from_stdin run turns out:
      getting the handle (INVALID_HANDLE_VALUE is a failure), GetConsoleMode,
      SetConsoleMode of the password mode, read_line, and SetConsoleMode of
      the saved mode. */
  datatype WindowsCalls = WindowsCalls(handle: Step, getMode: Step, setMode: Step, read: ReadStep, restore: Step)

  /** What read_password_from_stdin leaves behind on a console whose state
      was `con`. The contract gives the invariants of every exit path. */
  function WindowsRun(con: ConsoleState, calls: WindowsCalls): (run: Run<ConsoleState>)
    ensures con.trace <= run.device.trace
    // Success: the sanitised first line, with the saved mode back.
    ensures run.result.Ok? ==>
      run.result.value == run.secret == FixedNewline(FirstLine(con.input)) && run.device.mode == con.mode
    // The mode ends either as it was or as the password mode.
    ensures run.device.mode == con.mode || run.device.mode == PasswordMode()
    // The console is read only while the password mode is in force.
    ensures forall i | |con.trace| <= i < |run.device.trace| ::
      run.device.trace[i].ReadIn? ==> run.device.trace[i].mode == PasswordMode()
    // A read error comes with the secret erased and the password mode still applied.
    ensures run.result.Err? && run.result.error.origin == Read ==>
      Erased(run.secret) && run.device.mode == PasswordMode()
  {
    if calls.handle.Fails? then
      Run(Err(Error(Open, calls.handle.code)), [], con)
    else if calls.getMode.Fails? then
      Run(Err(Error(GetMode, calls.getMode.code)), [], con.(trace := con.trace + [Query]))
    else if calls.setMode.Fails? then
      Run(Err(Error(SetMode, calls.setMode.code)), [], con.(trace := con.trace + [Query] + [Apply(PasswordMode())]))
    else
      var got := Received(con.input, calls.read);
      var reading := con.(
        mode := PasswordMode(),
        input := Remaining(con.input, calls.read),
        trace := con.trace + [Query] + [Apply(PasswordMode())] + [ReadIn(PasswordMode())]);
      if calls.read.FailsAfter? then
        Run(Err(Error(Read, calls.read.code)), Zeroed(got), reading)
      else if calls.restore.Fails? then
        Run(Err(Error(SetMode, calls.restore.code)), got, reading.(trace := reading.trace + [Apply(con.mode)]))
      else
        Run(Ok(FixedNewline(got)), FixedNewline(got), reading.(mode := con.mode, trace := reading.trace + [Apply(con.mode)]))
  }

  /** read_password_from_stdin(openTty) for cfg(windows). */
  method ReadPasswordFromStdin(openTty: bool, env: Consoles, calls: WindowsCalls)
    returns (r: Result<seq<byte>>, password: SecretString)
    modifies env.Select(openTty)
    ensures fresh(password) && password.Valid()
    ensures var run := WindowsRun(old(env.Select(openTty).State()), calls);
      r == run.result && password.Contents() == run.secret && env.Select(openTty).State() == run.device
  {
    password := new SecretString();

    if calls.handle.Fails? {
      return Err(Error(Open, calls.handle.code)), password;
    }
    var handle := env.Select(openTty);
    ghost var con := handle.State();

    var mode := handle.GetConsoleMode(calls.getMode);
    if mode.Err? {
      return Err(mode.error), password;
    }

    var applied := handle.SetConsoleMode(PasswordMode(), calls.setMode);
    if applied.Err? {
      return Err(applied.error), password;
    }

    var input := handle.ReadLine(password, calls.read);
    assert password.Contents() == Received(con.input, calls.read);
    if input.Err? {
      ZeroMemory(password);
      return Err(input.error), password;
    }

    var reset := handle.SetConsoleMode(mode.value, calls.restore);
    if reset.Err? {
      return Err(reset.error), password;
    }

    FixesNewline(password);
    return Ok(password.Contents()), password;
  }

  // Exit paths of the driver.

  /** An invalid handle or a failed GetConsoleMode returns before any mode
      change and before any read. */
  lemma WindowsSetupFailureChangesNothing(con: ConsoleState, calls: WindowsCalls)
    requires calls.handle.Fails? || calls.getMode.Fails?
    ensures var run := WindowsRun(con, calls);
      run.result.Err? && run.secret == [] && run.device.mode == con.mode && run.device.input == con.input &&
      forall i | |con.trace| <= i < |run.device.trace| :: run.device.trace[i] == Query
  {
  }

  /** The saved mode is applied again only after a successful read: a read
      error returns at once, erasing the secret and leaving the console in
      the password mode, with no restore call. */
  lemma WindowsReadErrorSkipsRestore(con: ConsoleState, calls: WindowsCalls)
    requires calls.handle.Succeeds? && calls.getMode.Succeeds? && calls.setMode.Succeeds?
    requires calls.read.FailsAfter?
    ensures var run := WindowsRun(con, calls);
      run.result == Err(Error(Read, calls.read.code)) && run.secret == Zeroed(calls.read.partial) &&
      run.device.mode == PasswordMode() &&
      run.device.trace == con.trace + [Query, Apply(PasswordMode()), ReadIn(PasswordMode())]
  {
  }

  /** A failed restore after a good read returns its error without erasing:
      the secret stays in the buffer as read, and the console stays in the
      password mode. */
  lemma WindowsRestoreErrorKeepsSecret(con: ConsoleState, calls: WindowsCalls)
    requires calls.handle.Succeeds? && calls.getMode.Succeeds? && calls.setMode.Succeeds?
    requires calls.read.Delivers? && calls.restore.Fails?
    ensures var run := WindowsRun(con, calls);
      run.result == Err(Error(SetMode, calls.restore.code)) && run.secret == FirstLine(con.input) &&
      run.device.mode == PasswordMode()
  {
  }

  /** Everything succeeds: the sanitised line, and the last mode applied is
      the saved one. */
  lemma WindowsSuccessRestoresMode(con: ConsoleState, calls: WindowsCalls)
    requires calls.handle.Succeeds? && calls.getMode.Succeeds? && calls.setMode.Succeeds?
    requires calls.read.Delivers? && calls.restore.Succeeds?
    ensures var run := WindowsRun(con, calls);
      run.result == Ok(FixedNewline(FirstLine(con.input))) && run.device.mode == con.mode &&
      run.device.trace == con.trace + [Query, Apply(PasswordMode()), ReadIn(PasswordMode()), Apply(con.mode)]
  {
  }
}
