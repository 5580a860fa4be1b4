/** The POSIX driver, read_password_from_stdin for cfg(unix): it hides typed
    characters by clearing ECHO (and setting ECHONL) in the terminal's local
    mode flags around one read_line, and restores the saved flags after. */
module Unix {
  import opened Io
  import opened Secret

  /** ECHO and ECHONL bits of c_lflag (Linux termios values; tcflag_t is 32 bits). */
  const ECHO: bv32 := 0x8
  const ECHONL: bv32 := 0x40

  /** The mode applied for the read: `(c_lflag & !ECHO) | ECHONL`. Typed
      characters are not echoed, the newline of Enter still is, and every
      other flag stays as it was. */
  function NoEchoMode(lflag: bv32): (m: bv32)
    ensures m & ECHO == 0
    ensures m & ECHONL == ECHONL
    ensures m & !(ECHO | ECHONL) == lflag & !(ECHO | ECHONL)
  {
    (lflag & !ECHO) | ECHONL
  }

  /** A terminal device's state as a value: whether isatty holds of its
      descriptor, the c_lflag currently applied, the bytes still to be read
      from it, and the calls issued to it so far. */
  datatype TermState = TermState(isTty: bool, lflag: bv32, input: seq<byte>, trace: seq<DeviceCall>)

  /** A descriptor the driver reads from: /dev/tty or standard input. */
  class Terminal {
    const isTty: bool
    var lflag: bv32
    var input: seq<byte>
    var trace: seq<DeviceCall>

    function State(): TermState
      reads this
    {
      TermState(isTty, lflag, input, trace)
    }

    constructor (isTty: bool, lflag: bv32, input: seq<byte>)
      ensures State() == TermState(isTty, lflag, input, [])
    {
      this.isTty, this.lflag, this.input, this.trace := isTty, lflag, input, [];
    }

    /** tcgetattr: a successful call gives the applied mode, fully initialised. */
    method GetAttr(step: Step) returns (r: Result<bv32>)
      modifies this`trace
      ensures trace == old(trace) + [Query]
      ensures r == (if step.Succeeds? then Ok(lflag) else Err(Error(GetMode, step.code)))
    {
      trace := trace + [Query];
      r := if step.Succeeds? then Ok(lflag) else Err(Error(GetMode, step.code));
    }

    /** tcsetattr(fd, TCSANOW, ..): a failed call leaves the mode as it was. */
    method SetAttr(mode: bv32, step: Step) returns (r: Result<()>)
      modifies this`lflag, this`trace
      ensures trace == old(trace) + [Apply(mode)]
      ensures lflag == (if step.Succeeds? then mode else old(lflag))
      ensures r == (if step.Succeeds? then Ok(()) else Err(Error(SetMode, step.code)))
    {
      trace := trace + [Apply(mode)];
      if step.Succeeds? {
        lflag := mode;
        r := Ok(());
      } else {
        r := Err(Error(SetMode, step.code));
      }
    }

    /** read_line on the buffered tty file or on stdin. */
    method ReadLine(buf: SecretString, step: ReadStep) returns (r: Result<nat>)
      requires buf.Valid()
      modifies this`input, this`trace, buf, buf.bytes
      ensures buf.Valid() && buf.Contents() == old(buf.Contents()) + Received(old(input), step)
      ensures fresh(buf.bytes) || buf.bytes == old(buf.bytes)
      ensures input == Remaining(old(input), step)
      ensures trace == old(trace) + [ReadIn(lflag)]
      ensures r.Err? <==> step.FailsAfter?
      ensures r.Err? ==> r.error == Error(Read, step.code)
    {
      trace := trace + [ReadIn(lflag)];
      r, input := Secret.ReadLine(input, step, buf);
    }
  }

  /** The process's standard input and a descriptor for /dev/tty; they may
      be the same device. */
  datatype Devices = Devices(stdin: Terminal, tty: Terminal) {
    /** The descriptor read_password_from_stdin(openTty) reads from. */
    function Select(openTty: bool): Terminal
    {
      if openTty then tty else stdin
    }
  }

  /** How each OS call of one read_password_from_stdin run turns out:
      File::open("/dev/tty"), the two tcgetattr calls, tcsetattr of the
      no-echo mode, read_line, and tcsetattr of the saved mode. */
  datatype UnixCalls = UnixCalls(
    open: Step, getAttr: Step, getAttrOrig: Step, setAttr: Step, read: ReadStep, restore: Step)

  /** What the branch for a descriptor that is not a terminal leaves behind:
      one read_line with no mode change; a read error erases the secret. */
  function PipedRun(dev: TermState, read: ReadStep): (run: Run<TermState>)
    ensures run.device.isTty == dev.isTty && run.device.lflag == dev.lflag
    ensures run.device.trace == dev.trace + [ReadIn(dev.lflag)]
    ensures run.result.Ok? ==> run.result.value == run.secret == FixedNewline(FirstLine(dev.input))
    ensures run.result.Err? ==> run.result.error.origin == Read && Erased(run.secret)
  {
    var got := Received(dev.input, read);
    var after := dev.(input := Remaining(dev.input, read), trace := dev.trace + [ReadIn(dev.lflag)]);
    if read.FailsAfter? then Run(Err(Error(Read, read.code)), Zeroed(got), after)
    else Run(Ok(FixedNewline(got)), FixedNewline(got), after)
  }

  /** What the branch for a terminal leaves behind: two tcgetattr calls,
      tcsetattr of the no-echo mode, read_line, tcsetattr of the saved mode,
      with an early return after each failing call. */
  function EchoOffRun(dev: TermState, calls: UnixCalls): (run: Run<TermState>)
    ensures run.device.isTty == dev.isTty && dev.trace <= run.device.trace
    ensures run.result.Ok? ==>
      run.result.value == run.secret == FixedNewline(FirstLine(dev.input)) && run.device.lflag == dev.lflag
    ensures run.device.lflag == dev.lflag || (calls.restore.Fails? && run.device.lflag == NoEchoMode(dev.lflag))
    ensures forall i | |dev.trace| <= i < |run.device.trace| ::
      run.device.trace[i].ReadIn? ==> run.device.trace[i].mode == NoEchoMode(dev.lflag)
    ensures run.result.Err? && run.result.error.origin == Read ==> Erased(run.secret)
  {
    if calls.getAttr.Fails? then
      Run(Err(Error(GetMode, calls.getAttr.code)), [], dev.(trace := dev.trace + [Query]))
    else if calls.getAttrOrig.Fails? then
      Run(Err(Error(GetMode, calls.getAttrOrig.code)), [], dev.(trace := dev.trace + [Query] + [Query]))
    else
      var mode := NoEchoMode(dev.lflag);
      if calls.setAttr.Fails? then
        Run(Err(Error(SetMode, calls.setAttr.code)), [], dev.(trace := dev.trace + [Query] + [Query] + [Apply(mode)]))
      else
        var got := Received(dev.input, calls.read);
        var after := dev.(
          lflag := if calls.restore.Fails? then mode else dev.lflag,
          input := Remaining(dev.input, calls.read),
          trace := dev.trace + [Query] + [Query] + [Apply(mode)] + [ReadIn(mode)] + [Apply(dev.lflag)]);
        if calls.read.FailsAfter? then
          if calls.restore.Fails? then Run(Err(Error(SetMode, calls.restore.code)), got, after)
          else Run(Err(Error(Read, calls.read.code)), Zeroed(got), after)
        else if calls.restore.Fails? then Run(Err(Error(SetMode, calls.restore.code)), Zeroed(got), after)
        else Run(Ok(FixedNewline(got)), FixedNewline(got), after)
  }

  /** What read_password_from_stdin(openTty) leaves behind on a device whose
      state was `dev`. The contract gives the invariants of every exit path. */
  function UnixRun(openTty: bool, dev: TermState, calls: UnixCalls): (run: Run<TermState>)
    // The device is the same one; its trace only grows.
    ensures run.device.isTty == dev.isTty && dev.trace <= run.device.trace
    // Success: the sanitised first line, with the terminal back in its saved mode.
    ensures run.result.Ok? ==>
      run.result.value == run.secret == FixedNewline(FirstLine(dev.input)) && run.device.lflag == dev.lflag
    // A descriptor that is not a terminal gets no mode call, only reads.
    ensures !dev.isTty ==> run.device.lflag == dev.lflag
    ensures !dev.isTty ==> forall i | |dev.trace| <= i < |run.device.trace| :: run.device.trace[i].ReadIn?
    // The mode ends as it was, except after a failed restore, when it is the no-echo mode.
    ensures run.device.lflag == dev.lflag ||
      (dev.isTty && calls.restore.Fails? && run.device.lflag == NoEchoMode(dev.lflag))
    // A terminal is read only while the no-echo mode is in force.
    ensures dev.isTty ==> forall i | |dev.trace| <= i < |run.device.trace| ::
      run.device.trace[i].ReadIn? ==> run.device.trace[i].mode == NoEchoMode(dev.lflag)
    // A read error is returned only with the secret erased.
    ensures run.result.Err? && run.result.error.origin == Read ==> Erased(run.secret)
  {
    if openTty && calls.open.Fails? then Run(Err(Error(Open, calls.open.code)), [], dev)
    else if dev.isTty then EchoOffRun(dev, calls)
    else PipedRun(dev, calls.read)
  }

  /** read_password_from_stdin(openTty) for cfg(unix). */
  method ReadPasswordFromStdin(openTty: bool, env: Devices, calls: UnixCalls)
    returns (r: Result<seq<byte>>, password: SecretString)
    modifies env.Select(openTty)
    ensures fresh(password) && password.Valid()
    ensures var run := UnixRun(openTty, old(env.Select(openTty).State()), calls);
      r == run.result && password.Contents() == run.secret && env.Select(openTty).State() == run.device
  {
    password := new SecretString();
    if openTty && calls.open.Fails? {
      return Err(Error(Open, calls.open.code)), password;
    }
    var source := env.Select(openTty);
    ghost var dev := source.State();

    if source.isTty {
      var hidden := ReadWithEchoOff(source, password, calls);
      if hidden.Err? {
        return Err(hidden.error), password;
      }
    } else {
      var input := source.ReadLine(password, calls.read);
      if input.Err? {
        ZeroMemory(password);
        return Err(input.error), password;
      }
    }

    assert password.Contents() == FirstLine(dev.input);
    FixesNewline(password);
    return Ok(password.Contents()), password;
  }

  /** The terminal branch of read_password_from_stdin, up to the sanitiser:
      on success the buffer holds the raw line and the saved mode is back. */
  method ReadWithEchoOff(source: Terminal, password: SecretString, calls: UnixCalls)
    returns (r: Result<()>)
    requires source.isTty && password.Valid() && password.Contents() == []
    modifies source, password, password.bytes
    ensures password.Valid() && (fresh(password.bytes) || password.bytes == old(password.bytes))
    ensures source.State() == EchoOffRun(old(source.State()), calls).device
    ensures EchoOffRun(old(source.State()), calls).result.Ok? ==>
      r.Ok? && password.Contents() == FirstLine(old(source.input))
    ensures EchoOffRun(old(source.State()), calls).result.Err? ==>
      r == Err(EchoOffRun(old(source.State()), calls).result.error) &&
      password.Contents() == EchoOffRun(old(source.State()), calls).secret
  {
    var term := source.GetAttr(calls.getAttr);
    if term.Err? {
      return Err(term.error);
    }
    var termOrig := source.GetAttr(calls.getAttrOrig);
    if termOrig.Err? {
      return Err(termOrig.error);
    }

    var applied := source.SetAttr(NoEchoMode(term.value), calls.setAttr);
    if applied.Err? {
      return Err(applied.error);
    }

    var input := source.ReadLine(password, calls.read);
    if input.Err? {
      // The restore's own failure is returned before the buffer is erased.
      var reset := source.SetAttr(termOrig.value, calls.restore);
      if reset.Err? {
        return Err(reset.error);
      }
      ZeroMemory(password);
      return Err(input.error);
    }

    var reset := source.SetAttr(termOrig.value, calls.restore);
    if reset.Err? {
      ZeroMemory(password);
      return Err(reset.error);
    }
    return Ok(());
  }

  // Exit paths of the driver.

  /** Every call up to and including tcsetattr of the no-echo mode succeeds
      on a terminal. */
  predicate EchoOff(openTty: bool, dev: TermState, calls: UnixCalls)
  {
    (!openTty || calls.open.Succeeds?) && dev.isTty &&
    calls.getAttr.Succeeds? && calls.getAttrOrig.Succeeds? && calls.setAttr.Succeeds?
  }

  /** A failed open, tcgetattr or first tcsetattr returns before anything is
      read: the secret is empty, the input untouched, the mode unchanged. */
  lemma UnixSetupFailureReadsNothing(openTty: bool, dev: TermState, calls: UnixCalls)
    requires (openTty && calls.open.Fails?) ||
      ((!openTty || calls.open.Succeeds?) && dev.isTty &&
       (calls.getAttr.Fails? || calls.getAttrOrig.Fails? || calls.setAttr.Fails?))
    ensures var run := UnixRun(openTty, dev, calls);
      run.result.Err? && run.secret == [] &&
      run.device.lflag == dev.lflag && run.device.input == dev.input &&
      forall i | |dev.trace| <= i < |run.device.trace| :: !run.device.trace[i].ReadIn?
  {
  }

  /** Not a terminal: one read and nothing else; a read error erases the secret. */
  lemma UnixPipedReadOnly(openTty: bool, dev: TermState, calls: UnixCalls)
    requires (!openTty || calls.open.Succeeds?) && !dev.isTty
    ensures var run := UnixRun(openTty, dev, calls);
      run.device.trace == dev.trace + [ReadIn(dev.lflag)] &&
      (calls.read.FailsAfter? ==>
        run.result == Err(Error(Read, calls.read.code)) && run.secret == Zeroed(calls.read.partial))
  {
  }

  /** The mode applied before the read is the saved one with ECHO cleared and
      ECHONL set, and the read happens under it. */
  lemma UnixReadsWithEchoOff(openTty: bool, dev: TermState, calls: UnixCalls)
    requires EchoOff(openTty, dev, calls)
    ensures var run := UnixRun(openTty, dev, calls);
      run.device.trace[|dev.trace|..|dev.trace| + 4] ==
        [Query, Query, Apply(NoEchoMode(dev.lflag)), ReadIn(NoEchoMode(dev.lflag))]
  {
  }

  /** Everything succeeds: the sanitised line, and the last mode applied is
      the one captured first. */
  lemma UnixSuccessRestoresMode(openTty: bool, dev: TermState, calls: UnixCalls)
    requires EchoOff(openTty, dev, calls) && calls.read.Delivers? && calls.restore.Succeeds?
    ensures var run := UnixRun(openTty, dev, calls);
      run.result == Ok(FixedNewline(FirstLine(dev.input))) &&
      run.device.trace[|run.device.trace| - 1] == Apply(dev.lflag) && run.device.lflag == dev.lflag
  {
  }

  /** Read error, restore succeeds: the saved mode is back, the secret is
      erased, and the read error is returned. */
  lemma UnixReadErrorRestoresAndErases(openTty: bool, dev: TermState, calls: UnixCalls)
    requires EchoOff(openTty, dev, calls) && calls.read.FailsAfter? && calls.restore.Succeeds?
    ensures var run := UnixRun(openTty, dev, calls);
      run.result == Err(Error(Read, calls.read.code)) &&
      run.secret == Zeroed(calls.read.partial) && run.device.lflag == dev.lflag
  {
  }

  /** Read error, restore fails: the restore error is returned at once, so
      the partial secret is left as read, and the terminal stays without echo. */
  lemma UnixReadAndRestoreErrorKeepsSecret(openTty: bool, dev: TermState, calls: UnixCalls)
    requires EchoOff(openTty, dev, calls) && calls.read.FailsAfter? && calls.restore.Fails?
    ensures var run := UnixRun(openTty, dev, calls);
      run.result == Err(Error(SetMode, calls.restore.code)) &&
      run.secret == calls.read.partial && run.device.lflag == NoEchoMode(dev.lflag)
    ensures !Erased(calls.read.partial) ==> !Erased(UnixRun(openTty, dev, calls).secret)
  {
  }

  /** Good read, restore fails: the secret is erased and the restore error
      is returned; the terminal stays without echo. */
  lemma UnixRestoreErrorErases(openTty: bool, dev: TermState, calls: UnixCalls)
    requires EchoOff(openTty, dev, calls) && calls.read.Delivers? && calls.restore.Fails?
    ensures var run := UnixRun(openTty, dev, calls);
      run.result == Err(Error(SetMode, calls.restore.code)) &&
      run.secret == Zeroed(FirstLine(dev.input)) && run.device.lflag == NoEchoMode(dev.lflag)
  {
  }
}
