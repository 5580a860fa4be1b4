/** The library's entry points, for the cfg(unix) build: reading a password
    from a caller's buffered reader, from standard input, or from the
    terminal device after an optional prompt. */
module Rpassword {
  import opened Io
  import opened Secret
  import Unix

  /** A caller-supplied BufRead source whose unread bytes are `input`. */
  class BufReader {
    var input: seq<byte>

    constructor (input: seq<byte>)
      ensures this.input == input
    {
      this.input := input;
    }
  }

  /** What read_password_with_reader(Some(reader)) leaves behind, with the
      reader's unread bytes as the device state: the sanitised first line on
      success, or the read error with the partial bytes erased. */
  function ReaderRun(input: seq<byte>, step: ReadStep): (run: Run<seq<byte>>)
    ensures run.result.Ok? <==> step.Delivers?
    ensures run.result.Ok? ==>
      run.result.value == run.secret == FixedNewline(FirstLine(input)) && input == FirstLine(input) + run.device
    ensures run.result.Err? ==>
      run.result.error == Error(Read, step.code) && run.secret == Zeroed(step.partial) && run.device == input
  {
    var got := Received(input, step);
    if step.FailsAfter? then Run(Err(Error(Read, step.code)), Zeroed(got), Remaining(input, step))
    else Run(Ok(FixedNewline(got)), FixedNewline(got), Remaining(input, step))
  }

  /** read_password_with_reader: Some(reader) reads one line from the reader;
      None hands over to read_password_from_stdin(false). */
  method ReadPasswordWithReader(source: Option<BufReader>, step: ReadStep, env: Unix.Devices, calls: Unix.UnixCalls)
    returns (r: Result<seq<byte>>, password: SecretString)
    modifies if source.Some? then {source.value} else {}
    modifies if source.None? then {env.stdin} else {}
    ensures fresh(password) && password.Valid()
    ensures source.Some? ==>
      var run := ReaderRun(old(source.value.input), step);
      r == run.result && password.Contents() == run.secret && source.value.input == run.device
    ensures source.None? ==>
      var run := Unix.UnixRun(false, old(env.stdin.State()), calls);
      r == run.result && password.Contents() == run.secret && env.stdin.State() == run.device
  {
    match source
    case Some(reader) =>
      password := new SecretString();
      var input;
      input, reader.input := ReadLine(reader.input, step, password);
      assert password.Contents() == Received(old(reader.input), step);
      if input.Err? {
        ZeroMemory(password);
        r := Err(input.error);
      } else {
        FixesNewline(password);
        r := Ok(password.Contents());
      }
    case None =>
      r, password := Unix.ReadPasswordFromStdin(false, env, calls);
  }

  /** read_password: read_password_with_reader(None). */
  method ReadPassword(env: Unix.Devices, calls: Unix.UnixCalls)
    returns (r: Result<seq<byte>>, password: SecretString)
    modifies env.stdin
    ensures fresh(password) && password.Valid()
    ensures var run := Unix.UnixRun(false, old(env.stdin.State()), calls);
      r == run.result && password.Contents() == run.secret && env.stdin.State() == run.device
  {
    r, password := ReadPasswordWithReader(None, Delivers, env, calls);
  }

  /** read_password_from_tty: shows the prompt on the terminal when there is
      one (`display` is how writing and flushing it turns out), then reads
      from /dev/tty. */
  method ReadPasswordFromTty(prompt: Option<string>, display: Step, env: Unix.Devices, calls: Unix.UnixCalls)
    returns (r: Result<seq<byte>>, password: SecretString)
    modifies env.tty
    ensures fresh(password) && password.Valid()
    ensures prompt.Some? && display.Fails? ==>
      r == Err(Error(Prompt, display.code)) && password.Contents() == [] && unchanged(env.tty)
    ensures prompt.None? || display.Succeeds? ==>
      var run := Unix.UnixRun(true, old(env.tty.State()), calls);
      r == run.result && password.Contents() == run.secret && env.tty.State() == run.device
  {
    if prompt.Some? && display.Fails? {
      password := new SecretString();
      return Err(Error(Prompt, display.code)), password;
    }
    r, password := Unix.ReadPasswordFromStdin(true, env, calls);
  }

  // The library's test cases and edge cases, on the reader path.

  /** The bytes of an ASCII string. */
  function Ascii(s: string): (b: seq<byte>)
    requires forall i | 0 <= i < |s| :: s[i] as int < 128
    ensures |b| == |s| && forall i | 0 <= i < |s| :: b[i] as int == s[i] as int
  {
    seq(|s|, i requires 0 <= i < |s| => s[i] as int as byte)
  }

  lemma AsciiConcat(s: string, t: string)
    requires forall i | 0 <= i < |s| :: s[i] as int < 128
    requires forall i | 0 <= i < |t| :: t[i] as int < 128
    ensures Ascii(s + t) == Ascii(s) + Ascii(t)
  {
    var st := s + t;
    assert forall i | 0 <= i < |st| :: Ascii(st)[i] == (Ascii(s) + Ascii(t))[i];
  }

  /** The text of the library's mocked response, without a line ending. */
  lemma MockedText() returns (text: seq<byte>)
    ensures text == Ascii("A mocked response.") && LF !in text && !EndsIn(text, CR)
    ensures Ascii("A mocked response.\r\n") == text + [CR, LF]
    ensures Ascii("A mocked response.\n") == text + [LF]
  {
    text := Ascii("A mocked response.");
    assert "A mocked response.\r\n" == "A mocked response." + "\r\n";
    assert "A mocked response.\n" == "A mocked response." + "\n";
    AsciiConcat("A mocked response.", "\r\n");
    AsciiConcat("A mocked response.", "\n");
    assert '\n' !in "A mocked response.";
  }

  /** A line without '\n', ended by "\r\n" or by "\n", reads as the line. */
  lemma ReaderStripsTerminator(text: seq<byte>)
    requires LF !in text
    ensures ReaderRun(text + [CR, LF], Delivers).result == Ok(text)
    ensures !EndsIn(text, CR) ==> ReaderRun(text + [LF], Delivers).result == Ok(text)
  {
    assert text + [CR, LF] == text + [CR] + [LF] + [];
    FirstLineOfTerminated(text + [CR], []);
    assert text + [LF] == text + [LF] + [];
    FirstLineOfTerminated(text, []);
    FixedNewlineUndoesTerminator(text);
  }

  /** The bytes of "A mocked response.\r\n" and of "A mocked response.\n"
      both read as the bytes of "A mocked response.". */
  lemma MockedResponses(crlf: seq<byte>, lf: seq<byte>, response: seq<byte>)
    requires crlf == Ascii("A mocked response.\r\n") && lf == Ascii("A mocked response.\n")
    requires response == Ascii("A mocked response.")
    ensures ReaderRun(crlf, Delivers).result == Ok(response)
    ensures ReaderRun(lf, Delivers).result == Ok(response)
  {
    var text := MockedText();
    ReaderStripsTerminator(text);
  }

  /** Input that ends at once gives an empty password, not an error. */
  lemma EmptyInputReadsEmptyPassword()
    ensures ReaderRun([], Delivers) == Run(Ok([]), [], [])
  {
  }

  /** Only the first line is taken; whatever follows stays in the reader. */
  lemma ReaderTakesFirstLineOnly(line: seq<byte>, rest: seq<byte>)
    requires LF !in line
    ensures ReaderRun(line + [LF] + rest, Delivers) == Run(Ok(FixedNewline(line + [LF])), FixedNewline(line + [LF]), rest)
  {
    FirstLineOfTerminated(line, rest);
    assert (line + [LF] + rest)[|line| + 1..] == rest;
  }
}
