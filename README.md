# rpassword core, modelled in Dafny

rpassword reads a password line without echoing it. It reads from a caller's
buffered reader, from standard input, or from the controlling terminal. On
Unix it clears `ECHO` and sets `ECHONL` in the terminal's `c_lflag` around one
`read_line`, then restores the saved flags. On Windows it sets the console
input mode to `ENABLE_LINE_INPUT | ENABLE_PROCESSED_INPUT` for the read. The
line it returns has its trailing `"\n"` or `"\r\n"` removed. On error paths it
overwrites the partial secret with zero bytes.

The model has five modules, one file each:

- `io.dfy` (`Io`): the line-terminator bytes, `io::Result` and `io::Error`
  (the failing call and its OS code), and how an OS call turns out (`Step`,
  `ReadStep`). It also holds the trace of device calls (`DeviceCall`) and the
  record `Run` of what a read leaves behind.
- `secret.dfy` (`Secret`): the password `String` as its `Vec<u8>`. This is
  the class `SecretString`, with a heap array and a length. The module holds
  `zero_memory` (`ZeroMemory`, an in-place loop) and `fixes_newline`
  (`FixesNewline`, two `pop`s). Their pure specifications are `Zeroed` and
  `FixedNewline`. It also holds `BufRead::read_line` (`ReadLine`, specified by
  `LineLength` and `FirstLine`).
- `unix.dfy` (`Unix`): `unix::read_password_from_stdin` over a `Terminal`
  object. The object holds whether `isatty` holds, the current `c_lflag`, the
  unread input and the trace of calls issued to it. The method is proved
  against `UnixRun`, and `UnixRun`'s contract states the exit-path
  invariants.
- `windows.dfy` (`Windows`): `windows::read_password_from_stdin` over a
  `Console` object, proved against `WindowsRun` in the same way.
- `rpassword.dfy` (`Rpassword`): the entry points of the `cfg(unix)` build.
  These are `read_password_with_reader` (proved against `ReaderRun`),
  `read_password` and `read_password_from_tty`, plus the library's test
  cases.

Every OS call is a parameter. `UnixCalls` and `WindowsCalls` give one `Step`
per call the driver may issue (`Succeeds` or `Fails(code)`). `read_line` is a
`ReadStep`: `Delivers` (the next line of the input) or
`FailsAfter(code, partial)` (an error after appending arbitrary bytes). Each
contract quantifies over all of these, so it covers every way the OS can
behave.

## Behaviour of the code that differs from "always restore, always erase"

The model follows the code. Four exit paths do not erase the secret or do not
restore the mode:

- Unix, read error followed by a failed restore: the `?` at
  src/lib.rs:112 returns the restore error before `zero_memory`. The partial
  secret is left as read (`Unix.UnixReadAndRestoreErrorKeepsSecret`).
- Unix and Windows, failed restore: the terminal stays in the no-echo or
  password mode. The code has no second attempt.
- Windows, read error: the function returns without re-applying the saved
  mode (src/lib.rs:211-216, `Windows.WindowsReadErrorSkipsRestore`).
- Windows, failed restore after a good read: the error is returned without
  erasing the secret (src/lib.rs:220-221,
  `Windows.WindowsRestoreErrorKeepsSecret`).

Three more points follow the code:

- `read_password_with_reader(None)` calls `read_password_from_stdin(false)`.
  When standard input is a terminal, that call does turn echo off
  (`Rpassword.ReadPasswordWithReader` is tied to `Unix.UnixRun` with
  `openTty == false`).
- On Windows, a handle that is not a console makes `GetConsoleMode` fail.
  Piped input is then an error, not a plain read. The model covers this
  through the `getMode` step.
- `fixes_newline` is not idempotent in general (`"a\n\n"` becomes
  `"a\n"`). It is idempotent on what `read_line` delivers.

## Model

| member | source | states |
|---|---|---|
| `Secret.ZeroMemory` | src/lib.rs:20-26 | every byte of the current contents becomes 0; the length and the allocation are unchanged (no reallocation); spare capacity past the length is not touched |
| `Secret.Zeroed` | src/lib.rs:23-25 | the erased contents have the same length and every byte is 0 |
| `Secret.FixedNewline` | src/lib.rs:28-42 | the result is a prefix of the input and at most 2 bytes shorter; `"\r\n"` at the end loses both bytes; a `'\n'` not preceded by `'\r'` loses one byte; input not ending in `'\n'` is unchanged, even when it ends in a lone `'\r'` |
| `Secret.FixesNewline` | src/lib.rs:29-42 | in place, the String's contents become `FixedNewline` of the old contents; only the length changes |
| `Secret.SecretString.EndsWith` | src/lib.rs:33 | `ends_with` of an ASCII byte holds exactly when the contents are non-empty and end in it |
| `Secret.SecretString.Pop` | src/lib.rs:35-39 | `pop` removes the last byte and returns it; it returns `None` on an empty String; the allocation keeps the byte |
| `Secret.LineLength` | src/lib.rs:262 | `read_line` takes bytes up to and including the first `'\n'`, or all remaining bytes; it takes at least one byte of non-empty input |
| `Secret.FirstLine` | src/lib.rs:262 | the line read is a prefix of the input, holds `'\n'` at most as its last byte, and is the whole input or ends in `'\n'` |
| `Secret.ReadLine` | src/lib.rs:262 | success appends the first line and returns its length, leaving the rest unread; failure appends the partial bytes and returns a read error |
| `Secret.FixedNewlineUndoesTerminator` | src/lib.rs:33-40 | sanitising `line + "\r\n"` gives `line`; sanitising `line + "\n"` gives `line` when `line` does not end in `'\r'` |
| `Secret.FixedNewlineKeepsLoneCarriageReturn` | src/lib.rs:33 | a trailing `'\r'` without `'\n'` after it is kept |
| `Secret.FixedNewlineNotIdempotent` | src/lib.rs:29-42 | `"a\n\n"` sanitises to `"a\n"`, and that sanitises again to `"a"` |
| `Secret.SanitisedLineIsFinal` | src/lib.rs:262-266 | a sanitised `read_line` line holds no `'\n'`, so sanitising it again changes nothing |
| `Secret.FirstLineOfTerminated` | src/lib.rs:262 | input `body + "\n" + rest`, where `body` has no `'\n'`, reads exactly `body + "\n"` |
| `Secret.FirstLineOfUnterminated` | src/lib.rs:30-31 | input without `'\n'` (end of input, Ctrl-D, a pipe) is read whole |
| `Unix.NoEchoMode` | src/lib.rs:93-96 | the mode for the read has ECHO clear and ECHONL set, and every other bit of `c_lflag` unchanged |
| `Unix.Terminal.GetAttr` | src/lib.rs:89-90 | `tcgetattr` records a query and returns the current mode or a get-mode error |
| `Unix.Terminal.SetAttr` | src/lib.rs:99 | `tcsetattr` records the mode applied; on success the mode is the new one, on failure it is unchanged and a set-mode error is returned |
| `Unix.Terminal.ReadLine` | src/lib.rs:102-105 | `read_line` on the device records the mode in force and reads as `Secret.ReadLine` |
| `Unix.PipedRun` | src/lib.rs:127-142 | a non-terminal gets one read and no mode change; success gives the sanitised line; a read error gives an erased secret |
| `Unix.EchoOffRun` | src/lib.rs:83-126 | the terminal branch: the trace only grows; success gives the sanitised line with the mode restored; the mode ends saved or, after a failed restore, no-echo; reads happen only in the no-echo mode; a returned read error comes with an erased secret |
| `Unix.UnixRun` | src/lib.rs:64-147 | over every OS outcome: success gives the sanitised first line with the saved mode back; a non-terminal gets no mode call; the final mode is the saved one unless the restore failed; the terminal is read only with echo off; a returned read error comes with the secret erased |
| `Unix.ReadPasswordFromStdin` | src/lib.rs:64-147 | the result, the String's final contents and the device's new state are exactly `UnixRun` of the old device state |
| `Unix.ReadWithEchoOff` | src/lib.rs:83-126 | the terminal branch, up to the sanitiser, leaves the device as `EchoOffRun` says; on success the buffer holds the raw first line |
| `Unix.UnixSetupFailureReadsNothing` | src/lib.rs:73-99 | a failed open, `tcgetattr` or first `tcsetattr` returns before any read: empty secret, input and mode unchanged |
| `Unix.UnixPipedReadOnly` | src/lib.rs:127-142 | without a terminal the only call is one read; a read error returns that error with the partial secret zeroed |
| `Unix.UnixReadsWithEchoOff` | src/lib.rs:89-105 | the calls are two queries, then applying `NoEchoMode` of the saved mode, then the read under that mode |
| `Unix.UnixSuccessRestoresMode` | src/lib.rs:119-126 | when every call succeeds, the result is the sanitised line, the last mode applied is the saved one, and it is in force |
| `Unix.UnixReadErrorRestoresAndErases` | src/lib.rs:110-115 | a read error with a good restore returns the read error, with the saved mode back and the partial secret zeroed |
| `Unix.UnixReadAndRestoreErrorKeepsSecret` | src/lib.rs:110-113 | a read error with a failed restore returns the restore error; the partial secret is not zeroed and echo stays off |
| `Unix.UnixRestoreErrorErases` | src/lib.rs:119-125 | a good read with a failed restore returns the restore error with the line zeroed; echo stays off |
| `Windows.PasswordMode` | src/lib.rs:197-198 | the mode for the read has ENABLE_ECHO_INPUT clear, line and processed input set, and no other flag |
| `Windows.Console.GetConsoleMode` | src/lib.rs:191-195 | `GetConsoleMode` records a query and returns the current mode or a get-mode error |
| `Windows.Console.SetConsoleMode` | src/lib.rs:199-201 | `SetConsoleMode` records the mode applied; on success the mode is the new one, on failure it is unchanged and a set-mode error is returned |
| `Windows.Console.ReadLine` | src/lib.rs:203-207 | `read_line` on the console records the mode in force and reads as `Secret.ReadLine` |
| `Windows.WindowsRun` | src/lib.rs:170-227 | over every OS outcome: success gives the sanitised line with the saved mode back; the final mode is the saved one or the password mode; reads happen only in the password mode; a read error comes with an erased secret and the password mode still applied |
| `Windows.ReadPasswordFromStdin` | src/lib.rs:170-227 | the result, the String's final contents and the console's new state are exactly `WindowsRun` of the old console state |
| `Windows.WindowsSetupFailureChangesNothing` | src/lib.rs:187-195 | an invalid handle or a failed `GetConsoleMode` returns before any mode change or read |
| `Windows.WindowsReadErrorSkipsRestore` | src/lib.rs:211-216 | a read error returns with the secret zeroed and no restore call, leaving the password mode applied |
| `Windows.WindowsRestoreErrorKeepsSecret` | src/lib.rs:219-222 | a failed restore after a good read returns the restore error with the line not zeroed, in the password mode |
| `Windows.WindowsSuccessRestoresMode` | src/lib.rs:219-226 | when every call succeeds, the result is the sanitised line and the last mode applied is the saved one |
| `Rpassword.ReaderRun` | src/lib.rs:257-268 | reading from a reader: success gives the sanitised first line and leaves the rest unread; failure gives the read error with the partial bytes zeroed and the input unread |
| `Rpassword.ReadPasswordWithReader` | src/lib.rs:257-272 | `Some(reader)` behaves as `ReaderRun` on the reader's input; `None` behaves exactly as `read_password_from_stdin(false)` (`UnixRun`) on standard input |
| `Rpassword.ReadPassword` | src/lib.rs:45-47 | behaves as `read_password_from_stdin(false)` on standard input |
| `Rpassword.ReadPasswordFromTty` | src/lib.rs:275-281 | a failed prompt returns its error before the terminal is touched; otherwise it behaves as `read_password_from_stdin(true)` on `/dev/tty` |
| `Rpassword.ReaderStripsTerminator` | src/lib.rs:262-268 | a line without `'\n'`, ended by `"\r\n"` or by `"\n"`, is returned as the line |
| `Rpassword.MockedResponses` | src/lib.rs:305-319 | `"A mocked response.\r\n"` and `"A mocked response.\n"` both read as `"A mocked response."` |
| `Rpassword.EmptyInputReadsEmptyPassword` | src/lib.rs:262-268 | empty input gives `Ok("")`, not an error |
| `Rpassword.ReaderTakesFirstLineOnly` | src/lib.rs:262 | only the first line is taken; the bytes after its `'\n'` stay in the reader |

## Left out

- The OS calls themselves (`isatty`, `tcgetattr`, `tcsetattr`, `File::open("/dev/tty")`, `GetStdHandle`, `CreateFileA("CONIN$")`, `GetConsoleMode`, `SetConsoleMode`) are foreign calls. Each is a `Step` parameter. `isatty` is the fixed `isTty` field of the descriptor.
- A failed `tcsetattr` or `SetConsoleMode` is modelled as leaving the mode unchanged. A real partial change is not modelled.
- The uninitialised `termios` storage (src/lib.rs:87-88): `tcgetattr` returns a fully defined mode. Only `c_lflag` of the `termios` structure is modelled.
- The constants are the Linux values (`ECHO` = 0o10, `ECHONL` = 0o100, 32-bit `tcflag_t`). Other Unix systems use other values and widths.
- `display_on_tty` (src/lib.rs:150-155, 230-248) writes the prompt and flushes. Only its success or failure is modelled, as the `display` step of `ReadPasswordFromTty`.
- `prompt_password_stdout` and `prompt_password_stderr` (src/lib.rs:284-299) are not modelled. They only write the prompt and flush before calling `read_password`.
- The `println!("\n")` after a Windows read (src/lib.rs:225) is console output and is not modelled.
- The facade of the `cfg(windows)` build is not modelled. Dafny has no conditional compilation, so `Rpassword` uses the Unix driver. The Windows build delegates in the same way, to `Windows.ReadPasswordFromStdin`.
- `read_line`'s UTF-8 validation and its exact partial-buffer behaviour on error are not modelled. A failed read appends the arbitrary `partial` bytes of its step and consumes no input.
- `BufReader` read-ahead is not modelled: a successful read consumes exactly the line, and the rest stays in the device or reader. A real `BufReader` over `/dev/tty` may read ahead and drop the extra bytes.
- `Secret.SecretString.Pop`: removes one byte, not one UTF-8 character. The two agree in the only uses (src/lib.rs:35, 39), where the last character is `'\n'` or `'\r'`.
- Erasing bytes beyond the String's length (spare capacity, the old allocation left behind by a `Push` that reallocates, swap) is not covered. `ZeroMemory` states that it leaves spare capacity alone.
- Closing the descriptors and handles, and the handle round trip through `File::from_raw_handle` / `into_raw_handle` (src/lib.rs:204-208), are not modelled.
- Concurrent calls that race on the shared terminal mode are out of scope.
