/** Vocabulary shared by the whole model: the line-terminator bytes, the
    io::Result that every read operation returns, how an OS call turns out,
    and the record of what a read operation leaves behind. */
module Io {

  /** A byte of a String's UTF-8 encoding. */
  newtype byte = b: int | 0 <= b < 0x100

  /** '\n' and '\r'. Neither byte occurs inside a multi-byte UTF-8 sequence,
      so a String can be modelled byte by byte wherever these two matter. */
  const LF: byte := 10
  const CR: byte := 13

  datatype Option<+T> = None | Some(value: T)

  /** The kind of OS call whose failure an io::Error reports. */
  datatype Origin =
    | Open     // opening /dev/tty, or CreateFileA / GetStdHandle giving an invalid handle
    | GetMode  // tcgetattr, GetConsoleMode
    | SetMode  // tcsetattr, SetConsoleMode
    | Read     // BufRead::read_line
    | Prompt   // writing the prompt to the terminal

  /** std::io::Error: the failing call and the OS error code it carries. */
  datatype Error = Error(origin: Origin, code: int)

  /** std::io::Result. */
  datatype Result<+T> = Ok(value: T) | Err(error: Error)

  /** How one OS call turns out. The environment decides; the model quantifies
      over every choice. */
  datatype Step = Succeeds | Fails(code: int)

  /** How one BufRead::read_line call turns out: it delivers the next line of
      the input, or it fails after having appended arbitrary bytes to the
      buffer (an interrupted read, invalid UTF-8, ...). */
  datatype ReadStep = Delivers | FailsAfter(code: int, partial: seq<byte>)

  /** One call issued to a terminal or console device, as its trace records
      it: a mode query, a mode change to `mode`, or a line read while `mode`
      was in force. */
  datatype DeviceCall = Query | Apply(mode: bv32) | ReadIn(mode: bv32)

  /** What a read operation leaves behind: the result it returns, the final
      contents of the password String it built (moved into the result on
      success, dropped on error), and the new state `device` of the input
      source it used. */
  datatype Run<D> = Run(result: Result<seq<byte>>, secret: seq<byte>, device: D)
}
