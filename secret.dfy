/** The password String and the two helpers every read path uses on it:
    zero_memory (the secret eraser) and fixes_newline (the line sanitiser),
    together with BufRead::read_line, the one way bytes get into it. */
module Secret {
  import opened Io

  /** Every byte is zero. */
  predicate Erased(s: seq<byte>)
  {
    forall i | 0 <= i < |s| :: s[i] == 0
  }

  /** `s` with every byte overwritten by zero. */
  function Zeroed(s: seq<byte>): (z: seq<byte>)
    ensures |z| == |s| && Erased(z)
  {
    seq(|s|, _ => 0)
  }

  /** `s` is non-empty and its last byte is `b` (str::ends_with on an ASCII char). */
  predicate EndsIn(s: seq<byte>, b: byte)
  {
    |s| > 0 && s[|s| - 1] == b
  }

  /** The contents of a String after fixes_newline: one trailing '\n' is
      removed if present, and only then one '\r' before it. */
  function FixedNewline(s: seq<byte>): (r: seq<byte>)
    ensures r <= s && |s| - 2 <= |r|
    ensures |s| >= 2 && s[|s| - 2..] == [CR, LF] ==> r == s[..|s| - 2]
    ensures EndsIn(s, LF) && !(|s| >= 2 && s[|s| - 2] == CR) ==> r == s[..|s| - 1]
    ensures !EndsIn(s, LF) ==> r == s
  {
    if EndsIn(s, LF) then
      var popped := s[..|s| - 1];
      if EndsIn(popped, CR) then popped[..|popped| - 1] else popped
    else
      s
  }

  /** The number of bytes read_line takes from `input`: everything up to and
      including the first '\n', or all of it when there is none. */
  function LineLength(input: seq<byte>): (n: nat)
    ensures n <= |input|
    ensures input != [] ==> n > 0
    ensures forall i | 0 <= i < n - 1 :: input[i] != LF
    ensures n < |input| ==> n > 0 && input[n - 1] == LF
  {
    if input == [] then 0
    else if input[0] == LF then 1
    else 1 + LineLength(input[1..])
  }

  /** The bytes one successful read_line appends: a line that holds '\n' at
      most as its last byte and stops only at a '\n' or at end of input. */
  function FirstLine(input: seq<byte>): (line: seq<byte>)
    ensures line <= input
    ensures forall i | 0 <= i < |line| - 1 :: line[i] != LF
    ensures line == input || EndsIn(line, LF)
    ensures input != [] ==> line != []
  {
    input[..LineLength(input)]
  }

  /** The bytes one read_line call appends to the buffer. */
  function Received(input: seq<byte>, step: ReadStep): seq<byte>
  {
    match step
    case Delivers => FirstLine(input)
    case FailsAfter(_, partial) => partial
  }

  /** The reader's input left after one read_line call (a failed call is
      modelled as consuming nothing). */
  function Remaining(input: seq<byte>, step: ReadStep): seq<byte>
  {
    match step
    case Delivers => input[LineLength(input)..]
    case FailsAfter(_, _) => input
  }

  /** A Rust String seen as its Vec<u8>: `bytes` is the heap allocation (its
      length is the capacity) and its first `len` bytes are the contents. */
  class SecretString {
    var bytes: array<byte>
    var len: nat

    ghost predicate Valid()
      reads this
    {
      len <= bytes.Length
    }

    function Contents(): seq<byte>
      reads this, bytes
      requires Valid()
    {
      bytes[..len]
    }

    /** String::new(): empty, with no capacity. */
    constructor ()
      ensures Valid() && Contents() == [] && fresh(bytes)
    {
      bytes := new byte[0];
      len := 0;
    }

    predicate EndsWith(b: byte)
      reads this, bytes
      requires Valid()
      ensures EndsWith(b) <==> EndsIn(Contents(), b)
    {
      len > 0 && bytes[len - 1] == b
    }

    /** Vec::push: when the allocation is full it moves to a larger one
        (twice the capacity, at least 8), leaving the old one behind as it was. */
    method Push(b: byte)
      requires Valid()
      modifies this, bytes
      ensures Valid() && Contents() == old(Contents()) + [b]
      ensures bytes == old(bytes) || fresh(bytes)
    {
      if len == bytes.Length {
        var capacity := if 2 * bytes.Length < 8 then 8 else 2 * bytes.Length;
        var grown := new byte[capacity];
        forall i | 0 <= i < len {
          grown[i] := bytes[i];
        }
        bytes := grown;
      }
      bytes[len] := b;
      len := len + 1;
    }

    /** Appends `s` one byte at a time. */
    method Extend(s: seq<byte>)
      requires Valid()
      modifies this, bytes
      ensures Valid() && Contents() == old(Contents()) + s
      ensures bytes == old(bytes) || fresh(bytes)
    {
      var i := 0;
      while i < |s|
        invariant 0 <= i <= |s|
        invariant Valid() && Contents() == old(Contents()) + s[..i]
        invariant bytes == old(bytes) || fresh(bytes)
      {
        Push(s[i]);
        i := i + 1;
      }
    }

    /** String::pop, for a last character that is a single byte: only the
        length shrinks; the allocation keeps the byte. */
    method Pop() returns (b: Option<byte>)
      requires Valid()
      modifies this`len
      ensures Valid()
      ensures old(len) == 0 ==> b == None && Contents() == []
      ensures old(len) > 0 ==>
        b == Some(old(Contents())[old(len) - 1]) && Contents() == old(Contents())[..old(len) - 1]
    {
      if len == 0 {
        b := None;
      } else {
        len := len - 1;
        b := Some(bytes[len]);
      }
    }
  }

  /** zero_memory: overwrites every byte of the current contents with 0, in
      place. The allocation is neither moved nor resized, and the bytes past
      the length (spare capacity) are not touched. */
  method ZeroMemory(s: SecretString)
    requires s.Valid()
    modifies s.bytes
    ensures s.Valid() && s.bytes == old(s.bytes) && s.len == old(s.len)
    ensures s.Contents() == Zeroed(old(s.Contents()))
    ensures s.bytes[s.len..] == old(s.bytes[s.len..])
  {
    var i := 0;
    while i < s.len
      invariant 0 <= i <= s.len
      invariant forall k | 0 <= k < i :: s.bytes[k] == 0
      invariant forall k | i <= k < s.bytes.Length :: s.bytes[k] == old(s.bytes[k])
    {
      s.bytes[i] := 0;
      i := i + 1;
    }
  }

  /** fixes_newline: pops a trailing '\n', and after it a trailing '\r'.
      Only the length changes; the allocation stays where it is. */
  method FixesNewline(password: SecretString)
    requires password.Valid()
    modifies password`len
    ensures password.Valid()
    ensures password.Contents() == FixedNewline(old(password.Contents()))
  {
    if password.EndsWith(LF) {
      var newline := password.Pop();
      if password.EndsWith(CR) {
        var carriageReturn := password.Pop();
      }
    }
  }

  /** BufRead::read_line over a reader whose unread bytes are `input`: on
      success it appends the first line and returns its length; on failure it
      appends the partial bytes of the step and returns a read error. */
  method ReadLine(input: seq<byte>, step: ReadStep, buf: SecretString)
    returns (r: Result<nat>, rest: seq<byte>)
    requires buf.Valid()
    modifies buf, buf.bytes
    ensures buf.Valid() && buf.Contents() == old(buf.Contents()) + Received(input, step)
    ensures fresh(buf.bytes) || buf.bytes == old(buf.bytes)
    ensures rest == Remaining(input, step)
    ensures r == (if step.Delivers? then Ok(LineLength(input)) else Err(Error(Read, step.code)))
  {
    match step
    case Delivers =>
      var n := LineLength(input);
      buf.Extend(input[..n]);
      r, rest := Ok(n), input[n..];
    case FailsAfter(code, partial) =>
      buf.Extend(partial);
      r, rest := Err(Error(Read, code)), input;
  }

  // Properties of the sanitiser and of read_line.

  /** Appending a terminator and sanitising gives the line back: "\r\n"
      always, a lone "\n" when the line does not itself end in '\r'. */
  lemma FixedNewlineUndoesTerminator(line: seq<byte>)
    ensures FixedNewline(line + [CR, LF]) == line
    ensures !EndsIn(line, CR) ==> FixedNewline(line + [LF]) == line
  {
    assert (line + [CR, LF])[..|line| + 1] == line + [CR];
  }

  /** A trailing '\r' with no '\n' after it stays. */
  lemma FixedNewlineKeepsLoneCarriageReturn(line: seq<byte>)
    ensures FixedNewline(line + [CR]) == line + [CR]
  {
  }

  /** fixes_newline is not idempotent: "a\n\n" becomes "a\n", then "a". */
  lemma FixedNewlineNotIdempotent()
    ensures FixedNewline([97, LF, LF]) == [97, LF]
    ensures FixedNewline([97, LF]) == [97]
  {
    assert [97, LF, LF][..2] == [97 as byte, LF];
    assert [97 as byte, LF][..1] == [97 as byte];
  }

  /** A line that read_line delivers, once sanitised, holds no '\n', so
      sanitising it again changes nothing. */
  lemma SanitisedLineIsFinal(input: seq<byte>)
    ensures LF !in FixedNewline(FirstLine(input))
    ensures FixedNewline(FixedNewline(FirstLine(input))) == FixedNewline(FirstLine(input))
  {
    var line := FirstLine(input);
    var fixed := FixedNewline(line);
    if EndsIn(line, LF) {
      assert |fixed| < |line|;
    } else {
      assert line == input;
      assert LineLength(input) == |input|;
      if |line| > 0 {
        assert line[|line| - 1] != LF;
      }
    }
    forall i | 0 <= i < |fixed| ensures fixed[i] != LF {
      assert fixed[i] == line[i];
    }
  }

  /** A line ended by '\n' is read up to and including that '\n', whatever follows. */
  lemma FirstLineOfTerminated(body: seq<byte>, rest: seq<byte>)
    requires LF !in body
    ensures FirstLine(body + [LF] + rest) == body + [LF]
  {
    var input := body + [LF] + rest;
    var n := LineLength(input);
    assert input[|body|] == LF;
    assert input[..|body| + 1] == body + [LF];
  }

  /** Input without any '\n' (end of input, or Ctrl-D) is read whole. */
  lemma FirstLineOfUnterminated(input: seq<byte>)
    requires LF !in input
    ensures FirstLine(input) == input
  {
  }
}
