/** The `strlen` clone of the string-length exercise: `length` counts the
    bytes before the first zero byte, `length_iter` does the same with
    `take_while`, and `main` reads at most `MAXLINE` bytes of one line into
    a zero-filled buffer of `MAXLINE + 1` bytes and terminates it. */
module Strlen {
  import opened Bytes

  /** `MAXLINE`: the most bytes one line may hold. */
  const MaxLine: nat := 30

  /** The newline byte `b'\n'`. */
  const Newline: byte := 10

  /** `n` is the C string length of `s`: every byte before index `n` is
      non-zero, and index `n` is either past the end or a zero byte. */
  predicate IsStrlen(s: seq<byte>, n: nat) {
    n <= |s| && (forall k :: 0 <= k < n ==> s[k] != 0) && (n == |s| || s[n] == 0)
  }

  /** A slice has exactly one C string length. */
  lemma StrlenUnique(s: seq<byte>, m: nat, n: nat)
    requires IsStrlen(s, m) && IsStrlen(s, n)
    ensures m == n
  {
  }

  /** `length_iter`: `take_while(|ch| ch != 0).count()`. */
  function LengthIter(s: seq<byte>): (r: nat)
    ensures IsStrlen(s, r)
  {
    if |s| == 0 || s[0] == 0 then 0 else 1 + LengthIter(s[1..])
  }

  /** `length`: walks the slice and stops at the first zero byte. The loop
      computes the C string length, so it agrees with `length_iter`. */
  method Length(s: seq<byte>) returns (len: nat)
    ensures IsStrlen(s, len)
    ensures len == LengthIter(s)
  {
    len := 0;
    while len < |s|
      invariant len <= |s|
      invariant forall k :: 0 <= k < len ==> s[k] != 0
    {
      if s[len] == 0 {
        break;
      }
      len := len + 1;
    }
    StrlenUnique(s, len, LengthIter(s));
  }

  /** The bytes `main` keeps from the input stream: everything before the
      first newline or the end of input, but no more than `MAXLINE`. */
  function LineRead(input: seq<byte>): (r: seq<byte>)
    ensures |r| <= MaxLine && |r| <= |input|
    ensures r == input[..|r|]
    ensures Newline !in r
    ensures |r| == MaxLine || |r| == |input| || input[|r|] == Newline
  {
    LineReadFrom(input, 0)
  }

  /** `LineRead` from position `i` on, given that `input[..i]` is already
      kept. */
  function LineReadFrom(input: seq<byte>, i: nat): (r: seq<byte>)
    requires i <= MaxLine && i <= |input| && Newline !in input[..i]
    ensures i <= |r| <= MaxLine && |r| <= |input|
    ensures r == input[..|r|]
    ensures Newline !in r
    ensures |r| == MaxLine || |r| == |input| || input[|r|] == Newline
    decreases MaxLine - i
  {
    if i == MaxLine || i == |input| || input[i] == Newline then input[..i]
    else
      assert input[..i + 1] == input[..i] + [input[i]];
      LineReadFrom(input, i + 1)
  }

  /** The read loop of `main`: `input` stands for the standard-input stream,
      where the end of the sequence is end of file (a read error ends the
      loop the same way). The bytes kept are `LineRead(input)`, the buffer
      is terminated right after them inside its `MAXLINE + 1` bytes, and
      `length` of the buffer is at most the count read. */
  method ReadLine(input: seq<byte>) returns (buffer: array<byte>, count: nat, len: nat)
    ensures fresh(buffer) && buffer.Length == MaxLine + 1
    ensures count <= MaxLine && buffer[..count] == LineRead(input)
    ensures buffer[count] == 0
    ensures len == LengthIter(buffer[..]) && len <= count
  {
    buffer := new byte[MaxLine + 1](_ => 0);
    count := 0;
    while count < MaxLine
      invariant count <= MaxLine && count <= |input|
      invariant buffer[..count] == input[..count]
      invariant Newline !in input[..count]
      invariant forall k :: count <= k < buffer.Length ==> buffer[k] == 0
      invariant LineRead(input) == LineReadFrom(input, count)
    {
      if count == |input| {
        break;
      }
      var c := input[count];
      if c == Newline {
        break;
      }
      buffer[count] := c;
      assert input[..count + 1] == input[..count] + [c];
      count := count + 1;
    }
    buffer[count] := 0;
    len := Length(buffer[..]);
    assert buffer[..][count] == 0;
  }

  /** The test strings of `main`: "Hello\0" has length 5, "\0" has length 0,
      and bytes after the terminator are not counted. */
  lemma LengthExamples()
    ensures LengthIter([72, 101, 108, 108, 111, 0]) == 5
    ensures LengthIter([0]) == 0
    ensures LengthIter([84, 101, 115, 116, 0]) == 4
    ensures LengthIter([65, 0, 66]) == 1
  {
    var hello: seq<byte> := [72, 101, 108, 108, 111, 0];
    assert IsStrlen(hello, 5);
    StrlenUnique(hello, 5, LengthIter(hello));
    var test: seq<byte> := [84, 101, 115, 116, 0];
    assert IsStrlen(test, 4);
    StrlenUnique(test, 4, LengthIter(test));
    var ab: seq<byte> := [65, 0, 66];
    assert IsStrlen(ab, 1);
    StrlenUnique(ab, 1, LengthIter(ab));
  }
}
