/**
 * The per-connection output buffer. `sendLine` appends a line and its
 * CR LF terminator to a `StringBuffer`; `finish` writes the buffer minus its
 * last two chars to the session and asks the session to close once that
 * write completes.
 */
module Responses {
  import opened JavaLang

  const CRLF: string := "\r\n"

  /** The buffer contents after `sendLine` was called with each of `lines`, in order. */
  function Framed(lines: seq<string>): string
    decreases |lines|
  {
    if lines == [] then "" else lines[0] + CRLF + Framed(lines[1..])
  }

  /** The lines separated by CR LF, with no terminator after the last. */
  function JoinLines(lines: seq<string>): string
    requires lines != []
    decreases |lines|
  {
    if |lines| == 1 then lines[0] else lines[0] + CRLF + JoinLines(lines[1..])
  }

  /** Appending a line extends the buffer and leaves what was there untouched. */
  lemma {:induction false} FramedAppend(lines: seq<string>, line: string)
    ensures Framed(lines + [line]) == Framed(lines) + line + CRLF
    decreases |lines|
  {
    if lines != [] {
      assert (lines + [line])[1..] == lines[1..] + [line];
      FramedAppend(lines[1..], line);
    }
  }

  /** A non-empty buffer is the joined lines plus exactly one trailing terminator. */
  lemma {:induction false} FramedIsJoinedPlusTerminator(lines: seq<string>)
    requires lines != []
    ensures Framed(lines) == JoinLines(lines) + CRLF
    decreases |lines|
  {
    if |lines| > 1 {
      FramedIsJoinedPlusTerminator(lines[1..]);
    }
  }

  /** `b.substring(0, b.length() - 2)`: the buffer minus its last two chars. */
  function FinishText(b: string): (r: Result<string, JavaException>)
    ensures r.Success? <==> |b| >= 2
    ensures r.Success? ==> r.value + b[|b| - 2..] == b
    ensures r.Failure? ==> r.error.StringIndexOutOfBounds? && r.error.end < 0
  {
    if |b| < 2 then Failure(StringIndexOutOfBounds(0, |b| - 2, |b|)) else Success(b[..|b| - 2])
  }

  /**
   * What `finish` writes after some `sendLine` calls: the lines joined by
   * CR LF with no trailing terminator; with no line at all the substring
   * fails with end index -2.
   */
  lemma {:induction false} FinishWritesJoinedLines(lines: seq<string>)
    ensures FinishText(Framed(lines)) ==
      if lines == [] then Failure(StringIndexOutOfBounds(0, -2, 0)) else Success(JoinLines(lines))
  {
    if lines != [] {
      FramedIsJoinedPlusTerminator(lines);
      var b := Framed(lines);
      assert b[..|b| - 2] == JoinLines(lines);
    }
  }

  /** Lines "a", "b", "c" reach the wire as "a\r\nb\r\nc". */
  lemma FinishExample()
    ensures FinishText(Framed(["a", "b", "c"])) == Success("a\r\nb\r\nc")
  {
    var lines := ["a", "b", "c"];
    FinishWritesJoinedLines(lines);
    assert lines[1..] == ["b", "c"] && lines[1..][1..] == ["c"];
    assert JoinLines(lines[1..][1..]) == "c";
    assert JoinLines(lines[1..]) == "b" + CRLF + "c";
    assert JoinLines(lines) == "a" + CRLF + "b" + CRLF + "c";
    assert "a" + CRLF + "b" + CRLF + "c" == "a\r\nb\r\nc";
  }

  /** What a `Response` asks of its session. */
  datatype SessionOp = Write(text: string) | CloseWhenWritten

  class Response {
    /** The `StringBuffer`. */
    var b: string
    /** The lines passed to `sendLine`, in order. */
    ghost var lines: seq<string>
    /** The requests made of the session, in order. */
    var ops: seq<SessionOp>

    ghost predicate Valid()
      reads this
    {
      b == Framed(lines)
    }

    constructor ()
      ensures Valid() && lines == [] && b == "" && ops == []
    {
      b := "";
      lines := [];
      ops := [];
    }

    method SendLine(line: string)
      requires Valid()
      modifies this
      ensures Valid()
      ensures lines == old(lines) + [line]
      ensures b == old(b) + line + CRLF
      ensures ops == old(ops)
    {
      FramedAppend(lines, line);
      b := b + line + CRLF;
      lines := lines + [line];
    }

    /** `send(key, value)` is `sendLine(key + ": " + value)`. */
    method Send(key: string, value: string)
      requires Valid()
      modifies this
      ensures Valid()
      ensures lines == old(lines) + [key + ": " + value]
      ensures b == old(b) + key + ": " + value + CRLF
      ensures ops == old(ops)
    {
      SendLine(key + ": " + value);
    }

    /**
     * One write of the buffer minus its last two chars, then close once
     * written. The buffer itself is left as it is. On an empty buffer the
     * substring throws and nothing reaches the session.
     */
    method Finish() returns (thrown: Option<JavaException>)
      requires Valid()
      modifies this
      ensures Valid() && b == old(b) && lines == old(lines)
      ensures thrown == (if lines == [] then Some(StringIndexOutOfBounds(0, -2, 0)) else None)
      ensures ops == old(ops) + (if lines == [] then [] else [Write(JoinLines(lines)), CloseWhenWritten])
    {
      FinishWritesJoinedLines(lines);
      var text := FinishText(b);
      if text.Failure? {
        thrown := Some(text.error);
      } else {
        ops := ops + [Write(text.value), CloseWhenWritten];
        thrown := None;
      }
    }
  }
}
