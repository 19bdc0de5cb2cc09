// The event-stream reader of src/llm_harness/a2a.py:682-706: lines of bytes in, event payloads out.
// The format is that of section 9.2.6 of the HTML Living Standard, with the code's own rules that only
// a line feed ends a line, that every trailing CR is dropped, and that end of input dispatches.

module EventStream {
  import opened Prelude

  newtype Byte = b: int | 0 <= b < 256

  type Bytes = seq<Byte>

  const CR: Byte := 13
  const LF: Byte := 10
  const Colon: Byte := 58
  const Blank: Byte := 32
  /** `b"data:"` */
  const DataField: Bytes := [100, 97, 116, 97, 58]

  /** The bytes that matter, as characters. */
  lemma BytesAreCharacters()
    ensures CR as int == '\r' as int && LF as int == '\n' as int && Colon as int == ':' as int && Blank as int == ' ' as int
    ensures |DataField| == |"data:"| && forall i | 0 <= i < 5 :: DataField[i] as int == "data:"[i] as int
  {
  }

  /** The index of the first line feed, or the length. */
  function FirstLF(s: Bytes): (n: nat)
    ensures n <= |s| && (n < |s| ==> s[n] == LF)
    ensures forall i | 0 <= i < n :: s[i] != LF
  {
    if s == [] || s[0] == LF then 0 else 1 + FirstLF(s[1..])
  }

  /** What successive calls of `readline` return. */
  function Lines(s: Bytes): seq<Bytes>
    decreases |s|
  {
    if s == [] then []
    else
      var n := FirstLF(s);
      if n == |s| then [s] else [s[..n + 1]] + Lines(s[n + 1..])
  }

  /** `line.rstrip(b"\r\n")` */
  function Stripped(line: Bytes): Bytes {
    if line != [] && (line[|line| - 1] == CR || line[|line| - 1] == LF) then Stripped(line[..|line| - 1]) else line
  }

  function Join(parts: seq<Bytes>): Bytes {
    if parts == [] then []
    else if |parts| == 1 then parts[0]
    else parts[0] + [LF] + Join(parts[1..])
  }

  /** The value of a `data` field, without the one space that may follow the colon. */
  function FieldValue(stripped: Bytes): Bytes
    requires DataField <= stripped
  {
    var value := stripped[5..];
    if value != [] && value[0] == Blank then value[1..] else value
  }

  /** The payloads dispatched so far and the data lines of the event being read. */
  datatype Reader = Reader(payloads: seq<Bytes>, open: seq<Bytes>)

  function Dispatch(reader: Reader): Reader {
    if reader.open == [] then reader else Reader(reader.payloads + [Join(reader.open)], [])
  }

  function Feed(reader: Reader, line: Bytes): Reader {
    var stripped := Stripped(line);
    if stripped == [] then Dispatch(reader)
    else if DataField <= stripped then reader.(open := reader.open + [FieldValue(stripped)])
    else reader
  }

  function Read(lines: seq<Bytes>): Reader {
    if lines == [] then Reader([], []) else Feed(Read(lines[..|lines| - 1]), lines[|lines| - 1])
  }

  /** Every payload of a stream that is read to its end. */
  function Payloads(stream: Bytes): seq<Bytes> {
    Dispatch(Read(Lines(stream))).payloads
  }

  function Total(lines: seq<Bytes>): nat {
    if lines == [] then 0 else Total(lines[..|lines| - 1]) + |lines[|lines| - 1]|
  }

  /** The lines read before the size limit is passed. */
  function Within(lines: seq<Bytes>, maxBytes: nat): seq<Bytes> {
    if Total(lines) <= maxBytes then lines else Within(lines[..|lines| - 1], maxBytes)
  }

  datatype Failure = TooLong | NotAnObject

  /** The objects of all payloads, if all of them are objects. */
  function DecodeAll<E>(decode: Bytes -> Option<E>, payloads: seq<Bytes>): Option<seq<E>> {
    if payloads == [] then Some([])
    else
      var before := DecodeAll(decode, payloads[..|payloads| - 1]);
      var last := decode(payloads[|payloads| - 1]);
      if before.None? || last.None? then None else Some(before.value + [last.value])
  }

  /** What a request yields: a payload that is not an object is reported if it comes to be dispatched
      before the limit is passed, then the limit, and otherwise there is one object per payload. */
  function Received<E>(stream: Bytes, maxBytes: nat, decode: Bytes -> Option<E>): Result<seq<E>, Failure> {
    var offered := if |stream| <= maxBytes then Payloads(stream) else Read(Within(Lines(stream), maxBytes)).payloads;
    match DecodeAll(decode, offered)
    case None => Err(NotAnObject)
    case Some(events) => if |stream| <= maxBytes then Ok(events) else Err(TooLong)
  }

  /** The loop of `_http_sse_transport`. `decode` is `_json_object`: None stands for its A2AError. */
  method ReceiveEvents<E>(stream: Bytes, maxBytes: nat, decode: Bytes -> Option<E>)
    returns (result: Result<seq<E>, Failure>)
    ensures result == Received(stream, maxBytes, decode)
  {
    var rest := stream;
    var events: seq<E> := [];
    var dataLines: seq<Bytes> := [];
    var total := 0;
    ghost var lines: seq<Bytes> := [];
    ghost var payloads: seq<Bytes> := [];
    TotalOfLines(stream);
    hide Read, Lines, Total, Within, Stripped, Join, DecodeAll;
    ReadNothing<E>(decode);
    while rest != []
      invariant Lines(stream) == lines + Lines(rest)
      invariant total == Total(lines) <= maxBytes && total + |rest| == |stream|
      invariant Read(lines) == Reader(payloads, dataLines)
      invariant DecodeAll(decode, payloads) == Some(events)
      decreases |rest|
    {
      var n := FirstLF(rest);
      var line := if n == |rest| then rest else rest[..n + 1];
      NextLine(rest);
      ReadNext(lines, line);
      assert lines + Lines(rest) == lines + [line] + Lines(rest[|line|..]);
      rest := rest[|line|..];
      total := total + |line|;
      if total > maxBytes {
        WithinStops(lines, line, Lines(rest), maxBytes);
        return Err(TooLong);
      }
      lines := lines + [line];
      var stripped := Stripped(line);
      if stripped == [] {
        if dataLines != [] {
          DecodeOneMore(decode, payloads, Join(dataLines));
          payloads := payloads + [Join(dataLines)];
          var event := decode(Join(dataLines));
          if event.None? {
            FailureStays(decode, payloads, lines, Lines(rest), maxBytes, |stream|);
            return Err(NotAnObject);
          }
          events := events + [event.value];
          dataLines := [];
        }
      } else if stripped[0] == Colon {
        continue;
      } else if DataField <= stripped {
        var value := stripped[5..];
        if value != [] && value[0] == Blank {
          value := value[1..];
        }
        dataLines := dataLines + [value];
      }
    }
    assert lines + [] == lines;
    if dataLines != [] {
      DecodeOneMore(decode, payloads, Join(dataLines));
      var event := decode(Join(dataLines));
      if event.None? {
        return Err(NotAnObject);
      }
      events := events + [event.value];
    }
    return Ok(events);
  }

  lemma ReadNothing<E>(decode: Bytes -> Option<E>)
    ensures Read([]) == Reader([], []) && Lines([]) == [] && Total([]) == 0 && DecodeAll(decode, []) == Some([])
  {
  }

  lemma NextLine(rest: Bytes)
    requires rest != []
    ensures
      var n := FirstLF(rest);
      var line := if n == |rest| then rest else rest[..n + 1];
      Lines(rest) == [line] + Lines(rest[|line|..])
  {
  }

  lemma ReadNext(lines: seq<Bytes>, line: Bytes)
    ensures Read(lines + [line]) == Feed(Read(lines), line)
    ensures Total(lines + [line]) == Total(lines) + |line|
  {
    assert (lines + [line])[..|lines|] == lines;
  }

  lemma DecodeOneMore<E>(decode: Bytes -> Option<E>, payloads: seq<Bytes>, payload: Bytes)
    ensures DecodeAll(decode, payloads + [payload]) ==
      if DecodeAll(decode, payloads).None? || decode(payload).None? then None
      else Some(DecodeAll(decode, payloads).value + [decode(payload).value])
  {
    assert (payloads + [payload])[..|payloads|] == payloads;
  }

  lemma {:induction false} TotalConcat(a: seq<Bytes>, b: seq<Bytes>)
    ensures Total(a + b) == Total(a) + Total(b)
  {
    if b == [] {
      assert a + b == a;
    } else {
      assert (a + b)[..|a + b| - 1] == a + b[..|b| - 1];
      TotalConcat(a, b[..|b| - 1]);
    }
  }

  lemma {:induction false} TotalOfLines(stream: Bytes)
    ensures Total(Lines(stream)) == |stream|
    decreases |stream|
  {
    if stream != [] {
      var n := FirstLF(stream);
      if n < |stream| {
        TotalOfLines(stream[n + 1..]);
        TotalConcat([stream[..n + 1]], Lines(stream[n + 1..]));
        assert [stream[..n + 1]][..0] == [];
      }
    }
  }

  lemma {:induction false} WithinStops(lines: seq<Bytes>, line: Bytes, rest: seq<Bytes>, maxBytes: nat)
    requires Total(lines) <= maxBytes < Total(lines) + |line|
    ensures Within(lines + [line] + rest, maxBytes) == lines
  {
    var all := lines + [line] + rest;
    TotalConcat(lines + [line], rest);
    assert (lines + [line])[..|lines|] == lines;
    if rest == [] {
      assert all[..|all| - 1] == lines;
    } else {
      assert all[..|all| - 1] == lines + [line] + rest[..|rest| - 1];
      WithinStops(lines, line, rest[..|rest| - 1], maxBytes);
    }
  }

  lemma {:induction false} WithinKeeps(lines: seq<Bytes>, rest: seq<Bytes>, maxBytes: nat)
    requires Total(lines) <= maxBytes
    ensures lines <= Within(lines + rest, maxBytes)
  {
    if rest == [] {
      assert lines + rest == lines;
    } else {
      assert (lines + rest)[..|lines + rest| - 1] == lines + rest[..|rest| - 1];
      WithinKeeps(lines, rest[..|rest| - 1], maxBytes);
    }
  }

  lemma {:induction false} PayloadsGrow(lines: seq<Bytes>, more: seq<Bytes>)
    requires lines <= more
    ensures Read(lines).payloads <= Read(more).payloads
  {
    if lines != more {
      assert lines <= more[..|more| - 1];
      PayloadsGrow(lines, more[..|more| - 1]);
    }
  }

  lemma {:induction false} DecodeFails<E>(decode: Bytes -> Option<E>, payloads: seq<Bytes>, more: seq<Bytes>)
    requires payloads <= more && DecodeAll(decode, payloads).None?
    ensures DecodeAll(decode, more).None?
  {
    if payloads != more {
      assert payloads <= more[..|more| - 1];
      DecodeFails(decode, payloads, more[..|more| - 1]);
    }
  }

  lemma FailureStays<E>(decode: Bytes -> Option<E>, payloads: seq<Bytes>, lines: seq<Bytes>, rest: seq<Bytes>, maxBytes: nat, size: nat)
    requires payloads == Read(lines).payloads && DecodeAll(decode, payloads).None?
    requires Total(lines) <= maxBytes
    ensures DecodeAll(decode, Dispatch(Read(lines + rest)).payloads).None?
    ensures DecodeAll(decode, Read(Within(lines + rest, maxBytes)).payloads).None?
  {
    WithinKeeps(lines, rest, maxBytes);
    PayloadsGrow(lines, Within(lines + rest, maxBytes));
    PayloadsGrow(lines, lines + rest);
    DecodeFails(decode, payloads, Read(Within(lines + rest, maxBytes)).payloads);
    DecodeFails(decode, payloads, Dispatch(Read(lines + rest)).payloads);
  }
}
