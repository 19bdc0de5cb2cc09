/** Writing an event stream and reading it back. */
module EventStreamRoundTrip {
  import opened Prelude
  import opened EventStream

  /** One line as a server may write it, ended by LF or by CR LF. */
  datatype Row =
    | Data(value: Bytes, spaced: bool, crlf: bool)
    | Noise(text: Bytes, crlf: bool)
    | End(crlf: bool)

  /** A `data` row holds one line, spaced if its value starts with a space; noise is a comment or some
      other field. */
  predicate Legal(row: Row) {
    match row
    case Data(value, spaced, _) => LF !in value && (!spaced ==> value == [] || value[0] != Blank)
    case Noise(text, _) => LF !in text && Stripped(text) != [] && !(DataField <= Stripped(text))
    case End(_) => true
  }

  function Text(row: Row): Bytes {
    match row
    case Data(value, spaced, _) => DataField + (if spaced then [Blank] else []) + value
    case Noise(text, _) => text
    case End(_) => []
  }

  function Eol(row: Row): Bytes {
    if row.crlf then [CR, LF] else [LF]
  }

  function Render(rows: seq<Row>): Bytes {
    if rows == [] then [] else Render(rows[..|rows| - 1]) + Text(rows[|rows| - 1]) + Eol(rows[|rows| - 1])
  }

  /** What a row means, however it is written: a line of data, the end of an event, or nothing. */
  datatype Sign = Line(value: Bytes) | Stop

  function Signs(rows: seq<Row>): seq<Sign> {
    if rows == [] then []
    else
      var before := Signs(rows[..|rows| - 1]);
      match rows[|rows| - 1]
      case Data(value, _, _) => before + [Line(value)]
      case Noise(_, _) => before
      case End(_) => before + [Stop]
  }

  /** The lines of a payload, of which there is at least one. */
  function Split(payload: Bytes): (parts: seq<Bytes>)
    ensures parts != []
    ensures forall part | part in parts :: LF !in part
    ensures Join(parts) == payload
    decreases |payload|
  {
    var n := FirstLF(payload);
    if n == |payload| then [payload]
    else
      assert payload == payload[..n] + [LF] + payload[n + 1..];
      [payload[..n]] + Split(payload[n + 1..])
  }

  function Quoted(parts: seq<Bytes>): seq<Sign> {
    seq(|parts|, k requires 0 <= k < |parts| => Line(parts[k]))
  }

  /** Each payload as its lines of data and the end of the event. */
  function Written(payloads: seq<Bytes>): seq<Sign> {
    if payloads == [] then []
    else Written(payloads[..|payloads| - 1]) + Quoted(Split(payloads[|payloads| - 1])) + [Stop]
  }

  /** The rows write these payloads; the end of the last event may be missing. */
  predicate Writes(rows: seq<Row>, payloads: seq<Bytes>) {
    (forall row | row in rows :: Legal(row)) && (Signs(rows) == Written(payloads) || Signs(rows) + [Stop] == Written(payloads))
  }

  predicate EndsInCR(line: Bytes) {
    line != [] && line[|line| - 1] == CR
  }

  predicate KeepsItsLines(payload: Bytes) {
    forall line | line in Split(payload) :: !EndsInCR(line)
  }

  /** A payload as it arrives: every line loses its trailing CRs. */
  function Trimmed(payload: Bytes): Bytes {
    Join(TrimmedLines(Split(payload)))
  }

  function TrimmedLines(parts: seq<Bytes>): seq<Bytes> {
    seq(|parts|, k requires 0 <= k < |parts| => Stripped(parts[k]))
  }

  function AllTrimmed(payloads: seq<Bytes>): seq<Bytes> {
    seq(|payloads|, k requires 0 <= k < |payloads| => Trimmed(payloads[k]))
  }

  // ----- how one row is read -----

  lemma {:induction false} StrippedShort(line: Bytes)
    ensures |Stripped(line)| <= |line|
    ensures LF !in line ==> if EndsInCR(line) then |Stripped(line)| < |line| else Stripped(line) == line
  {
    if line != [] && (line[|line| - 1] == CR || line[|line| - 1] == LF) {
      StrippedShort(line[..|line| - 1]);
    }
  }

  lemma {:induction false} StrippedPrefix(head: Bytes, tail: Bytes)
    requires head == [] || (head[|head| - 1] != CR && head[|head| - 1] != LF)
    ensures Stripped(head + tail) == head + Stripped(tail)
  {
    if tail == [] {
      assert head + tail == head;
    } else {
      assert (head + tail)[..|head + tail| - 1] == head + tail[..|tail| - 1];
      if tail[|tail| - 1] == CR || tail[|tail| - 1] == LF {
        StrippedPrefix(head, tail[..|tail| - 1]);
      }
    }
  }

  lemma StrippedRow(row: Row)
    ensures Stripped(Text(row) + Eol(row)) == Stripped(Text(row))
  {
    hide Text;
    var text := Text(row);
    if row.crlf {
      assert (text + [CR, LF])[..|text| + 1] == text + [CR];
      assert (text + [CR])[..|text|] == text;
    } else {
      assert (text + [LF])[..|text|] == text;
    }
  }

  function After(reader: Reader, row: Row): Reader {
    match row
    case Data(value, _, _) => reader.(open := reader.open + [Stripped(value)])
    case Noise(_, _) => reader
    case End(_) => Dispatch(reader)
  }

  lemma OneLineOnly(row: Row)
    requires Legal(row)
    ensures LF !in Text(row)
  {
  }

  lemma FeedRow(reader: Reader, row: Row)
    requires Legal(row)
    ensures Feed(reader, Text(row) + Eol(row)) == After(reader, row)
  {
    StrippedRow(row);
    if row.Data? {
      var head := DataField + (if row.spaced then [Blank] else []);
      StrippedPrefix(head, row.value);
      FirstStays(row.value);
      var stripped := head + Stripped(row.value);
      assert DataField <= stripped;
      assert stripped[5..] == (if row.spaced then [Blank] else []) + Stripped(row.value);
    }
  }

  lemma {:induction false} FirstStays(line: Bytes)
    ensures Stripped(line) <= line
  {
    if line != [] && (line[|line| - 1] == CR || line[|line| - 1] == LF) {
      FirstStays(line[..|line| - 1]);
    }
  }

  // ----- how a rendered stream is cut into lines -----

  lemma {:induction false} FirstLFAt(s: Bytes, n: nat)
    requires n < |s| && s[n] == LF && forall i | 0 <= i < n :: s[i] != LF
    ensures FirstLF(s) == n
  {
    if 0 < n {
      FirstLFAt(s[1..], n - 1);
    }
  }

  lemma FirstLineOff(s: Bytes, n: nat)
    requires n < |s| && s[n] == LF && forall i | 0 <= i < n :: s[i] != LF
    ensures Lines(s) == [s[..n + 1]] + Lines(s[n + 1..])
  {
    FirstLFAt(s, n);
  }

  lemma OneLine(line: Bytes)
    requires LF !in line
    ensures Lines(line) == if line == [] then [] else [line]
    ensures Lines(line + [LF]) == [line + [LF]]
  {
    var s := line + [LF];
    FirstLineOff(s, |line|);
    assert s[..|line| + 1] == s && s[|line| + 1..] == [];
  }

  lemma CutFirst(a: Bytes, b: Bytes) returns (line: Bytes, rest: Bytes)
    requires a != [] && a[|a| - 1] == LF
    ensures |rest| < |a| && (rest == [] || rest[|rest| - 1] == LF)
    ensures Lines(a) == [line] + Lines(rest)
    ensures Lines(a + b) == [line] + Lines(rest + b)
  {
    hide Lines;
    var n := FirstLF(a);
    line, rest := a[..n + 1], a[n + 1..];
    FirstLineOff(a, n);
    FirstLineOff(a + b, n);
    assert (a + b)[..n + 1] == line;
    assert (a + b)[n + 1..] == rest + b;
  }

  lemma NothingToRead()
    ensures Lines([]) == []
  {
  }

  lemma {:induction false} LinesConcat(a: Bytes, b: Bytes)
    requires a == [] || a[|a| - 1] == LF
    ensures Lines(a + b) == Lines(a) + Lines(b)
    decreases |a|
  {
    NothingToRead();
    hide *;
    if a == [] {
      assert a + b == b;
    } else {
      var line, rest := CutFirst(a, b);
      LinesConcat(rest, b);
    }
  }

  lemma {:induction false} RenderEnds(rows: seq<Row>)
    ensures rows == [] ==> Render(rows) == []
    ensures rows != [] ==> Render(rows) != [] && Render(rows)[|Render(rows)| - 1] == LF
  {
  }

  lemma RowIsLine(row: Row)
    requires Legal(row)
    ensures Lines(Text(row) + Eol(row)) == [Text(row) + Eol(row)]
  {
    OneLineOnly(row);
    var core := if row.crlf then Text(row) + [CR] else Text(row);
    assert LF !in core;
    assert Text(row) + Eol(row) == core + [LF];
    hide *;
    OneLine(core);
  }

  ghost function Run(rows: seq<Row>): Reader {
    if rows == [] then Reader([], []) else After(Run(rows[..|rows| - 1]), rows[|rows| - 1])
  }

  lemma {:induction false} ReadRendered(rows: seq<Row>)
    requires forall row | row in rows :: Legal(row)
    ensures Read(Lines(Render(rows))) == Run(rows)
  {
    if rows != [] {
      var init, row := rows[..|rows| - 1], rows[|rows| - 1];
      ReadRendered(init);
      RenderEnds(init);
      RowIsLine(row);
      LinesConcat(Render(init), Text(row) + Eol(row));
      assert Render(rows) == Render(init) + (Text(row) + Eol(row));
      FeedRow(Run(init), row);
      ReadNext(Lines(Render(init)), Text(row) + Eol(row));
      hide Feed, Lines, Read, Text, Eol, Render, Stripped;
    }
  }

  // ----- what the rows mean -----

  function Obey(signs: seq<Sign>): Reader {
    if signs == [] then Reader([], [])
    else
      var reader := Obey(signs[..|signs| - 1]);
      match signs[|signs| - 1]
      case Line(value) => reader.(open := reader.open + [Stripped(value)])
      case Stop => Dispatch(reader)
  }

  lemma {:induction false} RunObeys(rows: seq<Row>)
    ensures Run(rows) == Obey(Signs(rows))
  {
    if rows != [] {
      RunObeys(rows[..|rows| - 1]);
      var before := Signs(rows[..|rows| - 1]);
      assert Signs(rows) != before ==> Signs(rows)[..|Signs(rows)| - 1] == before;
    }
  }

  lemma {:induction false} ObeyQuoted(signs: seq<Sign>, parts: seq<Bytes>)
    ensures Obey(signs + Quoted(parts)) == Obey(signs).(open := Obey(signs).open + TrimmedLines(parts))
  {
    if parts == [] {
      assert signs + Quoted(parts) == signs;
    } else {
      var init := parts[..|parts| - 1];
      var all := signs + Quoted(parts);
      assert all[..|all| - 1] == signs + Quoted(init);
      ObeyQuoted(signs, init);
      assert TrimmedLines(parts) == TrimmedLines(init) + [Stripped(parts[|parts| - 1])];
    }
  }

  lemma ObeyStop(signs: seq<Sign>)
    ensures Obey(signs + [Stop]) == Dispatch(Obey(signs))
  {
    assert (signs + [Stop])[..|signs|] == signs;
  }

  lemma ObeyEvent(signs: seq<Sign>, payload: Bytes)
    requires Obey(signs).open == []
    ensures Obey(signs + Quoted(Split(payload)) + [Stop]) == Reader(Obey(signs).payloads + [Trimmed(payload)], [])
  {
    hide Obey, Stripped, Join;
    ObeyQuoted(signs, Split(payload));
    ObeyStop(signs + Quoted(Split(payload)));
    assert [] + TrimmedLines(Split(payload)) == TrimmedLines(Split(payload));
  }

  lemma NothingWritten()
    ensures Obey(Written([])) == Reader(AllTrimmed([]), [])
  {
  }

  lemma {:induction false} ObeyWritten(payloads: seq<Bytes>)
    ensures Obey(Written(payloads)) == Reader(AllTrimmed(payloads), [])
  {
    if payloads == [] {
      NothingWritten();
    } else {
      var init, last := payloads[..|payloads| - 1], payloads[|payloads| - 1];
      assert Written(payloads) == Written(init) + Quoted(Split(last)) + [Stop];
      assert AllTrimmed(payloads) == AllTrimmed(init) + [Trimmed(last)];
      hide *;
      ObeyWritten(init);
      ObeyEvent(Written(init), last);
    }
  }

  /** Noise anywhere, either line ending, either spelling of a data line, and a missing last blank line
      make no difference: each payload arrives with the trailing CRs of its lines removed. */
  lemma ReadBackTrimmed(rows: seq<Row>, payloads: seq<Bytes>)
    requires Writes(rows, payloads)
    ensures Payloads(Render(rows)) == AllTrimmed(payloads)
  {
    ReadRendered(rows);
    RunObeys(rows);
    ObeyWritten(payloads);
    if Signs(rows) != Written(payloads) {
      var all := Signs(rows) + [Stop];
      assert all[..|all| - 1] == Signs(rows);
    }
  }

  /** One way to write payloads: a spaced row for each line, and a blank line after each payload. */
  function RowsFor(payloads: seq<Bytes>): seq<Row> {
    if payloads == [] then []
    else RowsFor(payloads[..|payloads| - 1]) + DataRows(Split(payloads[|payloads| - 1])) + [End(false)]
  }

  function DataRows(parts: seq<Bytes>): seq<Row> {
    seq(|parts|, k requires 0 <= k < |parts| => Data(parts[k], true, false))
  }

  lemma {:induction false} SignsConcat(a: seq<Row>, b: seq<Row>)
    ensures Signs(a + b) == Signs(a) + Signs(b)
  {
    if b == [] {
      assert a + b == a;
    } else {
      assert (a + b)[..|a + b| - 1] == a + b[..|b| - 1];
      SignsConcat(a, b[..|b| - 1]);
    }
  }

  lemma {:induction false} SignsOfData(parts: seq<Bytes>)
    ensures Signs(DataRows(parts)) == Quoted(parts)
  {
    if parts != [] {
      var init := parts[..|parts| - 1];
      SignsOfData(init);
      assert DataRows(parts)[..|parts| - 1] == DataRows(init);
      assert Quoted(parts) == Quoted(init) + [Line(parts[|parts| - 1])];
    }
  }

  lemma {:induction false} RowsAreLegal(payloads: seq<Bytes>)
    ensures forall row | row in RowsFor(payloads) :: Legal(row)
  {
    if payloads != [] {
      RowsAreLegal(payloads[..|payloads| - 1]);
      var data := DataRows(Split(payloads[|payloads| - 1]));
      forall row | row in data ensures Legal(row) {
        var k :| 0 <= k < |data| && data[k] == row;
        assert Split(payloads[|payloads| - 1])[k] in Split(payloads[|payloads| - 1]);
      }
      hide Split, DataRows, Legal;
      assert forall row | row in RowsFor(payloads) :: row in RowsFor(payloads[..|payloads| - 1]) || row in data || row == End(false);
      EndIsLegal();
    }
  }

  lemma EndIsLegal()
    ensures Legal(End(false))
  {
  }

  /** Any payloads can be written, with or without the last blank line. */
  lemma AnyPayloadsCanBeWritten(payloads: seq<Bytes>)
    ensures Writes(RowsFor(payloads), payloads)
    ensures payloads != [] ==> var rows := RowsFor(payloads); rows != [] && Writes(rows[..|rows| - 1], payloads)
  {
    RowsAreLegal(payloads);
    SignsWhole(payloads);
    if payloads != [] {
      var rows := RowsFor(payloads);
      assert rows[|rows| - 1] == End(false);
      hide RowsFor, Written, Legal;
      assert Signs(rows) == Signs(rows[..|rows| - 1]) + [Stop];
    }
  }

  lemma {:induction false} SignsWhole(payloads: seq<Bytes>)
    ensures Signs(RowsFor(payloads)) == Written(payloads)
  {
    if payloads != [] {
      var init, last := payloads[..|payloads| - 1], payloads[|payloads| - 1];
      SignsWhole(init);
      SignsOfData(Split(last));
      SignsConcat(RowsFor(init), DataRows(Split(last)));
      SignsConcat(RowsFor(init) + DataRows(Split(last)), [End(false)]);
      assert Signs([]) == [] && [End(false)][..0] == [];
      assert Signs([End(false)]) == [Stop];
    }
  }

  lemma {:induction false} JoinShrinks(parts: seq<Bytes>)
    requires forall part | part in parts :: LF !in part
    ensures |Join(TrimmedLines(parts))| <= |Join(parts)|
    ensures |Join(TrimmedLines(parts))| == |Join(parts)| <==> forall part | part in parts :: !EndsInCR(part)
    ensures (forall part | part in parts :: !EndsInCR(part)) ==> TrimmedLines(parts) == parts
  {
    if parts != [] {
      StrippedShort(parts[0]);
      var rest := parts[1..];
      JoinShrinks(rest);
      assert TrimmedLines(parts)[0] == Stripped(parts[0]);
      assert forall part :: part in parts <==> part == parts[0] || part in rest;
      assert TrimmedLines(parts)[1..] == TrimmedLines(rest);
      assert parts == [parts[0]] + rest;
    }
  }

  lemma TrimmedIsIdentity(payload: Bytes)
    ensures Trimmed(payload) == payload <==> KeepsItsLines(payload)
  {
    JoinShrinks(Split(payload));
  }

  /** The round trip: what was written is what is read exactly when no payload has a line that ends in CR. */
  lemma RoundTrip(rows: seq<Row>, payloads: seq<Bytes>)
    requires Writes(rows, payloads)
    ensures Payloads(Render(rows)) == payloads <==> forall payload | payload in payloads :: KeepsItsLines(payload)
  {
    ReadBackTrimmed(rows, payloads);
    forall k | 0 <= k < |payloads|
      ensures AllTrimmed(payloads)[k] == payloads[k] <==> KeepsItsLines(payloads[k])
    {
      TrimmedIsIdentity(payloads[k]);
    }
    if forall payload | payload in payloads :: KeepsItsLines(payload) {
      assert AllTrimmed(payloads) == payloads;
    }
  }

  /** Within the size limit the client receives the object of each payload, in order. */
  lemma ReceivedAsWritten<E>(rows: seq<Row>, payloads: seq<Bytes>, maxBytes: nat, decode: Bytes -> Option<E>)
    requires Writes(rows, payloads) && forall payload | payload in payloads :: KeepsItsLines(payload)
    ensures |Render(rows)| <= maxBytes ==>
      Received(Render(rows), maxBytes, decode)
        == if DecodeAll(decode, payloads).Some? then Ok(DecodeAll(decode, payloads).value) else Err(NotAnObject)
    ensures |Render(rows)| > maxBytes ==> Received(Render(rows), maxBytes, decode).Err?
  {
    RoundTrip(rows, payloads);
  }

  lemma {:induction false} CutLastLine(stream: Bytes) returns (n: nat)
    ensures n <= |stream| && LF !in stream[n..] && (n == 0 || stream[n - 1] == LF)
  {
    if stream == [] || stream[|stream| - 1] == LF {
      n := |stream|;
    } else {
      n := CutLastLine(stream[..|stream| - 1]);
      assert stream[n..] == stream[..|stream| - 1][n..] + [stream[|stream| - 1]];
    }
  }

  /** End of input stands for a last line feed, whether the stream stops inside a line or inside an event. */
  lemma EndOfInputDispatches(stream: Bytes)
    ensures Payloads(stream + [LF]) == Payloads(stream)
  {
    var n := CutLastLine(stream);
    var head, tail := stream[..n], stream[n..];
    assert stream == head + tail && stream + [LF] == head + (tail + [LF]);
    LinesConcat(head, tail);
    LinesConcat(head, tail + [LF]);
    OneLine(tail);
    LastFeed(Lines(head), tail);
  }

  lemma LastFeed(lines: seq<Bytes>, tail: Bytes)
    ensures Dispatch(Read(lines + [tail + [LF]])).payloads == Dispatch(Read(lines + (if tail == [] then [] else [tail]))).payloads
  {
    ReadNext(lines, tail + [LF]);
    assert (tail + [LF])[..|tail|] == tail;
    assert Stripped(tail + [LF]) == Stripped(tail);
    if tail == [] {
      assert lines + [] == lines;
    } else {
      ReadNext(lines, tail);
    }
  }

  /** UTF-8 of a code point with three bytes. */
  function Utf8OfThree(code: nat): Bytes
    requires 0x800 <= code < 0x10000
  {
    [(0xE0 + code / 4096) as Byte, (0x80 + code / 64 % 64) as Byte, (0x80 + code % 64) as Byte]
  }

  /** U+FEFF in UTF-8. */
  const ByteOrderMark: Bytes := [239, 187, 191]

  /** A byte order mark is not skipped: a line that begins with one is ignored, whatever it says, where the
      standard ignores the mark. */
  lemma ByteOrderMarkHidesLine(line: Bytes, rest: Bytes)
    requires LF !in line
    ensures Payloads(ByteOrderMark + line + [LF] + rest) == Payloads(rest)
    ensures ByteOrderMark == Utf8OfThree(0xFEFF)
  {
    MarkedIsNoData(line);
    hide *;
    IgnoredLine(ByteOrderMark + line, rest);
  }

  lemma MarkedIsNoData(line: Bytes)
    requires LF !in line
    ensures var marked := ByteOrderMark + line; LF !in marked && Stripped(marked) != [] && !(DataField <= Stripped(marked))
  {
    StrippedPrefix(ByteOrderMark, line);
    hide Stripped;
    assert (ByteOrderMark + Stripped(line))[0] == 239;
  }

  /** A line with `data` and no colon is ignored, where the standard adds an empty line of data. */
  lemma BareDataIsIgnored(rest: Bytes)
    ensures Payloads([100, 97, 116, 97] + [LF] + rest) == Payloads(rest)
  {
    IgnoredLine([100, 97, 116, 97], rest);
  }

  lemma IgnoredLine(line: Bytes, rest: Bytes)
    requires LF !in line && Stripped(line) != [] && !(DataField <= Stripped(line))
    ensures Payloads(line + [LF] + rest) == Payloads(rest)
  {
    var text := line + [LF];
    OneLine(line);
    LinesConcat(text, rest);
    assert text[..|line|] == line;
    assert Stripped(text) == Stripped(line);
    FirstIgnored(text, Lines(rest));
  }

  lemma {:induction false} FirstIgnored(line: Bytes, lines: seq<Bytes>)
    requires Stripped(line) != [] && !(DataField <= Stripped(line))
    ensures Read([line] + lines) == Read(lines)
  {
    if lines == [] {
      assert [line] + lines == [] + [line];
      ReadNext([], line);
    } else {
      var n := |lines| - 1;
      assert [line] + lines == ([line] + lines[..n]) + [lines[n]];
      ReadNext([line] + lines[..n], lines[n]);
      FirstIgnored(line, lines[..n]);
    }
  }
}
