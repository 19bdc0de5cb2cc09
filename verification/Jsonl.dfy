// The JSONL codec of src/llm_harness/durable_io.py:70-97: records are written one per line, the file
// is read back with `splitlines`, and an append rewrites the whole file.

module Jsonl {
  import opened Prelude

  /** The separators that `json.dumps(..., ensure_ascii=False)` leaves raw and `splitlines` breaks on. */
  predicate WideBreak(c: char) {
    c == '\U{85}' || c == '\U{2028}' || c == '\U{2029}'
  }

  /** Every character `str.splitlines` breaks on. */
  predicate LineBreak(c: char) {
    c == '\n' || c == '\r' || c == '\U{0B}' || c == '\U{0C}' || ('\U{1C}' <= c <= '\U{1E}') || WideBreak(c)
  }

  /** Every character `str.strip` takes away. */
  predicate Space(c: char) {
    || LineBreak(c) || c == '\t' || c == '\U{1F}' || c == ' ' || c == '\U{A0}' || c == '\U{1680}'
    || '\U{2000}' <= c <= '\U{200A}' || c == '\U{202F}' || c == '\U{205F}' || c == '\U{3000}'
  }

  /** `not line.strip()` */
  predicate Blank(line: string) {
    forall c | c in line :: Space(c)
  }

  /** The position of the first line break, or the length. */
  function FirstBreak(text: string): (n: nat)
    ensures n <= |text| && (n < |text| ==> LineBreak(text[n]))
    ensures forall i | 0 <= i < n :: !LineBreak(text[i])
  {
    if text == "" || LineBreak(text[0]) then 0 else 1 + FirstBreak(text[1..])
  }

  /** `text.splitlines()` */
  function SplitLines(text: string): seq<string>
    decreases |text|
  {
    if text == "" then []
    else
      var n := FirstBreak(text);
      if n == |text| then [text]
      else if text[n] == '\r' && n + 1 < |text| && text[n + 1] == '\n' then [text[..n]] + SplitLines(text[n + 2..])
      else [text[..n]] + SplitLines(text[n + 1..])
  }

  /** The characters that break lines and those that count as space, by their code points. */
  lemma BreaksAndSpaces(c: char)
    ensures WideBreak(c) <==> c as int in [133, 8232, 8233]
    ensures LineBreak(c) <==> c as int in [10, 11, 12, 13, 28, 29, 30, 133, 8232, 8233]
    ensures Space(c) <==> LineBreak(c) || c as int in [9, 31, 32, 160, 5760, 8239, 8287, 12288] || 8192 <= c as int <= 8202
  {
  }

  /** How a text falls into lines: what stands before a line break is a line, CR LF is one break, and what is left
      at the end is a line if it is not empty. */
  lemma LinesOf(line: string, c: char, rest: string)
    requires forall x | x in line :: !LineBreak(x)
    ensures SplitLines(line) == if line == "" then [] else [line]
    ensures SplitLines(line + "\r\n" + rest) == [line] + SplitLines(rest)
    ensures LineBreak(c) && !(c == '\r' && rest != "" && rest[0] == '\n') ==> SplitLines(line + [c] + rest) == [line] + SplitLines(rest)
  {
    BreakAt(line, '\r', "\n" + rest);
    assert line + "\r\n" + rest == line + ['\r'] + ("\n" + rest);
    assert (line + "\r\n" + rest)[|line| + 2..] == rest && (line + "\r\n" + rest)[..|line|] == line;
    if LineBreak(c) {
      BreakAt(line, c, rest);
      assert (line + [c] + rest)[|line| + 1..] == rest && (line + [c] + rest)[..|line|] == line;
    }
    assert FirstBreak(line) == |line|;
  }

  lemma BreakAt(line: string, c: char, rest: string)
    requires LineBreak(c) && forall x | x in line :: !LineBreak(x)
    ensures FirstBreak(line + [c] + rest) == |line|
  {
    var text := line + [c] + rest;
    assert text[|line|] == c;
    assert forall i | 0 <= i < |line| :: text[i] == line[i];
  }

  /** A way to write records as single JSON texts and to read them back. */
  datatype Codec<!R> = Codec(encode: R -> string, decode: string -> Option<R>)

  /** What JSON guarantees: texts decode to what was encoded and are not blank; control characters are
      escaped, so the only line breaks left are the three wide ones; and those occur inside string
      literals only, so what stands before the first of them is no JSON text. */
  ghost predicate IsJson<R(!new)>(codec: Codec<R>) {
    && (forall r :: codec.decode(codec.encode(r)) == Some(r))
    && (forall r :: !Blank(codec.encode(r)))
    && (forall r, i | 0 <= i < |codec.encode(r)| && LineBreak(codec.encode(r)[i]) :: WideBreak(codec.encode(r)[i]))
    && (forall r :: FirstBreak(codec.encode(r)) < |codec.encode(r)| ==>
          var head := codec.encode(r)[..FirstBreak(codec.encode(r))];
          !Blank(head) && codec.decode(head).None?)
  }

  /** The records of the given lines, or the number of the first line that is not one. */
  function Decode<R>(codec: Codec<R>, lines: seq<string>): Result<seq<R>, nat> {
    if lines == [] then Ok([])
    else
      var n := |lines| - 1;
      var before := Decode(codec, lines[..n]);
      if before.Err? || Blank(lines[n]) then before
      else
        var record := codec.decode(lines[n]);
        if record.None? then Err(|lines|) else Ok(before.value + [record.value])
  }

  /** `read_jsonl` on the text of an existing file. */
  method ReadJsonl<R>(codec: Codec<R>, text: string) returns (result: Result<seq<R>, nat>)
    ensures result == Decode(codec, SplitLines(text))
  {
    var lines := SplitLines(text);
    var records: seq<R> := [];
    for k := 0 to |lines|
      invariant Decode(codec, lines[..k]) == Ok(records)
    {
      assert lines[..k + 1][..k] == lines[..k];
      if Blank(lines[k]) {
        continue;
      }
      var record := codec.decode(lines[k]);
      if record.None? {
        DecodeStops(codec, lines, k + 1);
        return Err(k + 1);
      }
      records := records + [record.value];
    }
    assert lines[..|lines|] == lines;
    return Ok(records);
  }

  lemma {:induction false} DecodeStops<R>(codec: Codec<R>, lines: seq<string>, k: nat)
    requires k <= |lines| && Decode(codec, lines[..k]).Err?
    ensures Decode(codec, lines) == Decode(codec, lines[..k])
  {
    if k < |lines| {
      var n := |lines| - 1;
      assert lines[..n][..k] == lines[..k];
      DecodeStops(codec, lines[..n], k);
    } else {
      assert lines[..k] == lines;
    }
  }

  /** The text of a log: each record's JSON text and a newline. */
  function Encode<R>(codec: Codec<R>, records: seq<R>): string {
    if records == [] then ""
    else codec.encode(records[0]) + "\n" + Encode(codec, records[1..])
  }

  predicate HasWideBreak(text: string) {
    exists c | c in text :: WideBreak(c)
  }

  /** No record of the log has a wide line break in its text. */
  ghost predicate Plain<R>(codec: Codec<R>, records: seq<R>) {
    forall k | 0 <= k < |records| :: !HasWideBreak(codec.encode(records[k]))
  }

  lemma SplitFirstLine(line: string, rest: string)
    requires forall i | 0 <= i < |line| :: !LineBreak(line[i])
    ensures SplitLines(line + "\n" + rest) == [line] + SplitLines(rest)
  {
    var text := line + "\n" + rest;
    FirstBreakAt(text, |line|);
    assert text[|line|] == '\n';
    assert text[..|line|] == line;
    assert text[|line| + 1..] == rest;
  }

  lemma {:induction false} FirstBreakAt(text: string, n: nat)
    requires n < |text| && LineBreak(text[n]) && forall i | 0 <= i < n :: !LineBreak(text[i])
    ensures FirstBreak(text) == n
  {
    if 0 < n {
      FirstBreakAt(text[1..], n - 1);
    }
  }

  lemma {:induction false} DecodePrepend<R>(codec: Codec<R>, line: string, rest: seq<string>)
    requires !Blank(line)
    ensures codec.decode(line).None? ==> Decode(codec, [line] + rest) == Err(1)
    ensures codec.decode(line).Some? && Decode(codec, rest).Ok? ==>
      Decode(codec, [line] + rest) == Ok([codec.decode(line).value] + Decode(codec, rest).value)
    ensures Decode(codec, rest).Err? ==> Decode(codec, [line] + rest).Err?
  {
    var all := [line] + rest;
    if rest == [] {
      assert all[..0] == [] && all == [line];
      if codec.decode(line).Some? {
        assert [codec.decode(line).value] + [] == [] + [codec.decode(line).value];
      }
    } else {
      var n := |rest| - 1;
      DecodePrepend(codec, line, rest[..n]);
      assert all[..|all| - 1] == [line] + rest[..n];
      assert all[|all| - 1] == rest[n];
      var head, before := codec.decode(line), Decode(codec, rest[..n]);
      if head.Some? && before.Ok? && codec.decode(rest[n]).Some? {
        var last := codec.decode(rest[n]).value;
        assert [head.value] + (before.value + [last]) == ([head.value] + before.value) + [last];
      }
    }
  }

  /** Reading back a log gives the records written, exactly when no record's text contains U+0085,
      U+2028 or U+2029; with such a record, reading fails. */
  lemma {:induction false} ReadBack<R(!new)>(codec: Codec<R>, records: seq<R>)
    requires IsJson(codec)
    ensures Decode(codec, SplitLines(Encode(codec, records))) == Ok(records) <==> Plain(codec, records)
    ensures !Plain(codec, records) ==> Decode(codec, SplitLines(Encode(codec, records))).Err?
  {
    if records != [] {
      var first, rest := codec.encode(records[0]), records[1..];
      ReadBack(codec, rest);
      assert records == [records[0]] + rest;
      assert Plain(codec, records) <==> !HasWideBreak(first) && Plain(codec, rest) by {
        assert forall k | 0 < k < |records| :: records[k] == rest[k - 1];
        assert forall k | 0 <= k < |rest| :: rest[k] == records[k + 1];
      }
      if HasWideBreak(first) {
        BrokenFirst(codec, records[0], Encode(codec, rest));
      } else {
        forall i | 0 <= i < |first| ensures !LineBreak(first[i]) {
          assert first[i] in first;
        }
        SplitFirstLine(first, Encode(codec, rest));
        DecodePrepend(codec, first, SplitLines(Encode(codec, rest)));
      }
    }
  }

  lemma BrokenFirst<R(!new)>(codec: Codec<R>, r: R, rest: string)
    requires IsJson(codec) && HasWideBreak(codec.encode(r))
    ensures Decode(codec, SplitLines(codec.encode(r) + "\n" + rest)).Err?
  {
    var first := codec.encode(r);
    var c :| c in first && WideBreak(c);
    var i :| 0 <= i < |first| && first[i] == c;
    var n := FirstBreak(first);
    assert n < |first|;
    var text := first + "\n" + rest;
    FirstBreakAt(text, n);
    assert WideBreak(first[n]);
    assert text[..n] == first[..n];
    DecodePrepend(codec, first[..n], SplitLines(text[n + 1..]));
  }

  function Content(text: Option<string>): string {
    if text.None? then "" else text.value
  }

  predicate Readable<R>(codec: Codec<R>, text: Option<string>) {
    Decode(codec, SplitLines(Content(text))).Ok?
  }

  /** The file after an append whose new text is renamed into place. */
  function Appended<R>(codec: Codec<R>, text: Option<string>, payload: R): Option<string> {
    if !Readable(codec, text) then text
    else Some(Encode(codec, Decode(codec, SplitLines(Content(text))).value + [payload]))
  }

  lemma FirstRecord<R>(codec: Codec<R>, payload: R)
    ensures Appended(codec, None, payload) == Some(codec.encode(payload) + "\n")
  {
    assert SplitLines("") == [] && Decode(codec, []) == Ok([]);
    assert Decode(codec, SplitLines(Content(None))).value + [payload] == [payload];
    assert Encode(codec, [payload]) == codec.encode(payload) + "\n" + Encode(codec, [payload][1..]);
    assert Encode(codec, [payload][1..]) == "";
    assert codec.encode(payload) + "\n" + "" == codec.encode(payload) + "\n";
  }

  /** The log file; `None` when it does not exist. */
  class LogFile<R> {
    var text: Option<string>

    /** `atomic_append_jsonl`: read everything, append, replace the file, sync the directory. A log that
        cannot be read stays as it is; otherwise the file changes exactly if the rename takes place, and
        the append returns exactly if the directory is synced after it. */
    method AtomicAppend(codec: Codec<R>, payload: R, renamed: bool, synced: bool) returns (ok: bool)
      modifies this
      ensures ok <==> Readable(codec, old(text)) && renamed && synced
      ensures text == if renamed then Appended(codec, old(text), payload) else old(text)
      ensures old(text).None? && renamed ==> text == Some(codec.encode(payload) + "\n")
    {
      FirstRecord(codec, payload);
      var records := ReadJsonl(codec, Content(text));
      if records.Err? || !renamed {
        return false;
      }
      text := Some(Encode(codec, records.value + [payload]));
      return synced;
    }
  }

  // ----- a whole log -----

  /** The file after a sequence of appends that are all renamed into place. */
  function AllAppended<R>(codec: Codec<R>, text: Option<string>, payloads: seq<R>): Option<string>
    decreases |payloads|
  {
    if payloads == [] then text else AllAppended(codec, Appended(codec, text, payloads[0]), payloads[1..])
  }

  /** How many of the payloads get into the file: all up to the first with a wide line break. */
  function Taken<R>(codec: Codec<R>, payloads: seq<R>): (n: nat)
    ensures n <= |payloads|
  {
    if payloads == [] then 0
    else if HasWideBreak(codec.encode(payloads[0])) then 1
    else 1 + Taken(codec, payloads[1..])
  }

  lemma {:induction false} UnreadableStays<R>(codec: Codec<R>, text: Option<string>, payloads: seq<R>)
    requires !Readable(codec, text)
    ensures AllAppended(codec, text, payloads) == text
    decreases |payloads|
  {
    if payloads != [] {
      UnreadableStays(codec, text, payloads[1..]);
    }
  }

  lemma OneAppended<R(!new)>(codec: Codec<R>, records: seq<R>, r: R)
    requires IsJson(codec) && Plain(codec, records)
    ensures Appended(codec, Some(Encode(codec, records)), r) == Some(Encode(codec, records + [r]))
    ensures Readable(codec, Some(Encode(codec, records)))
    ensures Readable(codec, Some(Encode(codec, records + [r]))) <==> !HasWideBreak(codec.encode(r))
    ensures Plain(codec, records + [r]) <==> !HasWideBreak(codec.encode(r))
  {
    ReadBack(codec, records);
    ReadBack(codec, records + [r]);
    assert (records + [r])[|records|] == r;
    hide SplitLines, Encode, Decode, HasWideBreak, IsJson;
  }

  lemma PlainSplits<R(!new)>(codec: Codec<R>, payloads: seq<R>)
    requires payloads != []
    ensures Plain(codec, payloads) <==> !HasWideBreak(codec.encode(payloads[0])) && Plain(codec, payloads[1..])
  {
    hide HasWideBreak;
    var rest := payloads[1..];
    assert forall k | 0 <= k < |rest| :: rest[k] == payloads[k + 1];
    assert forall k | 0 < k < |payloads| :: payloads[k] == rest[k - 1];
  }

  /** One record with U+0085, U+2028 or U+2029 is the last a log ever takes: the file holds everything
      appended up to it, and can be read, so that a further append can return, exactly if there was
      no such record. */
  lemma {:induction false} LogTakesUpToFirstWideBreak<R(!new)>(codec: Codec<R>, records: seq<R>, payloads: seq<R>)
    requires IsJson(codec) && Plain(codec, records)
    ensures var text := AllAppended(codec, Some(Encode(codec, records)), payloads);
      && text == Some(Encode(codec, records + payloads[..Taken(codec, payloads)]))
      && (Readable(codec, text) <==> Plain(codec, payloads))
    decreases |payloads|
  {
    hide HasWideBreak, IsJson, Plain, Readable, Encode, Appended;
    if payloads == [] {
      NothingAppended(codec, records);
      assert records + [] == records;
    } else {
      var next, rest := records + [payloads[0]], payloads[1..];
      OneAppended(codec, records, payloads[0]);
      PlainSplits(codec, payloads);
      if HasWideBreak(codec.encode(payloads[0])) {
        UnreadableStays(codec, Some(Encode(codec, next)), rest);
        assert payloads[..1] == [payloads[0]];
      } else {
        LogTakesUpToFirstWideBreak(codec, next, rest);
        assert next + rest[..Taken(codec, rest)] == records + payloads[..Taken(codec, payloads)];
      }
    }
  }

  lemma NothingAppended<R(!new)>(codec: Codec<R>, records: seq<R>)
    requires IsJson(codec) && Plain(codec, records)
    ensures Readable(codec, Some(Encode(codec, records))) && Plain(codec, [])
  {
    ReadBack(codec, records);
  }
}

/** JSON strings meet the assumptions made of the codec, so they can be met. */
module JsonStrings {
  import opened Prelude
  import opened Jsonl

  function HexDigit(n: nat): (c: char)
    requires n < 16
    ensures HexValue(c) == Some(n) && !LineBreak(c)
  {
    if n < 10 then (48 + n) as char else (87 + n) as char
  }

  function HexValue(c: char): Option<nat> {
    if '0' <= c <= '9' then Some((c - '0') as nat)
    else if 'a' <= c <= 'f' then Some(10 + (c - 'a') as nat)
    else None
  }

  /** One character of a string literal; everything at or above the space stands for itself, but for
      the quote and the backslash. */
  function Escape(c: char): string {
    if c == '\"' then "\\\""
    else if c == '\\' then "\\\\"
    else if c < ' ' then "\\u00" + [HexDigit(c as int / 16), HexDigit(c as int % 16)]
    else [c]
  }

  function EscapeAll(s: string): string {
    if s == "" then "" else Escape(s[0]) + EscapeAll(s[1..])
  }

  function Quote(s: string): string {
    "\"" + EscapeAll(s) + "\""
  }

  /** The rest of a string literal, up to its closing quote at the very end. */
  function Unescape(t: string): Option<string>
    decreases |t|
  {
    if t == "" then None
    else if t[0] == '\"' then (if |t| == 1 then Some("") else None)
    else if t[0] != '\\' then Push(t[0], Unescape(t[1..]))
    else if |t| < 2 then None
    else if t[1] == '\"' || t[1] == '\\' then Push(t[1], Unescape(t[2..]))
    else if |t| < 6 || t[..4] != "\\u00" || HexValue(t[4]).None? || HexValue(t[5]).None? then None
    else Push((HexValue(t[4]).value * 16 + HexValue(t[5]).value) as char, Unescape(t[6..]))
  }

  function Push(c: char, rest: Option<string>): Option<string> {
    if rest.None? then None else Some([c] + rest.value)
  }

  function Unquote(t: string): Option<string> {
    if t == "" || t[0] != '\"' then None else Unescape(t[1..])
  }

  lemma UnescapeOne(c: char, rest: string)
    ensures Unescape(Escape(c) + rest) == Push(c, Unescape(rest))
  {
    var t := Escape(c) + rest;
    if c == '\"' || c == '\\' {
      assert t[2..] == rest;
    } else if c < ' ' {
      assert t[..4] == "\\u00";
      assert t[6..] == rest;
    } else {
      assert t[1..] == rest;
    }
  }

  lemma {:induction false} UnescapeAll(s: string, rest: string)
    ensures rest == "\"" ==> Unescape(EscapeAll(s) + rest) == Some(s)
    ensures rest == "" ==> Unescape(EscapeAll(s) + rest) == None
  {
    if s == "" {
      assert EscapeAll(s) + rest == rest;
    } else {
      UnescapeAll(s[1..], rest);
      UnescapeOne(s[0], EscapeAll(s[1..]) + rest);
      assert EscapeAll(s) + rest == Escape(s[0]) + (EscapeAll(s[1..]) + rest);
      assert s == [s[0]] + s[1..];
    }
  }

  /** An escaped character is a wide line break itself, or has no line break in it. */
  lemma EscapeIsPlain(c: char)
    ensures WideBreak(c) ==> Escape(c) == [c]
    ensures !WideBreak(c) ==> forall i | 0 <= i < |Escape(c)| :: !LineBreak(Escape(c)[i])
  {
  }

  lemma {:induction false} BreaksAreWide(s: string)
    ensures forall i | 0 <= i < |EscapeAll(s)| && LineBreak(EscapeAll(s)[i]) :: WideBreak(EscapeAll(s)[i])
  {
    if s != "" {
      var first, rest := Escape(s[0]), EscapeAll(s[1..]);
      EscapeIsPlain(s[0]);
      BreaksAreWide(s[1..]);
      forall i | 0 <= i < |first + rest| && LineBreak((first + rest)[i]) ensures WideBreak((first + rest)[i]) {
        assert (first + rest)[i] == if i < |first| then first[i] else rest[i - |first|];
      }
    }
  }

  /** What stands before the first line break of an escaped text is an escaped text. */
  lemma {:induction false} HeadIsEscaped(s: string) returns (head: string)
    ensures EscapeAll(s)[..FirstBreak(EscapeAll(s))] == EscapeAll(head)
  {
    head := "";
    if s != "" {
      var first, rest := Escape(s[0]), EscapeAll(s[1..]);
      EscapeIsPlain(s[0]);
      if WideBreak(s[0]) {
        assert (first + rest)[0] == s[0];
      } else {
        var tail := HeadIsEscaped(s[1..]);
        head := [s[0]] + tail;
        BreakAfter(first, rest);
        assert head[1..] == tail;
        assert (first + rest)[..FirstBreak(first + rest)] == first + rest[..FirstBreak(rest)];
      }
    }
  }

  lemma {:induction false} BreakAfter(first: string, rest: string)
    requires forall i | 0 <= i < |first| :: !LineBreak(first[i])
    ensures FirstBreak(first + rest) == |first| + FirstBreak(rest)
  {
    if first == "" {
      assert first + rest == rest;
    } else {
      assert (first + rest)[1..] == first[1..] + rest;
      BreakAfter(first[1..], rest);
    }
  }

  lemma QuoteRoundTrip(s: string)
    ensures Unquote(Quote(s)) == Some(s) && !Blank(Quote(s))
  {
    var q := Quote(s);
    assert q[1..] == EscapeAll(s) + "\"";
    UnescapeAll(s, "\"");
    assert q[0] == '\"' && q[0] in q;
  }

  lemma QuoteBreaks(s: string, i: nat)
    requires i < |Quote(s)| && LineBreak(Quote(s)[i])
    ensures WideBreak(Quote(s)[i])
  {
    BreaksAreWide(s);
    assert Quote(s)[i] == EscapeAll(s)[i - 1];
  }

  lemma QuoteHead(s: string)
    requires FirstBreak(Quote(s)) < |Quote(s)|
    ensures !Blank(Quote(s)[..FirstBreak(Quote(s))]) && Unquote(Quote(s)[..FirstBreak(Quote(s))]).None?
  {
    BreakOfQuote(s);
    var n := FirstBreak(EscapeAll(s));
    var head := HeadIsEscaped(s);
    hide FirstBreak, EscapeAll;
    var part := Quote(s)[..n + 1];
    assert part == "\"" + EscapeAll(head);
    assert part[0] == '\"' && part[0] in part;
    assert part[1..] == EscapeAll(head) + "";
    UnescapeAll(head, "");
  }

  lemma BreakOfQuote(s: string)
    ensures FirstBreak(Quote(s)) < |Quote(s)| ==> FirstBreak(Quote(s)) == 1 + FirstBreak(EscapeAll(s))
  {
    hide EscapeAll;
    var body := EscapeAll(s);
    var n := FirstBreak(body);
    assert Quote(s) == "\"" + (body + "\"");
    BreakAfter("\"", body + "\"");
    if n == |body| {
      BreakAfter(body, "\"");
    } else {
      FirstBreakAt(body + "\"", n);
    }
  }

  /** The assumptions hold of strings written and read this way. */
  lemma StringsAreJson()
    ensures IsJson(Codec(Quote, Unquote))
  {
    forall s: string ensures Unquote(Quote(s)) == Some(s) && !Blank(Quote(s)) {
      QuoteRoundTrip(s);
    }
    forall s: string, i | 0 <= i < |Quote(s)| && LineBreak(Quote(s)[i]) ensures WideBreak(Quote(s)[i]) {
      QuoteBreaks(s, i);
    }
    forall s: string | FirstBreak(Quote(s)) < |Quote(s)|
      ensures !Blank(Quote(s)[..FirstBreak(Quote(s))]) && Unquote(Quote(s)[..FirstBreak(Quote(s))]).None?
    {
      QuoteHead(s);
    }
  }
}
