/** Newline framing of the code-mode protocol: a reader over a stream that arrives in chunks, whose answer
    depends on the stream alone, and the writer it undoes. */
module Framing {
  import opened Options
  import opened Utf8
  import Json

  const MAX_FRAME_BYTES: nat := 1024 * 1024
  const NEWLINE: byte := 10
  const RETURN: byte := 13

  datatype Frame = Eof | Text(text: string) | TooLong | Unterminated | NotUtf8

  /** The index of the first newline, or the length. */
  function FirstNewline(s: seq<byte>): (n: nat)
    ensures n <= |s|
    ensures forall i :: 0 <= i < n ==> s[i] != NEWLINE
    ensures n < |s| ==> s[n] == NEWLINE
  {
    if s == [] || s[0] == NEWLINE then 0 else 1 + FirstNewline(s[1..])
  }

  lemma FirstNewlineIs(s: seq<byte>, n: nat)
    requires n <= |s| && (forall i :: 0 <= i < n ==> s[i] != NEWLINE) && (n < |s| ==> s[n] == NEWLINE)
    ensures FirstNewline(s) == n
  {
  }

  lemma {:induction false} FirstNewlineAppend(a: seq<byte>, b: seq<byte>)
    ensures FirstNewline(a + b) == if FirstNewline(a) < |a| then FirstNewline(a) else |a| + FirstNewline(b)
  {
    if a == [] {
      assert a + b == b;
    } else if a[0] != NEWLINE {
      assert (a + b)[1..] == a[1..] + b;
      FirstNewlineAppend(a[1..], b);
    }
  }

  function StripReturn(s: seq<byte>): seq<byte> {
    if s != [] && s[|s| - 1] == RETURN then s[..|s| - 1] else s
  }

  function Decoded(content: seq<byte>): Frame {
    var text := Decode(StripReturn(content));
    if text.Some? then Text(text.value) else NotUtf8
  }

  /** The bytes of a frame, before they are decoded. */
  datatype Line = Content(bytes: seq<byte>) | NoContent(reason: Frame)

  function LineOf(stream: seq<byte>): Line {
    var n := FirstNewline(stream);
    if stream == [] then NoContent(Eof)
    else if n > MAX_FRAME_BYTES then NoContent(TooLong)
    else if n == |stream| then NoContent(Unterminated)
    else Content(stream[..n])
  }

  /** The next frame of a stream, however it will be split. */
  function FrameOf(stream: seq<byte>): Frame {
    var line := LineOf(stream);
    if line.Content? then Decoded(line.bytes) else line.reason
  }

  /** When there is no frame, and why. */
  lemma FrameFaults(stream: seq<byte>)
    ensures FrameOf(stream).Eof? <==> stream == []
    ensures FrameOf(stream).TooLong? <==>
              |stream| > MAX_FRAME_BYTES && forall i :: 0 <= i <= MAX_FRAME_BYTES ==> stream[i] != NEWLINE
    ensures FrameOf(stream).Unterminated? <==> stream != [] && |stream| <= MAX_FRAME_BYTES && NEWLINE !in stream
  {
    var n := FirstNewline(stream);
    assert n == |stream| <==> NEWLINE !in stream;
  }

  function Concat(chunks: seq<seq<byte>>): seq<byte> {
    if chunks == [] then [] else chunks[0] + Concat(chunks[1..])
  }

  /** A buffered input: the chunks still to come, none of them empty. */
  class ChunkedInput {
    var chunks: seq<seq<byte>>

    ghost predicate Valid()
      reads this
    {
      forall i :: 0 <= i < |chunks| ==> chunks[i] != []
    }

    ghost function Stream(): seq<byte>
      reads this
    {
      Concat(chunks)
    }

    constructor (chunks: seq<seq<byte>>)
      requires forall i :: 0 <= i < |chunks| ==> chunks[i] != []
      ensures Valid() && Stream() == Concat(chunks)
    {
      this.chunks := chunks;
    }

    /** What is buffered, empty only at the end of input. */
    method FillBuf() returns (available: seq<byte>)
      requires Valid()
      ensures available == if chunks == [] then [] else chunks[0]
      ensures available == [] <==> Stream() == []
    {
      available := if chunks == [] then [] else chunks[0];
    }

    method Consume(n: nat)
      requires Valid() && chunks != [] && n <= |chunks[0]|
      modifies this
      ensures Valid() && Stream() == old(Stream())[n..]
    {
      var rest := chunks[0][n..];
      if rest == [] {
        chunks := chunks[1..];
      } else {
        chunks := [rest] + chunks[1..];
      }
    }
  }

  /** Reads one frame. The answer is a function of the stream, and a frame that was read is exactly
      consumed. */
  method ReadFrame(input: ChunkedInput) returns (frame: Frame)
    requires input.Valid()
    modifies input
    ensures input.Valid()
    ensures frame == FrameOf(old(input.Stream()))
    ensures frame.Text? || frame.NotUtf8? ==>
              && FirstNewline(old(input.Stream())) < |old(input.Stream())|
              && input.Stream() == old(input.Stream())[FirstNewline(old(input.Stream())) + 1..]
    ensures frame.Eof? ==> input.Stream() == []
  {
    var line := ReadLine(input);
    return if line.Content? then Decoded(line.bytes) else line.reason;
  }

  /** The reading loop. */
  method ReadLine(input: ChunkedInput) returns (line: Line)
    requires input.Valid()
    modifies input
    ensures input.Valid()
    ensures line == LineOf(old(input.Stream()))
    ensures Consumed(old(input.Stream()), line, input.Stream())
  {
    ghost var stream := input.Stream();
    var retained: seq<byte>, readAny := [], false;
    while true
      invariant input.Valid() && Reading(stream, retained, input.Stream())
      invariant readAny <==> retained != []
      decreases |input.Stream()|
    {
      var available := input.FillBuf();
      if available == [] {
        return NoContent(if readAny then Unterminated else Eof);
      }
      readAny := true;
      var found;
      retained, found := Retain(input, available, retained, stream);
      if found.Some? {
        return found.value;
      }
    }
  }

  /** A line that was read is exactly consumed, and end of input is end of input. */
  ghost predicate Consumed(stream: seq<byte>, line: Line, rest: seq<byte>) {
    && (line.Content? ==> FirstNewline(stream) < |stream| && rest == stream[FirstNewline(stream) + 1..])
    && (line == NoContent(Eof) ==> rest == [])
  }

  /** One turn of the loop: retains and consumes the available bytes up to a newline, unless they are too many. */
  method Retain(input: ChunkedInput, available: seq<byte>, retained: seq<byte>, ghost stream: seq<byte>)
    returns (retained': seq<byte>, line: Option<Line>)
    requires input.Valid() && input.chunks != [] && available == input.chunks[0]
    requires Reading(stream, retained, input.Stream())
    modifies input
    ensures input.Valid()
    ensures line.Some? ==> line.value == LineOf(stream) && Consumed(stream, line.value, input.Stream())
    ensures line.None? ==>
              && Reading(stream, retained', input.Stream()) && retained' != []
              && |input.Stream()| < |old(input.Stream())|
  {
    var index := FirstNewline(available);
    var content := available[..index];
    ghost var later := Concat(input.chunks[1..]);
    if |retained| + |content| > MAX_FRAME_BYTES {
      ReadTooMuch(stream, retained, available, later);
      return retained, Some(NoContent(TooLong));
    }
    retained' := retained + content;
    if index < |available| {
      ReadLineEnd(stream, retained, available, later);
      input.Consume(index + 1);
      return retained', Some(Content(retained'));
    }
    ReadMore(stream, retained, available, later);
    input.Consume(index);
    return retained', None;
  }

  /** Before the end of the line: the stream is what is retained, without a newline, and the rest. */
  ghost predicate Reading(stream: seq<byte>, retained: seq<byte>, rest: seq<byte>) {
    && stream == retained + rest
    && FirstNewline(retained) == |retained| <= MAX_FRAME_BYTES
    && (rest == [] ==> LineOf(stream) == NoContent(if retained == [] then Eof else Unterminated))
  }

  /** What a stream is, judged by a beginning without a newline. */
  lemma LineBegins(stream: seq<byte>, kept: seq<byte>, rest: seq<byte>)
    requires stream == kept + rest && FirstNewline(kept) == |kept|
    ensures |kept| > MAX_FRAME_BYTES ==> LineOf(stream) == NoContent(TooLong)
    ensures rest != [] && rest[0] == NEWLINE && |kept| <= MAX_FRAME_BYTES ==> LineOf(stream) == Content(kept)
    ensures rest != [] && rest[0] == NEWLINE ==> FirstNewline(stream) == |kept|
    ensures rest == [] && |kept| <= MAX_FRAME_BYTES ==>
              LineOf(stream) == NoContent(if kept == [] then Eof else Unterminated)
  {
    FirstNewlineAppend(kept, rest);
    assert stream[..|kept|] == kept;
  }

  /** The available bytes up to a newline are kept, without a newline, and the others are left. */
  lemma Kept(stream: seq<byte>, retained: seq<byte>, available: seq<byte>, later: seq<byte>)
    requires Reading(stream, retained, available + later)
    ensures var index := FirstNewline(available);
            var kept := retained + available[..index];
            stream == kept + (available + later)[index..] && FirstNewline(kept) == |kept| == |retained| + index
  {
    Regroup(retained, available, later, FirstNewline(available));
    KeptWithoutNewline(retained, available);
  }

  lemma ReadTooMuch(stream: seq<byte>, retained: seq<byte>, available: seq<byte>, later: seq<byte>)
    requires Reading(stream, retained, available + later) && |retained| + FirstNewline(available) > MAX_FRAME_BYTES
    ensures LineOf(stream) == NoContent(TooLong)
  {
    var index := FirstNewline(available);
    Kept(stream, retained, available, later);
    LineBegins(stream, retained + available[..index], (available + later)[index..]);
  }

  lemma ReadLineEnd(stream: seq<byte>, retained: seq<byte>, available: seq<byte>, later: seq<byte>)
    requires Reading(stream, retained, available + later) && |retained| + FirstNewline(available) <= MAX_FRAME_BYTES
    requires FirstNewline(available) < |available|
    ensures var index := FirstNewline(available);
            var kept := retained + available[..index];
            && LineOf(stream) == Content(kept)
            && FirstNewline(stream) == |kept| < |stream| && (available + later)[index + 1..] == stream[|kept| + 1..]
  {
    var index := FirstNewline(available);
    var kept, rest := retained + available[..index], (available + later)[index..];
    Kept(stream, retained, available, later);
    NewlineAt(available, later, index);
    LineBegins(stream, kept, rest);
    DropAppend(kept, rest, 1);
  }

  lemma ReadMore(stream: seq<byte>, retained: seq<byte>, available: seq<byte>, later: seq<byte>)
    requires Reading(stream, retained, available + later) && |retained| + FirstNewline(available) <= MAX_FRAME_BYTES
    ensures var index := FirstNewline(available);
            Reading(stream, retained + available[..index], (available + later)[index..])
  {
    var index := FirstNewline(available);
    Kept(stream, retained, available, later);
    LineBegins(stream, retained + available[..index], (available + later)[index..]);
  }

  lemma KeptWithoutNewline(retained: seq<byte>, available: seq<byte>)
    requires FirstNewline(retained) == |retained|
    ensures var kept := retained + available[..FirstNewline(available)];
            FirstNewline(kept) == |kept| == |retained| + FirstNewline(available)
  {
    var index := FirstNewline(available);
    FirstNewlineIs(available[..index], index);
    FirstNewlineAppend(retained, available[..index]);
  }

  lemma NewlineAt(available: seq<byte>, later: seq<byte>, index: nat)
    requires index == FirstNewline(available) < |available|
    ensures (available + later)[index..] != [] && (available + later)[index..][0] == NEWLINE
    ensures (available + later)[index..][1..] == (available + later)[index + 1..]
  {
    DropTwice(available + later, index);
  }

  lemma Regroup(a: seq<byte>, b: seq<byte>, c: seq<byte>, k: nat)
    requires k <= |b|
    ensures a + (b + c) == (a + b[..k]) + (b + c)[k..]
  {
    assert b + c == b[..k] + (b + c)[k..];
  }

  lemma DropTwice(a: seq<byte>, k: nat)
    requires k < |a|
    ensures a[k..][1..] == a[k + 1..]
  {
  }

  lemma DropAppend(a: seq<byte>, b: seq<byte>, k: nat)
    requires k <= |b|
    ensures (a + b)[|a| + k..] == b[k..]
  {
  }

  class Output {
    var written: seq<byte>

    constructor ()
      ensures written == []
    {
      written := [];
    }

    method WriteAll(bytes: seq<byte>)
      modifies this
      ensures written == old(written) + bytes
    {
      written := written + bytes;
    }
  }

  /** What a worker says to its host. */
  datatype WorkerMessage =
    | Invoke(name: string, arguments: Json.Value)
    | Complete(value: Json.Value)
    | Failed(message: string)

  /** The tag comes first, then the fields. */
  function ToJson(m: WorkerMessage): Json.Value {
    Json.Object(
      match m
      case Invoke(name, arguments) =>
        [Json.Member("type", Json.Text("invoke")), Json.Member("name", Json.Text(name)),
         Json.Member("arguments", arguments)]
      case Complete(value) => [Json.Member("type", Json.Text("complete")), Json.Member("value", value)]
      case Failed(message) => [Json.Member("type", Json.Text("failed")), Json.Member("message", Json.Text(message))])
  }

  function Serialized(m: WorkerMessage): string {
    Json.Compact(ToJson(m))
  }

  function Field(members: seq<Json.Member>, name: string): Option<Json.Value> {
    if members == [] then None
    else if members[0].name == name then Some(members[0].value)
    else Field(members[1..], name)
  }

  /** The message that an object means by its tag and its fields, in whatever order they stand. */
  function MessageOf(v: Json.Value): Option<WorkerMessage> {
    if !v.Object? then None
    else
      match Field(v.members, "type")
      case Some(Text(tag)) =>
        var name, message, value := Field(v.members, "name"), Field(v.members, "message"), Field(v.members, "value");
        var arguments := Field(v.members, "arguments");
        if tag == "invoke" && name.Some? && name.value.Text? && arguments.Some?
          then Some(Invoke(name.value.text, arguments.value))
        else if tag == "complete" && value.Some? then Some(Complete(value.value))
        else if tag == "failed" && message.Some? && message.value.Text? then Some(Failed(message.value.text))
        else None
      case _ => None
  }

  /** The message that a text says. */
  function Parsed(text: string): Option<WorkerMessage> {
    var read := Json.ReadValue(text);
    if read.Some? && read.value.1 == "" then MessageOf(read.value.0) else None
  }

  lemma {:induction false} FieldAt(members: seq<Json.Member>, name: string, i: nat)
    requires i < |members| && members[i].name == name && forall j :: 0 <= j < i ==> members[j].name != name
    ensures Field(members, name) == Some(members[i].value)
  {
    if i > 0 {
      FieldAt(members[1..], name, i - 1);
    }
  }

  lemma FieldsFound(m: WorkerMessage)
    ensures MessageOf(ToJson(m)) == Some(m)
  {
    var members := ToJson(m).members;
    FieldAt(members, "type", 0);
    match m
    case Invoke(_, _) =>
      FieldAt(members, "name", 1);
      FieldAt(members, "arguments", 2);
    case Complete(_) => FieldAt(members, "value", 1);
    case Failed(_) => FieldAt(members, "message", 1);
  }

  /** A written message says what it is. */
  lemma SerializedSays(m: WorkerMessage)
    ensures Parsed(Serialized(m)) == Some(m)
  {
    Json.CompactRoundTrip(ToJson(m));
    FieldsFound(m);
  }

  /** Appends a message, as JSON, and a newline. */
  method WriteMessage(output: Output, message: WorkerMessage)
    modifies output
    ensures output.written == old(output.written) + Framed(Serialized(message))
    ensures Parsed(Serialized(message)) == Some(message)
  {
    SerializedSays(message);
    output.WriteAll(Encode(Serialized(message)));
    output.WriteAll([NEWLINE]);
  }

  function Framed(message: string): seq<byte> {
    Encode(message) + [NEWLINE]
  }

  lemma {:induction false} NewlineInEncoding(s: string)
    ensures NEWLINE in Encode(s) <==> '\n' in s
  {
    if s != "" {
      NewlineInEncoding(s[1..]);
      var n := s[0] as int;
      assert NEWLINE in EncodeChar(s[0]) <==> s[0] == '\n';
      assert Encode(s) == EncodeChar(s[0]) + Encode(s[1..]);
      assert s == [s[0]] + s[1..];
    }
  }

  lemma {:induction false} ReturnEndsEncoding(s: string)
    ensures StripReturn(Encode(s)) == Encode(s) <==> s == "" || s[|s| - 1] != '\r'
  {
    if s != "" {
      var init, last := s[..|s| - 1], s[|s| - 1];
      assert s == init + [last];
      EncodeConcat(init, [last]);
      assert [last][1..] == "";
      assert Encode([last]) == EncodeChar(last) + Encode("");
    }
  }

  /** A text is read back from its frame, whatever follows, exactly when it holds no newline, fits, and does
      not end in a carriage return. */
  lemma FrameRoundTrip(m: string, rest: seq<byte>)
    ensures FrameOf(Framed(m) + rest) == Text(m) <==>
              '\n' !in m && |Encode(m)| <= MAX_FRAME_BYTES && (m == "" || m[|m| - 1] != '\r')
    ensures '\n' !in m ==> FirstNewline(Framed(m) + rest) == |Encode(m)|
  {
    var stream, b := Framed(m) + rest, Encode(m);
    NewlineInEncoding(m);
    ReturnEndsEncoding(m);
    if '\n' !in m {
      assert forall i :: 0 <= i < |b| ==> stream[i] == b[i] && b[i] in b;
      FirstNewlineIs(stream, |b|);
      assert stream[..|b|] == b;
      DecodeEncode(m);
      ShorterText(b, m);
    } else {
      var i :| 0 <= i < |b| && b[i] == NEWLINE;
      assert stream[i] == NEWLINE;
      var n := FirstNewline(stream);
      assert n <= i;
      ShorterText(stream[..n], m);
    }
  }

  /** What is decoded from fewer bytes than a message has is another message. */
  lemma ShorterText(content: seq<byte>, m: string)
    ensures |StripReturn(content)| < |Encode(m)| ==> Decoded(content) != Text(m)
  {
    EncodeDecode(StripReturn(content));
  }

  // ----- a whole conversation

  function WriteAll(messages: seq<string>): seq<byte> {
    if messages == [] then [] else Framed(messages[0]) + WriteAll(messages[1..])
  }

  /** The messages a reader gets before the first frame that is none. */
  function ReadAll(stream: seq<byte>): (r: (seq<string>, Frame))
    decreases |stream|
  {
    var frame, n := FrameOf(stream), FirstNewline(stream);
    if !frame.Text? then ([], frame)
    else
      var rest := ReadAll(stream[n + 1..]);
      ([frame.text] + rest.0, rest.1)
  }

  predicate Framable(m: string) {
    '\n' !in m && |Encode(m)| <= MAX_FRAME_BYTES && (m == "" || m[|m| - 1] != '\r')
  }

  /** A serialised message can be framed if it fits: JSON escapes what could break a line. */
  lemma SerializedFramable(m: WorkerMessage)
    ensures Framable(Serialized(m)) <==> |Encode(Serialized(m))| <= MAX_FRAME_BYTES
  {
    Json.CompactIsPlain(ToJson(m));
  }

  /** The message that a frame says. */
  function Received(frame: Frame): Option<WorkerMessage> {
    if frame.Text? then Parsed(frame.text) else None
  }

  /** Every message a worker writes is read back whole, whatever follows it, exactly when it fits; and it is then
      the message that was written. */
  lemma MessageRoundTrip(m: WorkerMessage, rest: seq<byte>)
    ensures FrameOf(Framed(Serialized(m)) + rest) == Text(Serialized(m)) <==> |Encode(Serialized(m))| <= MAX_FRAME_BYTES
    ensures |Encode(Serialized(m))| <= MAX_FRAME_BYTES ==> Received(FrameOf(Framed(Serialized(m)) + rest)) == Some(m)
  {
    SerializedFramable(m);
    SerializedSays(m);
    FrameRoundTrip(Serialized(m), rest);
  }

  function AllSerialized(messages: seq<WorkerMessage>): seq<string> {
    seq(|messages|, i requires 0 <= i < |messages| => Serialized(messages[i]))
  }

  /** Messages that fit all arrive, in order, and then the input ends. */
  lemma MessagesArrive(messages: seq<WorkerMessage>)
    requires forall m <- messages :: |Encode(Serialized(m))| <= MAX_FRAME_BYTES
    ensures ReadAll(WriteAll(AllSerialized(messages))) == (AllSerialized(messages), Eof)
    ensures forall i :: 0 <= i < |messages| ==> Parsed(AllSerialized(messages)[i]) == Some(messages[i])
  {
    var texts := AllSerialized(messages);
    forall i | 0 <= i < |texts| ensures Framable(texts[i]) {
      SerializedFramable(messages[i]);
    }
    forall i | 0 <= i < |messages| ensures Parsed(texts[i]) == Some(messages[i]) {
      SerializedSays(messages[i]);
    }
    ConversationRoundTrip(texts);
  }

  /** Texts that can be framed all arrive, in order, and then the input ends. */
  lemma {:induction false} ConversationRoundTrip(messages: seq<string>)
    requires forall i :: 0 <= i < |messages| ==> Framable(messages[i])
    ensures ReadAll(WriteAll(messages)) == (messages, Eof)
  {
    if messages != [] {
      var m, rest := messages[0], WriteAll(messages[1..]);
      FrameRoundTrip(m, rest);
      var stream := Framed(m) + rest;
      assert stream[|Encode(m)| + 1..] == rest;
      ConversationRoundTrip(messages[1..]);
      assert [m] + messages[1..] == messages;
    }
  }
}
