/**
 Newline-delimited messages over a stream of UTF-8 text, and the server loop that answers them. Lines are
 Unicode characters and limits count their bytes; the JSON codec is a pair of functions, and what a message
 must satisfy is stated where it is needed.
 */
module Framing {
  import opened CloudTypes

  const MAX_MESSAGE_SIZE: nat := 1_048_576

  datatype Reading<T> = Eof | TooLarge(size: nat) | Malformed | Message(value: T)

  // ---------- Lines ----------

  /** Length of the first line, newline included; the whole stream if it has none. */
  function LineLength(stream: string): (n: nat)
    ensures n <= |stream|
    ensures stream != "" ==> n > 0
  {
    if stream == "" then 0
    else if stream[0] == '\n' then 1
    else 1 + LineLength(stream[1..])
  }

  function Lines(stream: string): seq<string>
    decreases |stream|
  {
    if stream == "" then []
    else
      var n := LineLength(stream);
      [stream[..n]] + Lines(stream[n..])
  }

  /** The Unicode property White_Space. */
  predicate Whitespace(c: char) {
    var u := c as int;
    || 0x9 <= u <= 0xD || u == 0x20 || u == 0x85 || u == 0xA0 || u == 0x1680 || 0x2000 <= u <= 0x200A
    || u == 0x2028 || u == 0x2029 || u == 0x202F || u == 0x205F || u == 0x3000
  }

  /** Bytes of one character in UTF-8. */
  function Width(c: char): nat {
    var u := c as int;
    if u < 0x80 then 1 else if u < 0x800 then 2 else if u < 0x10000 then 3 else 4
  }

  function ByteLength(s: string): nat {
    if s == "" then 0 else ByteLength(s[..|s| - 1]) + Width(s[|s| - 1])
  }

  lemma ByteLengthOfLine(text: string)
    ensures ByteLength(text + "\n") == ByteLength(text) + 1
  {
    assert (text + "\n")[..|text + "\n"| - 1] == text;
  }

  function TrimEnd(s: string): string {
    if s != "" && Whitespace(s[|s| - 1]) then TrimEnd(s[..|s| - 1]) else s
  }

  /** What `read_message` makes of one line. */
  function ReadLine<T>(line: string, parse: string -> Option<T>): Reading<T> {
    if ByteLength(line) > MAX_MESSAGE_SIZE then TooLarge(ByteLength(line))
    else
      match parse(TrimEnd(line))
      case Some(m) => Message(m)
      case None => Malformed
  }

  lemma {:induction false} LineLengthAt(line: string, rest: string)
    requires '\n' !in line
    ensures LineLength(line + "\n" + rest) == |line| + 1
  {
    var s := line + "\n" + rest;
    if line != "" {
      assert s[0] == line[0] && s[0] in line;
      assert s[1..] == line[1..] + "\n" + rest;
      LineLengthAt(line[1..], rest);
    }
  }

  lemma {:induction false} LinesCover(stream: string)
    ensures Concat(Lines(stream)) == stream
    ensures forall i :: 0 <= i < |Lines(stream)| ==> Lines(stream)[i] != ""
    decreases |stream|
  {
    if stream != "" {
      var n := LineLength(stream);
      LinesCover(stream[n..]);
      assert Lines(stream)[1..] == Lines(stream[n..]);
      assert stream == stream[..n] + stream[n..];
    }
  }

  function Concat(ss: seq<string>): string {
    if ss == [] then "" else ss[0] + Concat(ss[1..])
  }

  // ---------- Writing then reading ----------

  function WriteAll<T>(messages: seq<T>, encode: T -> string): string {
    if messages == [] then "" else encode(messages[0]) + "\n" + WriteAll(messages[1..], encode)
  }

  function ReadAll<T>(stream: string, parse: string -> Option<T>): seq<Reading<T>>
    decreases |stream|
  {
    if stream == "" then [Eof]
    else
      var n := LineLength(stream);
      var first := ReadLine(stream[..n], parse);
      if first.TooLarge? then [first] else [first] + ReadAll(stream[n..], parse)
  }

  /** The codec gives this message back, on one line that does not end in white space, within the limit. */
  predicate Framable<T(==)>(m: T, encode: T -> string, parse: string -> Option<T>) {
    var text := encode(m);
    && parse(text) == Some(m)
    && '\n' !in text
    && (text != "" ==> !Whitespace(text[|text| - 1]))
    && ByteLength(text) + 1 <= MAX_MESSAGE_SIZE
  }

  lemma TrimmedLine(text: string)
    requires text != "" ==> !Whitespace(text[|text| - 1])
    ensures TrimEnd(text + "\n") == text
  {
    assert (text + "\n")[..|text|] == text;
  }

  lemma {:induction false} TrimTail(text: string, tail: string)
    requires text != "" ==> !Whitespace(text[|text| - 1])
    requires forall i :: 0 <= i < |tail| ==> Whitespace(tail[i])
    ensures TrimEnd(text + tail) == text
    decreases |tail|
  {
    if tail == "" {
      assert text + tail == text;
    } else {
      var s := text + tail;
      assert s[|s| - 1] == tail[|tail| - 1] && s[..|s| - 1] == text + tail[..|tail| - 1];
      TrimTail(text, tail[..|tail| - 1]);
    }
  }

  lemma TrimTailAndNewline(text: string, tail: string)
    requires text != "" ==> !Whitespace(text[|text| - 1])
    requires forall i :: 0 <= i < |tail| ==> Whitespace(tail[i])
    ensures TrimEnd(text + tail + "\n") == text
  {
    var s := text + tail + "\n";
    assert s[..|s| - 1] == text + tail && s[|s| - 1] == '\n';
    TrimTail(text, tail);
  }

  lemma ReadTrimmed<T>(line: string, text: string, m: T, parse: string -> Option<T>)
    requires ByteLength(line) <= MAX_MESSAGE_SIZE && TrimEnd(line) == text && parse(text) == Some(m)
    ensures ReadLine(line, parse) == Message(m)
  {
  }

  /** A message followed by white space, such as a carriage return, reads as the message alone. */
  lemma TrailingSpaceIsIgnored<T>(m: T, tail: string, line: string, encode: T -> string, parse: string -> Option<T>)
    requires Framable(m, encode, parse) && line == encode(m) + tail + "\n" && ByteLength(line) <= MAX_MESSAGE_SIZE
    requires forall i :: 0 <= i < |tail| ==> Whitespace(tail[i])
    ensures ReadLine(line, parse) == Message(m)
  {
    TrimTailAndNewline(encode(m), tail);
    ReadTrimmed(line, encode(m), m, parse);
  }

  /** Bytes counted by UTF-8's ranges: one below U+0080, two below U+0800, three below U+10000, else four. */
  lemma {:induction false} ByteLengthByRange(s: string, low: int, high: int, w: nat)
    requires (low, high, w) in {(0, 0x80, 1), (0x80, 0x800, 2), (0x800, 0x1_0000, 3), (0x1_0000, 0x11_0000, 4)}
    requires forall i :: 0 <= i < |s| ==> low <= s[i] as int < high
    ensures ByteLength(s) == w * |s|
  {
    if s != "" {
      ByteLengthByRange(s[..|s| - 1], low, high, w);
    }
  }

  /** Any framable messages written one after another read back unchanged, in order, then end of stream. */
  lemma {:induction false} WrittenReadsBack<T>(messages: seq<T>, encode: T -> string, parse: string -> Option<T>)
    requires forall i :: 0 <= i < |messages| ==> Framable(messages[i], encode, parse)
    ensures ReadAll(WriteAll(messages, encode), parse) ==
      seq(|messages|, i requires 0 <= i < |messages| => Message(messages[i])) + [Eof]
  {
    if messages != [] {
      var text, rest := encode(messages[0]), WriteAll(messages[1..], encode);
      var stream := text + "\n" + rest;
      LineLengthAt(text, rest);
      TrimmedLine(text);
      ByteLengthOfLine(text);
      assert stream[..|text| + 1] == text + "\n" && stream[|text| + 1..] == rest;
      WrittenReadsBack(messages[1..], encode, parse);
    }
  }

  /** A bad line consumes only itself: what follows it reads exactly as it would alone. */
  lemma MalformedLineConsumesItself<T>(line: string, rest: string, parse: string -> Option<T>)
    requires '\n' !in line && ByteLength(line) + 1 <= MAX_MESSAGE_SIZE && parse(TrimEnd(line + "\n")).None?
    ensures ReadAll(line + "\n" + rest, parse) == [Malformed] + ReadAll(rest, parse)
  {
    LineLengthAt(line, rest);
    ByteLengthOfLine(line);
    var stream := line + "\n" + rest;
    assert stream[..|line| + 1] == line + "\n" && stream[|line| + 1..] == rest;
  }

  // ---------- The server loop ----------

  datatype Response<R> = Answer(value: R) | HandlerFailed | MalformedJson

  datatype Ending = ClientLeft | Stopped | BadLine | WriteFailed

  /** The response to one line, when the line is within the limit. */
  function Respond<T, R>(line: string, parse: string -> Option<T>, handle: T -> Option<R>): Response<R> {
    match parse(TrimEnd(line))
    case None => MalformedJson
    case Some(m) => match handle(m) case Some(r) => Answer(r) case None => HandlerFailed
  }

  function Responses<T, R>(lines: seq<string>, parse: string -> Option<T>, handle: T -> Option<R>): seq<Response<R>> {
    if lines == [] then []
    else Responses(lines[..|lines| - 1], parse, handle) + [Respond(lines[|lines| - 1], parse, handle)]
  }

  /**
   What the surroundings of a connection do: the turn at which a shutdown is noticed, the line whose bytes
   are not UTF-8, and the response whose write fails.
   */
  datatype Trouble = Trouble(shutdownAt: Option<nat>, garbledAt: Option<nat>, writeFailsAt: Option<nat>)

  /** How the connection ends at turn `n`, if it does: what is noticed first decides. */
  function EndingAt(all: seq<string>, n: nat, trouble: Trouble): Option<Ending>
    requires n <= |all|
  {
    if trouble.shutdownAt == Some(n) then Some(Stopped)
    else if n == |all| then Some(ClientLeft)
    else if trouble.garbledAt == Some(n) || ByteLength(all[n]) > MAX_MESSAGE_SIZE then Some(BadLine)
    else if trouble.writeFailsAt == Some(n) then Some(WriteFailed)
    else None
  }

  /** The answer to a line follows from how `read_message` reads it. */
  lemma RespondFollowsReading<T, R>(line: string, parse: string -> Option<T>, handle: T -> Option<R>)
    ensures ReadLine(line, parse).Malformed? ==> Respond(line, parse, handle) == MalformedJson
    ensures forall m :: ReadLine(line, parse) == Message(m) ==>
      Respond(line, parse, handle) == if handle(m).Some? then Answer(handle(m).value) else HandlerFailed
  {
  }

  lemma {:induction false} WrittenLines<T>(messages: seq<T>, encode: T -> string)
    requires forall i :: 0 <= i < |messages| ==> '\n' !in encode(messages[i])
    ensures |Lines(WriteAll(messages, encode))| == |messages|
    ensures forall i :: 0 <= i < |messages| ==> Lines(WriteAll(messages, encode))[i] == encode(messages[i]) + "\n"
  {
    if messages != [] {
      var text, rest := encode(messages[0]), WriteAll(messages[1..], encode);
      var stream := text + "\n" + rest;
      LineLengthAt(text, rest);
      assert stream[..|text| + 1] == text + "\n" && stream[|text| + 1..] == rest;
      WrittenLines(messages[1..], encode);
      assert forall i :: 0 < i < |messages| ==> messages[i] == messages[1..][i - 1];
      assert Lines(stream) == [text + "\n"] + Lines(rest);
    }
  }

  lemma {:induction false} ResponsesAre<T, R>(lines: seq<string>, parse: string -> Option<T>, handle: T -> Option<R>, k: nat)
    requires k < |lines|
    ensures |Responses(lines, parse, handle)| == |lines|
    ensures Responses(lines, parse, handle)[k] == Respond(lines[k], parse, handle)
  {
    var n := |lines| - 1;
    if k < n {
      ResponsesAre(lines[..n], parse, handle, k);
    } else if n > 0 {
      ResponsesAre(lines[..n], parse, handle, 0);
    }
  }

  lemma LinesStep(all: seq<string>, input: string, n: nat)
    requires input != "" && n <= |all| && Lines(input) == all[n..]
    ensures var k := LineLength(input);
      n < |all| && all[n] == input[..k] && Lines(input[k..]) == all[n + 1..]
  {
    var k := LineLength(input);
    assert Lines(input) == [input[..k]] + Lines(input[k..]);
    assert all[n] == all[n..][0] && all[n + 1..] == all[n..][1..];
  }

  /** The first lines have been answered, nothing has ended the connection, and `input` holds the others. */
  ghost predicate Answered<T, R>(
    all: seq<string>, responses: seq<Response<R>>, input: string, parse: string -> Option<T>, handle: T -> Option<R>,
    trouble: Trouble)
  {
    && |responses| <= |all|
    && Lines(input) == all[|responses|..]
    && responses == Responses(all[..|responses|], parse, handle)
    && (forall k :: 0 <= k < |responses| ==> EndingAt(all, k, trouble).None?)
  }

  lemma AnswerNext<T, R>(
    all: seq<string>, responses: seq<Response<R>>, input: string, parse: string -> Option<T>, handle: T -> Option<R>,
    trouble: Trouble)
    requires Answered(all, responses, input, parse, handle, trouble) && input != ""
    ensures var n, k := |responses|, LineLength(input);
      && n < |all| && all[n] == input[..k]
      && (EndingAt(all, n, trouble).None? ==>
            Answered(all, responses + [Respond(input[..k], parse, handle)], input[k..], parse, handle, trouble))
  {
    var n := |responses|;
    LinesStep(all, input, n);
    assert all[..n + 1][..n] == all[..n];
  }

  /**
   One connection. Each line gets exactly one response, in order, up to the first turn at which something
   ends the connection, and that is how it ends.
   */
  method HandleConnection<T, R>(stream: string, parse: string -> Option<T>, handle: T -> Option<R>, trouble: Trouble)
    returns (responses: seq<Response<R>>, ending: Ending)
    ensures var all := Lines(stream); var n := |responses|;
      && n <= |all|
      && responses == Responses(all[..n], parse, handle)
      && (forall k :: 0 <= k < n ==> EndingAt(all, k, trouble).None?)
      && EndingAt(all, n, trouble) == Some(ending)
  {
    responses := [];
    var input := stream;
    ghost var all := Lines(stream);
    assert all[..0] == [] && all[0..] == all;
    while true
      invariant Answered(all, responses, input, parse, handle, trouble)
      decreases |input|
    {
      var n := |responses|;
      if trouble.shutdownAt == Some(n) {
        return responses, Stopped;
      }
      if input == "" {
        return responses, ClientLeft;
      }
      AnswerNext(all, responses, input, parse, handle, trouble);
      var k := LineLength(input);
      if trouble.garbledAt == Some(n) || ByteLength(input[..k]) > MAX_MESSAGE_SIZE {
        return responses, BadLine;
      }
      var response := Respond(input[..k], parse, handle);
      if trouble.writeFailsAt == Some(n) {
        return responses, WriteFailed;
      }
      responses := responses + [response];
      input := input[k..];
    }
  }

  /** A framable message is answered by what the handler makes of that very message. */
  lemma AnswerToMessage<T, R>(m: T, encode: T -> string, parse: string -> Option<T>, handle: T -> Option<R>)
    requires Framable(m, encode, parse)
    ensures ByteLength(encode(m) + "\n") <= MAX_MESSAGE_SIZE
    ensures Respond(encode(m) + "\n", parse, handle) == if handle(m).Some? then Answer(handle(m).value) else HandlerFailed
  {
    TrimmedLine(encode(m));
    ByteLengthOfLine(encode(m));
  }

  /**
   A client that writes framable messages and closes, with no trouble: whatever satisfies the promise of
   `HandleConnection` answers each message, in order, with what the handler makes of it.
   */
  lemma {:induction false} EachMessageIsAnswered<T, R>(
    messages: seq<T>, encode: T -> string, parse: string -> Option<T>, handle: T -> Option<R>,
    responses: seq<Response<R>>, ending: Ending)
    requires forall i :: 0 <= i < |messages| ==> Framable(messages[i], encode, parse)
    requires
      var all := Lines(WriteAll(messages, encode)); var n := |responses|; var trouble := Trouble(None, None, None);
      && n <= |all| && responses == Responses(all[..n], parse, handle) && EndingAt(all, n, trouble) == Some(ending)
    ensures |responses| == |messages| && ending == ClientLeft
    ensures forall k :: 0 <= k < |messages| ==>
      responses[k] == if handle(messages[k]).Some? then Answer(handle(messages[k]).value) else HandlerFailed
  {
    var all, n := Lines(WriteAll(messages, encode)), |responses|;
    WrittenLines(messages, encode);
    forall k | 0 <= k < |messages|
      ensures ByteLength(all[k]) <= MAX_MESSAGE_SIZE
      ensures Respond(all[k], parse, handle) ==
        if handle(messages[k]).Some? then Answer(handle(messages[k]).value) else HandlerFailed
    {
      AnswerToMessage(messages[k], encode, parse, handle);
    }
    assert n == |all| && all[..n] == all;
    forall k | 0 <= k < |messages| ensures responses[k] == Respond(all[k], parse, handle) {
      ResponsesAre(all, parse, handle, k);
    }
  }
}
