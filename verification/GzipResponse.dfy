/**
 saleor/asgi/gzip_compression.py: a wrapper that compresses the response of an application, message by message.
 The compressor is any streaming one: what it puts out after a write or on closing depends on what was written so far.
 */
module GzipResponse {
  import opened Wrappers

  newtype byte = x: int | 0 <= x < 256

  type Bytes = seq<byte>

  /** A header field: name and value, one character per byte. */
  datatype Header = Header(key: string, value: string)

  datatype StartEvent = StartEvent(status: nat, headers: seq<Header>)

  datatype Message =
    | Start(event: StartEvent)
    | Body(body: Option<Bytes>, more: Option<bool>)
    | Other(kind: string)

  const CONTENT_ENCODING := "content-encoding"
  const CONTENT_LENGTH := "content-length"

  function BodyOf(m: Message): Bytes {
    if m.Body? && m.body.Some? then m.body.value else []
  }

  predicate MoreOf(m: Message) {
    m.Body? && m.more.Some? && m.more.value
  }

  // ---- header names and values

  function LowerChar(c: char): char {
    if 'A' <= c <= 'Z' then c - 'A' + 'a' else c
  }

  function Lower(s: string): string {
    seq(|s|, i requires 0 <= i < |s| => LowerChar(s[i]))
  }

  predicate Named(h: Header, name: string) {
    Lower(h.key) == name
  }

  predicate Framing(h: Header) {
    Named(h, CONTENT_LENGTH) || Named(h, CONTENT_ENCODING)
  }

  /** The non-empty values of a field, in order. */
  function Values(headers: seq<Header>, name: string): seq<string> {
    if headers == [] then []
    else (if Named(headers[0], name) && headers[0].value != "" then [headers[0].value] else []) + Values(headers[1..], name)
  }

  function WithoutFraming(headers: seq<Header>): seq<Header> {
    if headers == [] then []
    else (if Framing(headers[0]) then [] else [headers[0]]) + WithoutFraming(headers[1..])
  }

  function Digits(n: nat): (r: string)
    ensures r != ""
  {
    if n < 10 then ['0' + n as char] else Digits(n / 10) + ['0' + (n % 10) as char]
  }

  /** The number that a Content-Length value denotes (section 8.6 of RFC 9110: 1*DIGIT). */
  function Number(s: string): Option<nat> {
    if s == "" || !('0' <= s[|s| - 1] <= '9') then None
    else
      var d := (s[|s| - 1] - '0') as nat;
      if |s| == 1 then Some(d)
      else
        var front := Number(s[..|s| - 1]);
        if front.None? then None else Some(10 * front.value + d)
  }

  predicate Contains(s: string, word: string)
  {
    if |s| < |word| then false else s[..|word|] == word || (s != "" && Contains(s[1..], word))
  }

  /** The first Accept-Encoding field mentions gzip. */
  predicate Accepts(headers: seq<Header>) {
    headers != [] &&
    (if Named(headers[0], "accept-encoding") then Contains(headers[0].value, "gzip") else Accepts(headers[1..]))
  }

  // ---- the compressor

  datatype Gzip = Gzip(header: Bytes, emit: seq<Bytes> -> Bytes, finish: seq<Bytes> -> Bytes, decode: Bytes -> Option<Bytes>)

  function Concat(chunks: seq<Bytes>): Bytes {
    if chunks == [] then [] else Concat(chunks[..|chunks| - 1]) + chunks[|chunks| - 1]
  }

  /** Everything put out while the chunks were written one after the other. */
  function Emitted(g: Gzip, chunks: seq<Bytes>): Bytes {
    if chunks == [] then g.header else Emitted(g, chunks[..|chunks| - 1]) + g.emit(chunks)
  }

  /** Decompressing undoes compressing, however the data was cut into chunks. */
  ghost predicate Lawful(g: Gzip) {
    forall chunks: seq<Bytes> :: g.decode(Emitted(g, chunks) + g.finish(chunks)) == Some(Concat(chunks))
  }

  /** The law can be met: putting the data out as they are is one way. */
  lemma {:induction false} CopyingIsLawful()
    ensures Lawful(Gzip([], chunks => if chunks == [] then [] else chunks[|chunks| - 1], _ => [], data => Some(data)))
  {
    var g := Gzip([], chunks => if chunks == [] then [] else chunks[|chunks| - 1], _ => [], data => Some(data));
    forall chunks: seq<Bytes>
      ensures g.decode(Emitted(g, chunks) + g.finish(chunks)) == Some(Concat(chunks))
    {
      CopiedIsConcat(g, chunks);
      assert Emitted(g, chunks) + [] == Emitted(g, chunks);
    }
  }

  lemma {:induction false} CopiedIsConcat(g: Gzip, chunks: seq<Bytes>)
    requires g.header == [] && forall cs: seq<Bytes> | cs != [] :: g.emit(cs) == cs[|cs| - 1]
    ensures Emitted(g, chunks) == Concat(chunks)
  {
    if chunks != [] {
      CopiedIsConcat(g, chunks[..|chunks| - 1]);
    }
  }

  // ---- one response

  datatype State = State(
    start: Option<StartEvent>, encodingSet: bool, started: bool,
    buffer: Bytes, written: seq<Bytes>, closed: bool, sent: seq<Message>)

  datatype Outcome = Going(state: State) | Raised(state: State)

  ghost predicate Valid(s: State) {
    (s.encodingSet || s.started ==> s.start.Some?) && (s.closed ==> s.started)
  }

  function Initial(g: Gzip): State {
    State(None, false, false, g.header, [], false, [])
  }

  /** What a message does to the wrapper: the specification of `SendCompressed`. */
  function Step(g: Gzip, minimum: int, s: State, m: Message): Outcome {
    match m
    case Other(_) => Going(s)
    case Start(event) => Going(s.(start := Some(event), encodingSet := Values(event.headers, CONTENT_ENCODING) != []))
    case Body(_, _) =>
      if s.start.None? then Raised(s)
      else if s.encodingSet || (!s.started && |BodyOf(m)| < minimum && !MoreOf(m)) then
        Going(s.(started := true, sent := s.sent + (if s.started then [m] else [Start(s.start.value), m])))
      else if s.closed then Raised(s)
      else
        var written, closed := s.written + [BodyOf(m)], !MoreOf(m);
        var output := if closed then s.buffer + g.emit(written) + g.finish(written) else s.buffer + g.emit(written);
        var out := m.(body := Some(output));
        var next := s.(started := true, written := written, closed := closed);
        if s.started then Going(next.(buffer := [], sent := s.sent + [out]))
        else
          var event := Relabelled(s.start.value, if closed then Some(|output|) else None);
          Going(next.(start := Some(event), buffer := if closed then output else [], sent := s.sent + [Start(event), out]))
  }

  /** The start message of a compressed response. */
  function Relabelled(event: StartEvent, length: Option<nat>): StartEvent {
    event.(headers := WithoutFraming(event.headers) + [Header(CONTENT_ENCODING, "gzip")] +
      (if length.Some? then [Header(CONTENT_LENGTH, Digits(length.value))] else []))
  }

  /** All messages of the application in order, up to the first that raises. */
  function Run(g: Gzip, minimum: int, s: State, ms: seq<Message>): Outcome
    decreases |ms|
  {
    if ms == [] then Going(s)
    else
      var next := Step(g, minimum, s, ms[0]);
      if next.Raised? then next else Run(g, minimum, next.state, ms[1..])
  }

  class Wrapper {
    const gzip: Gzip
    const minimumSize: int
    var startMessage: Option<StartEvent>
    var contentEncodingSet: bool
    var started: bool
    var gzipBuffer: Bytes
    var written: seq<Bytes>
    var closed: bool
    var sent: seq<Message>

    ghost function View(): State
      reads this
    {
      State(startMessage, contentEncodingSet, started, gzipBuffer, written, closed, sent)
    }

    constructor (gzip: Gzip, minimumSize: int)
      ensures View() == Initial(gzip) && this.gzip == gzip && this.minimumSize == minimumSize
    {
      this.gzip := gzip;
      this.minimumSize := minimumSize;
      startMessage, contentEncodingSet, started := None, false, false;
      gzipBuffer, written, closed, sent := gzip.header, [], false, [];
    }

    method Send(m: Message)
      modifies this`sent
      ensures sent == old(sent) + [m]
    {
      sent := sent + [m];
    }

    /** Writing to a closed file raises. */
    method WriteFile(data: Bytes) returns (ok: bool)
      modifies this`gzipBuffer, this`written
      ensures ok == !closed
      ensures written == (if ok then old(written) + [data] else old(written))
      ensures gzipBuffer == (if ok then old(gzipBuffer) + gzip.emit(written) else old(gzipBuffer))
    {
      ok := !closed;
      if ok {
        written := written + [data];
        gzipBuffer := gzipBuffer + gzip.emit(written);
      }
    }

    method CloseFile()
      modifies this`gzipBuffer, this`closed
      ensures closed && gzipBuffer == old(gzipBuffer) + (if old(closed) then [] else gzip.finish(written))
    {
      if !closed {
        gzipBuffer := gzipBuffer + gzip.finish(written);
        closed := true;
      }
    }

    method SendCompressed(message: Message) returns (raised: bool)
      requires Valid(View())
      modifies this
      ensures Valid(View())
      ensures Step(gzip, minimumSize, old(View()), message) == if raised then Raised(View()) else Going(View())
    {
      raised := false;
      if message.Start? {
        startMessage := Some(message.event);
        contentEncodingSet := Values(message.event.headers, CONTENT_ENCODING) != [];
      } else if message.Body? && contentEncodingSet {
        if !started {
          started := true;
          Send(Start(startMessage.value));
        }
        Send(message);
        assert !old(started) ==> sent == old(sent) + [Start(startMessage.value), message];
      } else if message.Body? && !started {
        raised := startMessage.None?;
        if !raised {
          SendFirst(message);
        }
      } else if message.Body? {
        var ok := WriteFile(BodyOf(message));
        raised := !ok;
        if ok {
          if !MoreOf(message) {
            CloseFile();
          }
          Send(message.(body := Some(gzipBuffer)));
          gzipBuffer := [];
        }
      }
    }

    /** The first body of a response that the application has not encoded. */
    method SendFirst(message: Message)
      requires Valid(View()) && message.Body? && !started && startMessage.Some? && !contentEncodingSet
      modifies this
      ensures Valid(View()) && Going(View()) == Step(gzip, minimumSize, old(View()), message)
    {
      started := true;
      if |BodyOf(message)| < minimumSize && !MoreOf(message) {
        Send(Start(startMessage.value));
        Send(message);
        assert sent == old(sent) + [Start(startMessage.value), message];
      } else if !MoreOf(message) {
        var _ := WriteFile(BodyOf(message));
        CloseFile();
        startMessage := Some(Relabelled(startMessage.value, Some(|gzipBuffer|)));
        Send(Start(startMessage.value));
        Send(message.(body := Some(gzipBuffer)));
        assert sent == old(sent) + [Start(startMessage.value), message.(body := Some(gzipBuffer))];
      } else {
        startMessage := Some(Relabelled(startMessage.value, None));
        var _ := WriteFile(BodyOf(message));
        var output := gzipBuffer;
        gzipBuffer := [];
        Send(Start(startMessage.value));
        Send(message.(body := Some(output)));
        assert sent == old(sent) + [Start(startMessage.value), message.(body := Some(output))];
      }
    }
  }

  // ---- every run: one start, before every body, and the flags kept

  /** Nothing sent yet, or one start message and then bodies only. */
  ghost predicate OneStartThenBodies(s: State) {
    && (s.started <==> s.sent != [])
    && (s.sent != [] ==> s.sent[0].Start?)
    && (forall i | 0 < i < |s.sent| :: s.sent[i].Body?)
  }

  function Flags(ms: seq<Message>): seq<Option<bool>> {
    if ms == [] then [] else (if ms[0].Body? then [ms[0].more] else []) + Flags(ms[1..])
  }

  lemma {:induction false} FlagsConcat(a: seq<Message>, b: seq<Message>)
    ensures Flags(a + b) == Flags(a) + Flags(b)
  {
    if a == [] {
      assert a + b == b;
    } else {
      FlagsConcat(a[1..], b);
      assert (a + b)[1..] == a[1..] + b;
      Regroup(if a[0].Body? then [a[0].more] else [], Flags(a[1..]), Flags(b));
    }
  }

  lemma {:induction false} FlagsOfTwo(a: Message, b: Message)
    ensures Flags([a, b]) == Flags([a]) + Flags([b])
  {
    FlagsConcat([a], [b]);
    assert [a] + [b] == [a, b];
  }

  lemma {:induction false} FlagsOfOne(m: Message)
    ensures Flags([m]) == if m.Body? then [m.more] else []
  {
    assert [m][1..] == [];
  }

  lemma {:induction false} StepKeepsShape(g: Gzip, minimum: int, s: State, m: Message)
    requires Valid(s) && OneStartThenBodies(s)
    ensures Valid(Step(g, minimum, s, m).state) && OneStartThenBodies(Step(g, minimum, s, m).state)
  {
  }

  /** A body message adds one body with its flag, behind a start message if it is the first. */
  lemma {:induction false} StepSends(g: Gzip, minimum: int, s: State, m: Message) returns (first: Message, last: Message)
    requires m.Body? && Step(g, minimum, s, m).Going?
    ensures first.Start? && last.Body? && last.more == m.more
    ensures Step(g, minimum, s, m).state.sent == s.sent + if s.started then [last] else [first, last]
  {
    var r := Step(g, minimum, s, m).state;
    last := r.sent[|r.sent| - 1];
    first := if s.started then Start(s.start.value) else r.sent[|s.sent|];
  }

  lemma {:induction false} StepKeepsFlags(g: Gzip, minimum: int, s: State, m: Message)
    requires Step(g, minimum, s, m).Going?
    ensures Flags(Step(g, minimum, s, m).state.sent) == Flags(s.sent) + Flags([m])
  {
    FlagsOfOne(m);
    if m.Body? {
      var first, last := StepSends(g, minimum, s, m);
      FlagsConcat(s.sent, if s.started then [last] else [first, last]);
      FlagsOfTwo(first, last);
      FlagsOfOne(first);
      FlagsOfOne(last);
    }
  }

  /** Over every sequence of messages, well formed or not, raising or not, the wrapper sends one start and then bodies. */
  lemma {:induction false} RunKeepsShape(g: Gzip, minimum: int, s: State, ms: seq<Message>)
    requires Valid(s) && OneStartThenBodies(s)
    ensures OneStartThenBodies(Run(g, minimum, s, ms).state)
    decreases |ms|
  {
    if ms != [] {
      StepKeepsShape(g, minimum, s, ms[0]);
      var next := Step(g, minimum, s, ms[0]);
      if next.Going? {
        RunKeepsShape(g, minimum, next.state, ms[1..]);
      }
    }
  }

  /** Every body message is answered by one body message with the same flag. */
  lemma {:induction false} RunKeepsFlags(g: Gzip, minimum: int, s: State, ms: seq<Message>)
    requires Run(g, minimum, s, ms).Going?
    ensures Flags(Run(g, minimum, s, ms).state.sent) == Flags(s.sent) + Flags(ms)
    decreases |ms|
  {
    if ms != [] {
      var next := Step(g, minimum, s, ms[0]).state;
      StepKeepsFlags(g, minimum, s, ms[0]);
      RunKeepsFlags(g, minimum, next, ms[1..]);
      assert ms == [ms[0]] + ms[1..];
      FlagsConcat([ms[0]], ms[1..]);
    }
  }

  function WithoutOthers(ms: seq<Message>): seq<Message> {
    if ms == [] then [] else (if ms[0].Other? then [] else [ms[0]]) + WithoutOthers(ms[1..])
  }

  /** Messages of any other type vanish: the run is that of the remaining messages. */
  lemma {:induction false} OthersVanish(g: Gzip, minimum: int, s: State, ms: seq<Message>)
    ensures Run(g, minimum, s, ms) == Run(g, minimum, s, WithoutOthers(ms))
    decreases |ms|
  {
    if ms != [] {
      var rest := WithoutOthers(ms[1..]);
      var next := Step(g, minimum, s, ms[0]);
      if next.Going? {
        OthersVanish(g, minimum, next.state, ms[1..]);
      }
      assert ([ms[0]] + rest)[1..] == rest && [] + rest == rest;
    }
  }

  // ---- well-formed responses

  /** One start, then bodies of which only the last says that no more follows. */
  ghost predicate WellFormed(ms: seq<Message>) {
    |ms| >= 2 && ms[0].Start? && BodiesToEnd(ms[1..])
  }

  ghost predicate BodiesToEnd(ms: seq<Message>) {
    ms != [] && ms[0].Body? && (MoreOf(ms[0]) <==> |ms| > 1) && (|ms| > 1 ==> BodiesToEnd(ms[1..]))
  }

  function Payload(ms: seq<Message>): Bytes {
    if ms == [] then [] else BodyOf(ms[0]) + Payload(ms[1..])
  }

  /** The response as a client understands it, once it has undone a lone gzip coding (section 8.4 of RFC 9110). */
  datatype Reply = Reply(status: nat, fields: seq<Header>, codings: seq<string>, content: Option<Bytes>)

  function Received(g: Gzip, ms: seq<Message>): Reply
    requires ms != [] && ms[0].Start?
  {
    var event, payload := ms[0].event, Payload(ms);
    var codings := Values(event.headers, CONTENT_ENCODING);
    if codings == ["gzip"] then Reply(event.status, WithoutFraming(event.headers), [], g.decode(payload))
    else Reply(event.status, WithoutFraming(event.headers), codings, Some(payload))
  }

  // ---- what the client reads from the header fields

  lemma {:induction false} FramingNames()
    ensures Lower(CONTENT_ENCODING) == CONTENT_ENCODING && Lower(CONTENT_LENGTH) == CONTENT_LENGTH
  {
  }

  lemma {:induction false} Regroup<T>(a: seq<T>, b: seq<T>, c: seq<T>)
    ensures a + (b + c) == a + b + c
  {
  }

  lemma {:induction false} ValuesConcat(a: seq<Header>, b: seq<Header>, name: string)
    ensures Values(a + b, name) == Values(a, name) + Values(b, name)
  {
    if a == [] {
      assert a + b == b;
    } else {
      ValuesConcat(a[1..], b, name);
      assert (a + b)[1..] == a[1..] + b;
      Regroup(if Named(a[0], name) && a[0].value != "" then [a[0].value] else [], Values(a[1..], name), Values(b, name));
    }
  }

  lemma {:induction false} StrippedConcat(a: seq<Header>, b: seq<Header>)
    ensures WithoutFraming(a + b) == WithoutFraming(a) + WithoutFraming(b)
  {
    if a == [] {
      assert a + b == b;
    } else {
      StrippedConcat(a[1..], b);
      assert (a + b)[1..] == a[1..] + b;
      Regroup(if Framing(a[0]) then [] else [a[0]], WithoutFraming(a[1..]), WithoutFraming(b));
    }
  }

  lemma {:induction false} Stripped(headers: seq<Header>, name: string)
    requires name == CONTENT_ENCODING || name == CONTENT_LENGTH
    ensures Values(WithoutFraming(headers), name) == [] && WithoutFraming(WithoutFraming(headers)) == WithoutFraming(headers)
  {
    if headers != [] {
      Stripped(headers[1..], name);
      var rest := WithoutFraming(headers[1..]);
      assert ([headers[0]] + rest)[1..] == rest && [] + rest == rest;
    }
  }

  lemma {:induction false} OneField(h: Header, name: string)
    ensures Values([h], name) == (if Named(h, name) && h.value != "" then [h.value] else [])
    ensures WithoutFraming([h]) == if Framing(h) then [] else [h]
  {
    assert [h][1..] == [];
  }

  lemma {:induction false} RelabelledCoding(event: StartEvent, length: Option<nat>)
    ensures Values(Relabelled(event, length).headers, CONTENT_ENCODING) == ["gzip"]
  {
    RelabelledValues(event, length, CONTENT_ENCODING);
  }

  lemma {:induction false} RelabelledLength(event: StartEvent, length: Option<nat>)
    ensures Values(Relabelled(event, length).headers, CONTENT_LENGTH) == if length.Some? then [Digits(length.value)] else []
  {
    RelabelledValues(event, length, CONTENT_LENGTH);
  }

  lemma {:induction false} RelabelledValues(event: StartEvent, length: Option<nat>, name: string)
    requires name == CONTENT_ENCODING || name == CONTENT_LENGTH
    ensures Values(Relabelled(event, length).headers, name) ==
            if name == CONTENT_ENCODING then ["gzip"] else if length.Some? then [Digits(length.value)] else []
  {
    FramingNames();
    Stripped(event.headers, name);
    var base, coding := WithoutFraming(event.headers), Header(CONTENT_ENCODING, "gzip");
    ValuesConcat(base, [coding], name);
    OneField(coding, name);
    var extra := if length.Some? then [Header(CONTENT_LENGTH, Digits(length.value))] else [];
    ValuesConcat(base + [coding], extra, name);
    if length.Some? {
      OneField(Header(CONTENT_LENGTH, Digits(length.value)), name);
    }
  }

  lemma {:induction false} RelabelledKeepsRest(event: StartEvent, length: Option<nat>)
    ensures WithoutFraming(Relabelled(event, length).headers) == WithoutFraming(event.headers)
  {
    FramingNames();
    Stripped(event.headers, CONTENT_LENGTH);
    var base, coding := WithoutFraming(event.headers), Header(CONTENT_ENCODING, "gzip");
    StrippedConcat(base, [coding]);
    OneField(coding, CONTENT_ENCODING);
    var extra := if length.Some? then [Header(CONTENT_LENGTH, Digits(length.value))] else [];
    StrippedConcat(base + [coding], extra);
    if length.Some? {
      OneField(Header(CONTENT_LENGTH, Digits(length.value)), CONTENT_LENGTH);
    }
    assert base + [] == base;
  }

  /** A written Content-Length reads back as the number. */
  lemma {:induction false} LengthReadsBack(n: nat)
    ensures Number(Digits(n)) == Some(n)
  {
    if n >= 10 {
      LengthReadsBack(n / 10);
      var s := Digits(n);
      assert s[..|s| - 1] == Digits(n / 10);
    }
  }

  // ---- payloads

  lemma {:induction false} PayloadAppend(ms: seq<Message>, m: Message)
    ensures Payload(ms + [m]) == Payload(ms) + BodyOf(m)
  {
    if ms == [] {
      assert [m][1..] == [] && ms + [m] == [m];
    } else {
      PayloadAppend(ms[1..], m);
      assert (ms + [m])[1..] == ms[1..] + [m];
      Regroup(BodyOf(ms[0]), Payload(ms[1..]), BodyOf(m));
    }
  }

  lemma {:induction false} PayloadOfTwo(first: Message, last: Message)
    requires first.Start?
    ensures Payload([first, last]) == BodyOf(last)
  {
    assert [first, last][1..] == [last];
    PayloadAppend([], last);
    assert [] + [last] == [last] && Payload([last]) == BodyOf(last);
  }

  lemma {:induction false} Snoc(g: Gzip, chunks: seq<Bytes>, chunk: Bytes)
    ensures Concat(chunks + [chunk]) == Concat(chunks) + chunk
    ensures Emitted(g, chunks + [chunk]) == Emitted(g, chunks) + g.emit(chunks + [chunk])
  {
    var all := chunks + [chunk];
    assert all[..|all| - 1] == chunks;
  }

  /** Bodies of a response that the application has encoded itself go through unchanged. */
  lemma {:induction false} PassThrough(g: Gzip, minimum: int, s: State, ms: seq<Message>)
    requires s.encodingSet && s.started && s.start.Some? && (ms != [] ==> BodiesToEnd(ms))
    ensures Run(g, minimum, s, ms) == Going(s.(sent := s.sent + ms))
    decreases |ms|
  {
    if ms == [] {
      assert s.sent + ms == s.sent;
    } else {
      var next := s.(sent := s.sent + [ms[0]]);
      PassThrough(g, minimum, next, ms[1..]);
      assert s.sent + [ms[0]] + ms[1..] == s.sent + ms;
    }
  }

  /** The stream so far is what the compressor put out, and nothing is held back. */
  ghost predicate Streaming(g: Gzip, s: State) {
    && s.started && s.start.Some? && !s.encodingSet && !s.closed && s.buffer == []
    && s.sent != [] && Payload(s.sent) == Emitted(g, s.written)
  }

  ghost predicate Complete(g: Gzip, s: State) {
    Payload(s.sent) == Emitted(g, s.written) + g.finish(s.written)
  }

  lemma {:induction false} StreamStep(g: Gzip, minimum: int, s: State, m: Message)
    requires Streaming(g, s) && m.Body?
    ensures var o := Step(g, minimum, s, m);
            && o.Going? && o.state.written == s.written + [BodyOf(m)] && o.state.sent != [] && o.state.sent[0] == s.sent[0]
            && (if MoreOf(m) then Streaming(g, o.state) else Complete(g, o.state))
  {
    var r := Step(g, minimum, s, m).state;
    var e := g.emit(r.written);
    var last := m.(body := Some(if MoreOf(m) then [] + e else [] + e + g.finish(r.written)));
    assert r.sent == s.sent + [last];
    PayloadAppend(s.sent, last);
    Snoc(g, s.written, BodyOf(m));
    assert [] + e == e;
    Regroup(Emitted(g, s.written), e, g.finish(r.written));
  }

  lemma {:induction false} StreamToEnd(g: Gzip, minimum: int, s: State, ms: seq<Message>)
    requires Streaming(g, s) && BodiesToEnd(ms)
    ensures var o := Run(g, minimum, s, ms);
            && o.Going? && o.state.sent != [] && o.state.sent[0] == s.sent[0]
            && Complete(g, o.state) && Concat(o.state.written) == Concat(s.written) + Payload(ms)
    decreases |ms|
  {
    var next := Step(g, minimum, s, ms[0]).state;
    StreamStep(g, minimum, s, ms[0]);
    Snoc(g, s.written, BodyOf(ms[0]));
    if |ms| > 1 {
      StreamToEnd(g, minimum, next, ms[1..]);
      Regroup(Concat(s.written), BodyOf(ms[0]), Payload(ms[1..]));
    } else {
      assert ms[1..] == [];
    }
  }

  // ---- transparency

  /** The wrapper compresses: the application has not encoded the response, and it is long or arrives in pieces. */
  predicate Compresses(minimum: int, ms: seq<Message>)
    requires |ms| >= 2 && ms[0].Start?
  {
    Values(ms[0].event.headers, CONTENT_ENCODING) == [] && (MoreOf(ms[1]) || |BodyOf(ms[1])| >= minimum)
  }

  /** A response that is not compressed is sent message by message as it came. */
  lemma {:induction false} Untouched(g: Gzip, minimum: int, ms: seq<Message>)
    requires WellFormed(ms) && !Compresses(minimum, ms)
    ensures var o := Run(g, minimum, Initial(g), ms); o.Going? && o.state.sent == ms
  {
    var s1 := Step(g, minimum, Initial(g), ms[0]).state;
    var s2 := Step(g, minimum, s1, ms[1]).state;
    var rest := ms[2..];
    assert ms[1..][0] == ms[1] && ms[1..][1..] == rest;
    RunFromSecond(g, minimum, ms);
    assert s2.sent == [ms[0], ms[1]];
    if s1.encodingSet {
      PassThrough(g, minimum, s2, rest);
    } else {
      assert rest == [];
    }
    assert ms == [ms[0], ms[1]] + rest;
  }

  /** What a compressed response looks like: relabelled, and its payload is a complete compressed form of the original. */
  ghost predicate CompressedForm(g: Gzip, ms: seq<Message>, s: State) {
    && ms != [] && ms[0].Start? && s.sent != []
    && s.sent[0] == Start(Relabelled(ms[0].event, if |ms| == 2 then Some(|Payload(s.sent)|) else None))
    && Complete(g, s) && Concat(s.written) == Payload(ms)
  }

  lemma {:induction false} PayloadOfResponse(ms: seq<Message>)
    requires |ms| >= 2 && ms[0].Start?
    ensures Payload(ms) == BodyOf(ms[1]) + Payload(ms[2..])
  {
    assert ms[1..][1..] == ms[2..];
    assert Payload(ms[1..]) == BodyOf(ms[1]) + Payload(ms[2..]);
  }

  lemma {:induction false} RunFromSecond(g: Gzip, minimum: int, ms: seq<Message>)
    requires |ms| >= 2 && ms[0].Start? && ms[1].Body?
    requires Step(g, minimum, Step(g, minimum, Initial(g), ms[0]).state, ms[1]).Going?
    ensures Run(g, minimum, Initial(g), ms) ==
            Run(g, minimum, Step(g, minimum, Step(g, minimum, Initial(g), ms[0]).state, ms[1]).state, ms[2..])
  {
    var s1 := Step(g, minimum, Initial(g), ms[0]).state;
    assert ms[1..][0] == ms[1] && ms[1..][1..] == ms[2..];
    assert Run(g, minimum, s1, ms[1..]) == Run(g, minimum, Step(g, minimum, s1, ms[1]).state, ms[2..]);
  }

  lemma {:induction false} Compressed(g: Gzip, minimum: int, ms: seq<Message>)
    requires WellFormed(ms) && Compresses(minimum, ms)
    ensures var o := Run(g, minimum, Initial(g), ms); o.Going? && CompressedForm(g, ms, o.state)
  {
    var s1 := Step(g, minimum, Initial(g), ms[0]).state;
    var s2 := Step(g, minimum, s1, ms[1]).state;
    assert ms[1..][0] == ms[1] && ms[1..][1..] == ms[2..];
    FirstCompressed(g, minimum, s1, ms[1]);
    RunFromSecond(g, minimum, ms);
    PayloadOfResponse(ms);
    if |ms| > 2 {
      StreamToEnd(g, minimum, s2, ms[2..]);
    }
  }

  lemma {:induction false} FirstCompressed(g: Gzip, minimum: int, s: State, m: Message)
    requires s.start.Some? && s == Initial(g).(start := s.start) && m.Body? && (MoreOf(m) || |BodyOf(m)| >= minimum)
    ensures var o := Step(g, minimum, s, m);
            && o.Going? && Concat(o.state.written) == BodyOf(m) && o.state.sent != []
            && o.state.sent[0] == Start(Relabelled(s.start.value, if MoreOf(m) then None else Some(|Payload(o.state.sent)|)))
            && (if MoreOf(m) then Streaming(g, o.state) else Complete(g, o.state))
  {
    var r := Step(g, minimum, s, m).state;
    Snoc(g, [], BodyOf(m));
    assert [] + [BodyOf(m)] == [BodyOf(m)] && [] + BodyOf(m) == BodyOf(m);
    var first, last := r.sent[0], r.sent[1];
    assert r.sent == [first, last];
    PayloadOfTwo(first, last);
  }

  /** For every well-formed response and every lawful compressor, the client receives what the application sent. */
  lemma {:induction false} Transparent(g: Gzip, minimum: int, ms: seq<Message>)
    requires Lawful(g) && WellFormed(ms)
    ensures var o := Run(g, minimum, Initial(g), ms);
            o.Going? && o.state.sent != [] && o.state.sent[0].Start? && Received(g, o.state.sent) == Received(g, ms)
  {
    if Compresses(minimum, ms) {
      Compressed(g, minimum, ms);
      var event := ms[0].event;
      var length := if |ms| == 2 then Some(|Payload(Run(g, minimum, Initial(g), ms).state.sent)|) else None;
      RelabelledCoding(event, length);
      RelabelledKeepsRest(event, length);
    } else {
      Untouched(g, minimum, ms);
    }
  }

  /** The response is sent as it came exactly when the wrapper does not compress. */
  lemma {:induction false} UntouchedExactly(g: Gzip, minimum: int, ms: seq<Message>)
    requires WellFormed(ms)
    ensures Run(g, minimum, Initial(g), ms).state.sent == ms <==> !Compresses(minimum, ms)
  {
    if Compresses(minimum, ms) {
      Compressed(g, minimum, ms);
      var length := if |ms| == 2 then Some(|Payload(Run(g, minimum, Initial(g), ms).state.sent)|) else None;
      RelabelledCoding(ms[0].event, length);
    } else {
      Untouched(g, minimum, ms);
    }
  }

  /** Every Content-Length denotes the number of bytes sent as bodies. */
  ghost predicate HonestLength(ms: seq<Message>) {
    ms != [] && ms[0].Start? && forall v | v in Values(ms[0].event.headers, CONTENT_LENGTH) :: Number(v) == Some(|Payload(ms)|)
  }

  /** A compressed response always states its length honestly; any other exactly when the application did. */
  lemma {:induction false} LengthsHonest(g: Gzip, minimum: int, ms: seq<Message>)
    requires WellFormed(ms)
    ensures HonestLength(Run(g, minimum, Initial(g), ms).state.sent) <==> Compresses(minimum, ms) || HonestLength(ms)
  {
    if Compresses(minimum, ms) {
      Compressed(g, minimum, ms);
      var n := |Payload(Run(g, minimum, Initial(g), ms).state.sent)|;
      RelabelledLength(ms[0].event, if |ms| == 2 then Some(n) else None);
      LengthReadsBack(n);
    } else {
      Untouched(g, minimum, ms);
    }
  }

  // ---- labels

  lemma {:induction false} NoValues(headers: seq<Header>, name: string)
    ensures Values(headers, name) == [] <==> forall i | 0 <= i < |headers| && Lower(headers[i].key) == name :: headers[i].value == ""
  {
    if headers != [] {
      NoValues(headers[1..], name);
      assert forall i | 0 < i < |headers| :: headers[i] == headers[1..][i - 1];
      assert forall i | 0 <= i < |headers[1..]| :: headers[1..][i] == headers[i + 1];
    }
  }

  /** Compressed is what is long or arrives in pieces, unless some Content-Encoding of the application has a value. */
  lemma {:induction false} CompressesExactly(minimum: int, ms: seq<Message>)
    requires |ms| >= 2 && ms[0].Start?
    ensures Compresses(minimum, ms) <==>
            && (forall i | 0 <= i < |ms[0].event.headers| && Lower(ms[0].event.headers[i].key) == "content-encoding" ::
                  ms[0].event.headers[i].value == "")
            && (MoreOf(ms[1]) || |BodyOf(ms[1])| >= minimum)
  {
    NoValues(ms[0].event.headers, CONTENT_ENCODING);
  }

  /** A compressed response says so: behind the other header fields come its coding and, if it was sent whole, its length. */
  lemma {:induction false} LabelledAsCompressed(g: Gzip, minimum: int, ms: seq<Message>)
    requires WellFormed(ms) && Compresses(minimum, ms)
    ensures var sent := Run(g, minimum, Initial(g), ms).state.sent;
            && sent != [] && sent[0].Start? && sent[0].event.status == ms[0].event.status
            && sent[0].event.headers ==
               WithoutFraming(ms[0].event.headers) + [Header("content-encoding", "gzip")]
               + (if |ms| == 2 then [Header("content-length", Digits(|Payload(sent)|))] else [])
  {
    Compressed(g, minimum, ms);
  }
}
