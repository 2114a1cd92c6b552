/**
 * The incremental decoder of the Bedrock event stream: bytes arrive in
 * arbitrary chunks, complete messages are cut off the front of a growing
 * buffer, and each one may emit an event or feed the tool-input accumulator.
 * A slice out of range or a missing key in an indexed JSON map panics in the
 * original and ends its task; here that is the sticky flag `panicked`.
 */
module EventStream {
  import opened Prelude
  import opened Wire
  import EventHeaders
  import Json

  /** `from_utf8_lossy` and `serde_json::from_str`, of which only "they are functions" is used. */
  datatype Codec = Codec(text: EventHeaders.Decode, json: string -> Option<Json.Value>)

  datatype Event =
    | TextDelta(text: string)
    | ToolUse(id: string, name: string, input: Json.Value)
    | TokenUsage(inputTokens: nat, outputTokens: nat, totalTokens: nat)
    | Stop
    | Error(message: string)

  /** The three accumulators threaded through `parse_event`. */
  datatype Tool = Tool(id: Option<string>, name: Option<string>, input: string)

  const NO_TOOL := Tool(None, None, "")

  datatype Outcome = Emit(event: Event) | Quiet | Malformed | Panic

  // ── One event ─────────────────────────────────────────────────────────

  function OnBlockStart(data: Json.Value, tool: Tool): (Tool, Outcome) {
    var use := Json.Index(Json.Index(data, "start"), "toolUse");
    if !use.Obj? then (tool, Quiet)
    else if "toolUseId" !in use.fields then (tool, Panic)
    else
      var tool' := tool.(id := Json.AsStr(use.fields["toolUseId"]));
      if "name" !in use.fields then (tool', Panic)
      else (Tool(tool'.id, Json.AsStr(use.fields["name"]), ""), Quiet)
  }

  function OnBlockDelta(data: Json.Value, tool: Tool): (Tool, Outcome) {
    var delta := Json.Index(data, "delta");
    var text := Json.Index(delta, "text");
    var input := Json.Index(Json.Index(delta, "toolUse"), "input");
    if text.Str? then (tool, Emit(TextDelta(text.s)))
    else if input.Str? then (tool.(input := tool.input + input.s), Quiet)
    else (tool, Quiet)
  }

  /** The accumulated input parsed, an empty object when it is not JSON. */
  function ParsedInput(c: Codec, input: string): Json.Value {
    match c.json(input)
    case Some(v) => v
    case None => Json.Obj(map[])
  }

  function OnBlockStop(c: Codec, tool: Tool): (Tool, Outcome) {
    if tool.id.Some? && tool.name.Some? then
      (NO_TOOL, Emit(ToolUse(tool.id.value, tool.name.value, ParsedInput(c, tool.input))))
    else (tool, Quiet)
  }

  function OnMetadata(data: Json.Value): Outcome {
    var usage := Json.Index(data, "usage");
    if !usage.Obj? then Quiet
    else if "inputTokens" !in usage.fields || "outputTokens" !in usage.fields then Panic
    else
      var sent := Json.AsU64OrZero(usage.fields["inputTokens"]);
      var got := Json.AsU64OrZero(usage.fields["outputTokens"]);
      Emit(TokenUsage(sent, got, (sent + got) % (U64_MAX + 1)))
  }

  function EventOutcome(c: Codec, kind: string, data: string, tool: Tool): (Tool, Outcome) {
    if kind == "contentBlockStop" then OnBlockStop(c, tool)
    else if kind == "messageStop" then (tool, Emit(Stop))
    else if kind != "contentBlockStart" && kind != "contentBlockDelta" && kind != "metadata" then (tool, Quiet)
    else match c.json(data)
      case None => (tool, Malformed)
      case Some(json) =>
        if kind == "contentBlockStart" then OnBlockStart(json, tool)
        else if kind == "contentBlockDelta" then OnBlockDelta(json, tool)
        else (tool, OnMetadata(json))
  }

  // ── One message ───────────────────────────────────────────────────────

  /** Everything the decoder remembers between bytes. */
  datatype Conn = Conn(buf: seq<byte>, tool: Tool, sent: seq<Event>, panicked: bool)

  const FRESH := Conn([], NO_TOOL, [], false)

  function OnPayload(c: Codec, kind: string, data: string, s: Conn): Conn {
    var (tool, outcome) := EventOutcome(c, kind, data, s.tool);
    match outcome
    case Emit(e) => s.(tool := tool, sent := s.sent + [e])
    case Panic => s.(tool := tool, panicked := true)
    case _ => s.(tool := tool)
  }

  /** The effect of one complete message, given its parsed headers. The buffer is not its concern. */
  function OnMessage(c: Codec, headers: EventHeaders.HeaderMap, payload: seq<byte>, s: Conn): (r: Conn)
    ensures r.buf == s.buf
    ensures s.sent <= r.sent
  {
    if ":message-type" in headers && headers[":message-type"] == "exception" then
      s.(sent := s.sent + [Error(c.text(payload))])
    else if ":event-type" !in headers || c.text(payload) == "" then s
    else OnPayload(c, headers[":event-type"], c.text(payload), s)
  }

  /** What the inner loop finds at the front of the buffer. */
  datatype Front =
    | Waiting
    | Broken
    | Full(headers: seq<byte>, payload: seq<byte>, rest: seq<byte>)

  /**
   * `Broken` when the announced lengths leave no room for prelude, headers and
   * both checksums: slicing the payload then panics.
   */
  function FrontOf(buf: seq<byte>): (f: Front)
    ensures f.Full? ==> |f.rest| < |buf|
  {
    if |buf| < 12 || |buf| < ReadBE32(buf) then Waiting
    else
      var total, headersEnd := ReadBE32(buf), 12 + ReadBE32(buf[4..]);
      if total < headersEnd + 4 then Broken
      else Full(buf[12..headersEnd], buf[headersEnd..total - 4], buf[total..])
  }

  function Panicked(s: Conn): Conn {
    s.(buf := [], panicked := true)
  }

  /** One turn of the inner loop. */
  function CutMessage(c: Codec, s: Conn): Conn
    requires !FrontOf(s.buf).Waiting?
  {
    match FrontOf(s.buf)
    case Broken => Panicked(s)
    case Full(headers, payload, rest) =>
      var s' := OnMessage(c, EventHeaders.Scan(headers, map[], c.text), payload, s);
      if s'.panicked then Panicked(s') else s'.(buf := rest)
  }

  /** The inner loop run to its end: the whole-stream decoder. */
  function Drain(c: Codec, s: Conn): Conn
    decreases !s.panicked, |s.buf|
  {
    if s.panicked || FrontOf(s.buf).Waiting? then s else Drain(c, CutMessage(c, s))
  }

  /** One chunk arrives. After a panic the task is gone and bytes go nowhere. */
  function Feed(c: Codec, s: Conn, chunk: seq<byte>): Conn {
    if s.panicked then s else Drain(c, s.(buf := s.buf + chunk))
  }

  function FeedAll(c: Codec, s: Conn, chunks: seq<seq<byte>>): Conn
    decreases |chunks|
  {
    if chunks == [] then s else FeedAll(c, Feed(c, s, chunks[0]), chunks[1..])
  }

  function Flatten(chunks: seq<seq<byte>>): seq<byte> {
    if chunks == [] then [] else chunks[0] + Flatten(chunks[1..])
  }

  // ── The decoder object ────────────────────────────────────────────────

  class Decoder {
    const codec: Codec
    var buf: seq<byte>
    var currentToolUseId: Option<string>
    var currentToolName: Option<string>
    var toolInputBuffer: string
    var sent: seq<Event>
    var panicked: bool

    ghost function State(): Conn
      reads this
    {
      Conn(buf, Tool(currentToolUseId, currentToolName, toolInputBuffer), sent, panicked)
    }

    constructor (codec: Codec)
      ensures this.codec == codec && State() == FRESH
    {
      this.codec := codec;
      buf, sent, panicked := [], [], false;
      currentToolUseId, currentToolName, toolInputBuffer := None, None, "";
    }

    /** `parse_event`. */
    method ParseEvent(kind: string, data: string) returns (outcome: Outcome)
      modifies this`currentToolUseId, this`currentToolName, this`toolInputBuffer
      ensures (State().tool, outcome) == EventOutcome(codec, kind, data, old(State().tool))
    {
      match kind {
        case "contentBlockStart" =>
          var parsed := codec.json(data);
          if parsed.None? {
            return Malformed;
          }
          var use := Json.Index(Json.Index(parsed.value, "start"), "toolUse");
          if use.Obj? {
            if "toolUseId" !in use.fields {
              return Panic;
            }
            currentToolUseId := Json.AsStr(use.fields["toolUseId"]);
            if "name" !in use.fields {
              return Panic;
            }
            currentToolName := Json.AsStr(use.fields["name"]);
            toolInputBuffer := "";
          }
          return Quiet;
        case "contentBlockDelta" =>
          var parsed := codec.json(data);
          if parsed.None? {
            return Malformed;
          }
          var delta := Json.Index(parsed.value, "delta");
          var text := Json.Index(delta, "text");
          if text.Str? {
            return Emit(TextDelta(text.s));
          }
          var input := Json.Index(Json.Index(delta, "toolUse"), "input");
          if input.Str? {
            toolInputBuffer := toolInputBuffer + input.s;
          }
          return Quiet;
        case "contentBlockStop" =>
          if currentToolUseId.Some? && currentToolName.Some? {
            var input := codec.json(toolInputBuffer);
            outcome := Emit(ToolUse(currentToolUseId.value, currentToolName.value,
                                    if input.Some? then input.value else Json.Obj(map[])));
            currentToolUseId, currentToolName, toolInputBuffer := None, None, "";
            return;
          }
          return Quiet;
        case "messageStop" =>
          return Emit(Stop);
        case "metadata" =>
          var parsed := codec.json(data);
          if parsed.None? {
            return Malformed;
          }
          return OnMetadata(parsed.value);
        case _ =>
          return Quiet;
      }
    }

    /** Acts on one message already cut out of the buffer; reports whether the task survives it. */
    method Dispatch(headers: EventHeaders.HeaderMap, payload: seq<byte>) returns (alive: bool)
      requires !panicked
      modifies this`currentToolUseId, this`currentToolName, this`toolInputBuffer, this`sent
      ensures State().(panicked := !alive) == OnMessage(codec, headers, payload, old(State()))
    {
      if ":message-type" in headers && headers[":message-type"] == "exception" {
        sent := sent + [Error(codec.text(payload))];
        return true;
      }
      if ":event-type" in headers {
        var data := codec.text(payload);
        if data != "" {
          var outcome := ParseEvent(headers[":event-type"], data);
          if outcome.Emit? {
            sent := sent + [outcome.event];
          }
          return !outcome.Panic?;
        }
      }
      return true;
    }

    /** One complete message is at the front of the buffer. */
    method TakeMessage()
      requires !panicked && !FrontOf(buf).Waiting?
      modifies this
      ensures State() == CutMessage(codec, old(State()))
    {
      match FrontOf(buf) {
        case Broken =>
          buf, panicked := [], true;
        case Full(headerBytes, payload, rest) =>
          var headers := EventHeaders.ParseEventHeaders(headerBytes, codec.text);
          var alive := Dispatch(headers, payload);
          if alive {
            buf := rest;
          } else {
            buf, panicked := [], true;
          }
      }
    }

    /** One turn of the outer loop of `parse_event_stream`. */
    method Receive(chunk: seq<byte>)
      modifies this
      ensures State() == Feed(codec, old(State()), chunk)
    {
      if panicked {
        return;
      }
      buf := buf + chunk;
      ghost var start := State();
      while !panicked && !(|buf| < 12 || |buf| < ReadBE32(buf))
        invariant Drain(codec, State()) == Drain(codec, start)
        decreases !panicked, |buf|
      {
        TakeMessage();
      }
    }

    /** End of the response body: a final `Stop`, unless the task is already gone. */
    method Finish()
      modifies this`sent
      ensures sent == if panicked then old(sent) else old(sent) + [Stop]
    {
      if !panicked {
        sent := sent + [Stop];
      }
    }
  }

  // ── Chunk invariance ──────────────────────────────────────────────────

  lemma FrontOfLonger(buf: seq<byte>, more: seq<byte>)
    requires !FrontOf(buf).Waiting?
    ensures FrontOf(buf + more) == match FrontOf(buf)
                                   case Full(h, p, rest) => Full(h, p, rest + more)
                                   case f => f
  {
    var longer := buf + more;
    assert longer[2..] == buf[2..] + more && longer[4..] == buf[4..] + more && longer[4..][2..] == buf[4..][2..] + more;
    assert ReadBE32(longer) == ReadBE32(buf) && ReadBE32(longer[4..]) == ReadBE32(buf[4..]);
    if FrontOf(buf).Full? {
      var total, headersEnd := ReadBE32(buf), 12 + ReadBE32(buf[4..]);
      assert longer[12..headersEnd] == buf[12..headersEnd];
      assert longer[headersEnd..total - 4] == buf[headersEnd..total - 4];
      assert longer[total..] == buf[total..] + more;
    }
  }

  /** Bytes that arrive later never change how the bytes already there are read. */
  lemma {:induction false} DrainThenMore(c: Codec, s: Conn, more: seq<byte>)
    requires !s.panicked
    ensures Drain(c, s.(buf := s.buf + more)) == Feed(c, Drain(c, s), more)
    decreases |s.buf|
  {
    if !FrontOf(s.buf).Waiting? {
      var longer := s.(buf := s.buf + more);
      FrontOfLonger(s.buf, more);
      MessageIgnoresBuffer(c, s, longer);
      var next := CutMessage(c, s);
      if next.panicked {
        assert CutMessage(c, longer) == next;
      } else {
        assert CutMessage(c, longer) == next.(buf := next.buf + more);
        DrainThenMore(c, next, more);
      }
    }
  }

  lemma MessageIgnoresBuffer(c: Codec, s: Conn, t: Conn)
    requires t == s.(buf := t.buf)
    ensures forall h, p :: OnMessage(c, h, p, t) == OnMessage(c, h, p, s).(buf := t.buf)
  {
  }

  /** What is left after a drain cannot be drained further. */
  lemma {:induction false} DrainIsDone(c: Codec, s: Conn)
    ensures var d := Drain(c, s); d.panicked || FrontOf(d.buf).Waiting?
    decreases !s.panicked, |s.buf|
  {
    if !s.panicked && !FrontOf(s.buf).Waiting? {
      DrainIsDone(c, CutMessage(c, s));
    }
  }

  /**
   * Chunk invariance, for every byte stream, well formed or not: however the
   * bytes are cut, the events sent, the tool state, the bytes left over and
   * whether the task died are those of decoding everything at once.
   */
  lemma {:induction false} ChunkInvariance(c: Codec, s: Conn, chunks: seq<seq<byte>>)
    requires s.panicked || FrontOf(s.buf).Waiting?
    ensures FeedAll(c, s, chunks) == Feed(c, s, Flatten(chunks))
    decreases |chunks|
  {
    if chunks == [] {
      assert s.buf + [] == s.buf;
    } else if !s.panicked {
      var first := s.(buf := s.buf + chunks[0]);
      var after := Drain(c, first);
      DrainIsDone(c, first);
      ChunkInvariance(c, after, chunks[1..]);
      assert s.buf + Flatten(chunks) == first.buf + Flatten(chunks[1..]);
      DrainThenMore(c, first, Flatten(chunks[1..]));
    } else {
      ChunkInvariance(c, s, chunks[1..]);
    }
  }

  /** Two ways to cut the same bytes cannot be told apart. */
  lemma SameBytesSameEvents(c: Codec, chunks: seq<seq<byte>>, others: seq<seq<byte>>)
    requires Flatten(chunks) == Flatten(others)
    ensures FeedAll(c, FRESH, chunks) == FeedAll(c, FRESH, others)
  {
    ChunkInvariance(c, FRESH, chunks);
    ChunkInvariance(c, FRESH, others);
  }

  // ── Encoded messages ──────────────────────────────────────────────────

  datatype Message = Message(headers: seq<EventHeaders.Header>, payload: seq<byte>,
                             preludeCrc: seq<byte>, messageCrc: seq<byte>)

  predicate WellFormed(m: Message) {
    && EventHeaders.AllEncodable(m.headers)
    && |m.preludeCrc| == 4 && |m.messageCrc| == 4
    && |EventHeaders.EncodeHeaders(m.headers)| + |m.payload| + 16 < TWO32
  }

  predicate AllWellFormed(ms: seq<Message>) {
    forall m | m in ms :: WellFormed(m)
  }

  function EncodeMessage(m: Message): (r: seq<byte>)
    requires WellFormed(m)
    ensures |r| >= 16
  {
    var headers := EventHeaders.EncodeHeaders(m.headers);
    WriteBE32(|headers| + |m.payload| + 16) + WriteBE32(|headers|) + m.preludeCrc + headers + m.payload + m.messageCrc
  }

  function EncodeStream(ms: seq<Message>): seq<byte>
    requires AllWellFormed(ms)
  {
    if ms == [] then [] else EncodeMessage(ms[0]) + EncodeStream(ms[1..])
  }

  function InterpretOne(c: Codec, m: Message, s: Conn): (r: Conn)
    ensures r.buf == s.buf
  {
    OnMessage(c, EventHeaders.Meaning(m.headers, map[], c.text), m.payload, s)
  }

  /** The meaning of a list of messages, with no bytes in sight. */
  function Interpret(c: Codec, ms: seq<Message>, s: Conn): Conn {
    if ms == [] || s.panicked then s
    else
      Interpret(c, ms[1..], InterpretOne(c, ms[0], s))
  }

  /** The decoder cuts an encoded message exactly where it ends. */
  lemma FrontOfEncoded(m: Message, tail: seq<byte>)
    requires WellFormed(m)
    ensures FrontOf(EncodeMessage(m) + tail) == Full(EventHeaders.EncodeHeaders(m.headers), m.payload, tail)
  {
    var headers := EventHeaders.EncodeHeaders(m.headers);
    var total := |headers| + |m.payload| + 16;
    var buf := EncodeMessage(m) + tail;
    var after := m.preludeCrc + headers + m.payload + m.messageCrc + tail;
    PreludeOf(total, |headers|, after, buf);
    BodyOf(buf, m.preludeCrc, headers, m.payload, m.messageCrc, tail);
  }

  lemma PreludeOf(total: nat, headersLen: nat, after: seq<byte>, buf: seq<byte>)
    requires total < TWO32 && headersLen < TWO32
    requires buf == WriteBE32(total) + WriteBE32(headersLen) + after
    ensures ReadBE32(buf) == total && ReadBE32(buf[4..]) == headersLen
    ensures buf[8..] == after
  {
    assert buf == WriteBE32(total) + (WriteBE32(headersLen) + after);
    assert buf[4..] == WriteBE32(headersLen) + after;
    ReadWriteBE32(total, WriteBE32(headersLen) + after);
    ReadWriteBE32(headersLen, after);
  }

  lemma BodyOf(buf: seq<byte>, crc: seq<byte>, headers: seq<byte>, payload: seq<byte>, crc': seq<byte>, tail: seq<byte>)
    requires |buf| >= 8 && |crc| == |crc'| == 4
    requires buf[8..] == crc + headers + payload + crc' + tail
    ensures var total := |headers| + |payload| + 16;
            && |buf| >= total
            && buf[12..12 + |headers|] == headers
            && buf[12 + |headers|..total - 4] == payload
            && buf[total..] == tail
  {
    var total, body := |headers| + |payload| + 16, buf[8..];
    SliceOfTail(buf, 8, 4, 4 + |headers|);
    SliceOfTail(buf, 8, 4 + |headers|, total - 12);
    SliceOfTail(buf, 8, total - 8, |body|);
    assert body[4..4 + |headers|] == headers;
    assert body[4 + |headers|..total - 12] == payload;
    assert body[total - 8..|body|] == tail;
    assert buf[total..|buf|] == buf[total..];
  }

  lemma SliceOfTail(s: seq<byte>, n: nat, a: nat, b: nat)
    requires n <= |s| && a <= b <= |s| - n
    ensures s[n..][a..b] == s[n + a..n + b]
  {
  }

  /** Fewer bytes than the next message needs: the loop waits. */
  lemma PartialMessageWaits(m: Message, have: seq<byte>, missing: seq<byte>)
    requires WellFormed(m) && have + missing == EncodeMessage(m) && missing != []
    ensures FrontOf(have).Waiting?
  {
    FrontOfEncoded(m, []);
    assert EncodeMessage(m) + [] == have + missing;
    if !FrontOf(have).Waiting? {
      FrontOfLonger(have, missing);
    }
  }

  lemma CutEncodedMessage(c: Codec, m: Message, tail: seq<byte>, s: Conn)
    requires WellFormed(m) && s.buf == EncodeMessage(m) + tail
    ensures !FrontOf(s.buf).Waiting?
    ensures var next := InterpretOne(c, m, s);
            CutMessage(c, s) == if next.panicked then Panicked(next) else next.(buf := tail)
  {
    FrontOfEncoded(m, tail);
    EventHeaders.HeaderRoundTrip(m.headers, map[], c.text);
  }

  lemma {:induction false} InterpretIgnoresBuffer(c: Codec, ms: seq<Message>, s: Conn, buf: seq<byte>)
    ensures Interpret(c, ms, s.(buf := buf)) == Interpret(c, ms, s).(buf := buf)
  {
    if ms != [] && !s.panicked {
      MessageIgnoresBuffer(c, s, s.(buf := buf));
      InterpretIgnoresBuffer(c, ms[1..], InterpretOne(c, ms[0], s), buf);
    }
  }

  /** The bytes received so far have the effect of the first `k` messages and hold part of the next one. */
  ghost predicate HoldsPartOf(c: Codec, ms: seq<Message>, k: nat, s: Conn, missing: seq<byte>)
    requires AllWellFormed(ms)
  {
    && k <= |ms|
    && var d, meant := Drain(c, s), Interpret(c, ms[..k], s);
       if meant.panicked then d == Panicked(meant)
       else
         && d == meant.(buf := d.buf)
         && d.buf + missing == EncodeStream(ms[k..])
         && (k < |ms| ==> |d.buf| < |EncodeMessage(ms[k])|)
  }

  lemma CutsAlign(whole: seq<byte>, rest: seq<byte>, got: seq<byte>, missing: seq<byte>)
    requires whole + rest == got + missing
    ensures if |got| < |whole| then got + whole[|got|..] == whole
            else got == whole + got[|whole|..] && got[|whole|..] + missing == rest
  {
    if |got| < |whole| {
      assert got == (got + missing)[..|got|] == whole[..|got|];
    } else {
      assert whole == (got + missing)[..|whole|] == got[..|whole|];
      assert rest == (got + missing)[|whole|..];
    }
  }

  lemma OneMoreMessage(c: Codec, ms: seq<Message>, k: nat, s: Conn, tail: seq<byte>, missing: seq<byte>)
    requires AllWellFormed(ms) && ms != [] && !s.panicked && s.buf == EncodeMessage(ms[0]) + tail
    requires var next := InterpretOne(c, ms[0], s);
             !next.panicked && HoldsPartOf(c, ms[1..], k, next.(buf := tail), missing)
    ensures HoldsPartOf(c, ms, k + 1, s, missing)
  {
    CutEncodedMessage(c, ms[0], tail, s);
    var next := InterpretOne(c, ms[0], s);
    assert Drain(c, s) == Drain(c, next.(buf := tail));
    assert ms[..k + 1][0] == ms[0] && ms[..k + 1][1..] == ms[1..][..k];
    assert ms[k + 1..] == ms[1..][k..];
    assert Interpret(c, ms[..k + 1], s) == Interpret(c, ms[1..][..k], next);
    InterpretIgnoresBuffer(c, ms[1..][..k], next, tail);
  }

  /**
   * At every instant of a well-formed stream: after any prefix of the bytes
   * exactly the first `k` messages have taken effect, and the buffer holds
   * the received part of message `k`, which is not yet all of it.
   */
  lemma {:induction false} BufferHoldsNextMessage(c: Codec, ms: seq<Message>, got: seq<byte>, missing: seq<byte>, s: Conn)
    returns (k: nat)
    requires AllWellFormed(ms) && EncodeStream(ms) == got + missing
    requires !s.panicked && s.buf == got
    ensures HoldsPartOf(c, ms, k, s, missing)
  {
    k := 0;
    if ms == [] {
      assert ms[0..] == [];
    } else {
      var whole := EncodeMessage(ms[0]);
      CutsAlign(whole, EncodeStream(ms[1..]), got, missing);
      if |got| < |whole| {
        PartialMessageWaits(ms[0], got, whole[|got|..]);
        assert ms[0..] == ms && ms[..0] == [];
      } else {
        var tail := got[|whole|..];
        var next := InterpretOne(c, ms[0], s);
        if next.panicked {
          CutEncodedMessage(c, ms[0], tail, s);
          k := 1;
          assert ms[..1] == [ms[0]];
        } else {
          var k' := BufferHoldsNextMessage(c, ms[1..], tail, missing, next.(buf := tail));
          OneMoreMessage(c, ms, k', s, tail, missing);
          k := k' + 1;
        }
      }
    }
  }

  lemma {:induction false} InterpretKeepsBuffer(c: Codec, ms: seq<Message>, s: Conn)
    ensures Interpret(c, ms, s).buf == s.buf
  {
    if ms != [] && !s.panicked {
      InterpretKeepsBuffer(c, ms[1..], InterpretOne(c, ms[0], s));
    }
  }

  lemma {:induction false} InterpretStopsAtPanic(c: Codec, ms: seq<Message>, k: nat, s: Conn)
    requires k <= |ms| && Interpret(c, ms[..k], s).panicked
    ensures Interpret(c, ms, s) == Interpret(c, ms[..k], s)
  {
    if k > 0 && !s.panicked {
      assert ms[..k][1..] == ms[1..][..k - 1];
      InterpretStopsAtPanic(c, ms[1..], k - 1, InterpretOne(c, ms[0], s));
    }
  }

  lemma {:induction false} DrainEncodedStream(c: Codec, ms: seq<Message>, s: Conn)
    requires AllWellFormed(ms) && !s.panicked && s.buf == EncodeStream(ms)
    ensures Drain(c, s) == Interpret(c, ms, s).(buf := [])
  {
    assert s.buf + [] == s.buf;
    assert forall j :: 0 <= j < |ms| ==> |EncodeStream(ms[j..])| >= |EncodeMessage(ms[j])|;
    var k := BufferHoldsNextMessage(c, ms, s.buf, [], s);
    var d := Drain(c, s);
    if Interpret(c, ms[..k], s).panicked {
      InterpretStopsAtPanic(c, ms, k, s);
    } else {
      assert d.buf + [] == d.buf;
      assert ms[..k] == ms && ms[k..] == [];
    }
  }

  /**
   * End to end: any chunking of the encoding of a list of messages has the
   * effect of the list itself, with nothing left in the buffer.
   */
  lemma DecodeEncodedStream(c: Codec, ms: seq<Message>, chunks: seq<seq<byte>>)
    requires AllWellFormed(ms) && Flatten(chunks) == EncodeStream(ms)
    ensures FeedAll(c, FRESH, chunks) == Interpret(c, ms, FRESH)
  {
    ChunkInvariance(c, FRESH, chunks);
    var bytes := EncodeStream(ms);
    assert FRESH.buf + bytes == bytes;
    DrainEncodedStream(c, ms, FRESH.(buf := bytes));
    InterpretIgnoresBuffer(c, ms, FRESH, bytes);
    InterpretKeepsBuffer(c, ms, FRESH);
  }

  // ── When the task dies ────────────────────────────────────────────────

  /** The object under `key` exists and lacks one of two names. */
  predicate Lacks(v: Json.Value, one: string, two: string) {
    v.Obj? && (one !in v.fields || two !in v.fields)
  }

  /** A tool use without its id or name, or a usage without one of its counts. */
  predicate BreaksOn(c: Codec, kind: string, data: string) {
    && c.json(data).Some?
    && var v := c.json(data).value;
       || (kind == "contentBlockStart" && Lacks(Json.Index(Json.Index(v, "start"), "toolUse"), "toolUseId", "name"))
       || (kind == "metadata" && Lacks(Json.Index(v, "usage"), "inputTokens", "outputTokens"))
  }

  predicate Breaks(c: Codec, headers: EventHeaders.HeaderMap, payload: seq<byte>) {
    && !(":message-type" in headers && headers[":message-type"] == "exception")
    && ":event-type" in headers && c.text(payload) != ""
    && BreaksOn(c, headers[":event-type"], c.text(payload))
  }

  /** Whether one message ends the task is a matter of that message alone. */
  lemma MessagePanicsIff(c: Codec, headers: EventHeaders.HeaderMap, payload: seq<byte>, s: Conn)
    requires !s.panicked
    ensures OnMessage(c, headers, payload, s).panicked <==> Breaks(c, headers, payload)
  {
  }

  predicate MessageBreaks(c: Codec, m: Message) {
    Breaks(c, EventHeaders.Meaning(m.headers, map[], c.text), m.payload)
  }

  /** The task dies on a list of messages if and only if one of them breaks it, whatever came before. */
  lemma {:induction false} InterpretPanicsIff(c: Codec, ms: seq<Message>, s: Conn)
    requires !s.panicked
    ensures Interpret(c, ms, s).panicked <==> exists m :: m in ms && MessageBreaks(c, m)
  {
    if ms != [] {
      MessagePanicsIff(c, EventHeaders.Meaning(ms[0].headers, map[], c.text), ms[0].payload, s);
      if !MessageBreaks(c, ms[0]) {
        InterpretPanicsIff(c, ms[1..], InterpretOne(c, ms[0], s));
        assert forall m :: m in ms <==> m == ms[0] || m in ms[1..];
      }
    }
  }

  /** The complete messages of a byte stream, up to the first whose lengths do not add up. */
  function Complete(buf: seq<byte>): seq<(seq<byte>, seq<byte>)>
    decreases |buf|
  {
    match FrontOf(buf)
    case Full(headers, payload, rest) => [(headers, payload)] + Complete(rest)
    case _ => []
  }

  predicate LengthsAddUp(buf: seq<byte>)
    decreases |buf|
  {
    match FrontOf(buf)
    case Waiting => true
    case Broken => false
    case Full(_, _, rest) => LengthsAddUp(rest)
  }

  predicate PartBreaks(c: Codec, part: (seq<byte>, seq<byte>)) {
    Breaks(c, EventHeaders.Scan(part.0, map[], c.text), part.1)
  }

  /**
   * On any bytes at all, the task dies if and only if the announced lengths of
   * some message do not add up, or a message before that breaks it.
   */
  lemma {:induction false} DrainPanicsIff(c: Codec, s: Conn)
    requires !s.panicked
    ensures Drain(c, s).panicked
            <==> !LengthsAddUp(s.buf) || exists part :: part in Complete(s.buf) && PartBreaks(c, part)
    decreases |s.buf|
  {
    match FrontOf(s.buf) {
      case Waiting =>
      case Broken =>
        assert CutMessage(c, s) == Panicked(s);
      case Full(headers, payload, rest) =>
        var part, next := (headers, payload), CutMessage(c, s);
        MessagePanicsIff(c, EventHeaders.Scan(headers, map[], c.text), payload, s);
        assert Complete(s.buf) == [part] + Complete(rest);
        if PartBreaks(c, part) {
          assert part in Complete(s.buf) && next.panicked;
        } else {
          DrainPanicsIff(c, next);
          assert forall p :: p in Complete(s.buf) <==> p == part || p in Complete(rest);
        }
    }
  }

  /** However the bytes arrive. */
  lemma TaskDiesIff(c: Codec, chunks: seq<seq<byte>>)
    ensures FeedAll(c, FRESH, chunks).panicked
            <==> !LengthsAddUp(Flatten(chunks)) || exists part :: part in Complete(Flatten(chunks)) && PartBreaks(c, part)
  {
    var bytes := Flatten(chunks);
    ChunkInvariance(c, FRESH, chunks);
    assert FRESH.buf + bytes == bytes;
    DrainPanicsIff(c, FRESH.(buf := bytes));
  }

  /** One such message: metadata whose usage carries no counts. */
  lemma UsageWithoutCounts(c: Codec, m: Message, name: seq<byte>, kind: seq<byte>, chunks: seq<seq<byte>>)
    requires WellFormed(m) && Flatten(chunks) == EncodeStream([m])
    requires m.headers == [EventHeaders.Header(name, EventHeaders.Text(kind))]
    requires c.text(name) == ":event-type" && c.text(kind) == "metadata"
    requires c.text(m.payload) != "" && c.json(c.text(m.payload)) == Some(Json.Obj(map["usage" := Json.Obj(map[])]))
    ensures FeedAll(c, FRESH, chunks).panicked
  {
    DecodeEncodedStream(c, [m], chunks);
    InterpretPanicsIff(c, [m], FRESH);
    assert m.headers[1..] == [];
    assert EventHeaders.Meaning(m.headers, map[], c.text) == map[":event-type" := "metadata"];
    assert m in [m] && MessageBreaks(c, m);
  }

  // ── Tool calls and the collected answer ───────────────────────────────

  /** `data` is a tool-input delta carrying `piece`. */
  predicate IsInputDelta(c: Codec, data: string, piece: string) {
    && c.json(data).Some?
    && var delta := Json.Index(c.json(data).value, "delta");
    && !Json.Index(delta, "text").Str?
    && Json.Index(Json.Index(delta, "toolUse"), "input") == Json.Str(piece)
  }

  predicate IsToolStart(c: Codec, data: string, id: string, name: string) {
    && c.json(data).Some?
    && var use := Json.Index(Json.Index(c.json(data).value, "start"), "toolUse");
    && use.Obj?
    && Json.Get(use, "toolUseId") == Some(Json.Str(id))
    && Json.Get(use, "name") == Some(Json.Str(name))
  }

  /** A run of events of one kind, in order. */
  function OnPayloads(c: Codec, kind: string, datas: seq<string>, s: Conn): Conn {
    if datas == [] || s.panicked then s
    else OnPayloads(c, kind, datas[1..], OnPayload(c, kind, datas[0], s))
  }

  function Joined(pieces: seq<string>): string {
    if pieces == [] then "" else pieces[0] + Joined(pieces[1..])
  }

  lemma {:induction false} InputDeltasAccumulate(c: Codec, datas: seq<string>, pieces: seq<string>, s: Conn)
    requires |datas| == |pieces| && !s.panicked
    requires forall i :: 0 <= i < |datas| ==> IsInputDelta(c, datas[i], pieces[i])
    ensures OnPayloads(c, "contentBlockDelta", datas, s)
            == s.(tool := s.tool.(input := s.tool.input + Joined(pieces)))
  {
    if datas == [] {
      assert s.tool.input + "" == s.tool.input;
    } else {
      assert IsInputDelta(c, datas[0], pieces[0]);
      var s' := OnPayload(c, "contentBlockDelta", datas[0], s);
      assert s' == s.(tool := s.tool.(input := s.tool.input + pieces[0]));
      InputDeltasAccumulate(c, datas[1..], pieces[1..], s');
      assert s.tool.input + pieces[0] + Joined(pieces[1..]) == s.tool.input + Joined(pieces);
    }
  }

  /**
   * A tool call cut into any number of deltas comes out as one event holding
   * the whole input, whatever the accumulator held before, and leaves it empty.
   */
  lemma ToolCallReassembled(c: Codec, start: string, id: string, name: string,
                            datas: seq<string>, pieces: seq<string>, stop: string, s: Conn)
    requires !s.panicked && IsToolStart(c, start, id, name)
    requires |datas| == |pieces|
    requires forall i :: 0 <= i < |datas| ==> IsInputDelta(c, datas[i], pieces[i])
    ensures var s1 := OnPayload(c, "contentBlockStart", start, s);
            var s2 := OnPayloads(c, "contentBlockDelta", datas, s1);
            OnPayload(c, "contentBlockStop", stop, s2)
            == s.(tool := NO_TOOL, sent := s.sent + [ToolUse(id, name, ParsedInput(c, Joined(pieces)))])
  {
    var s1 := OnPayload(c, "contentBlockStart", start, s);
    assert s1 == s.(tool := Tool(Some(id), Some(name), ""));
    InputDeltasAccumulate(c, datas, pieces, s1);
    assert "" + Joined(pieces) == Joined(pieces);
  }

  datatype Block = TextBlock(text: string) | ToolBlock(id: string, name: string, input: Json.Value)

  datatype Answer = Answer(content: seq<Block>, usage: Event) | Failed(message: string)

  const NO_USAGE := TokenUsage(0, 0, 0)

  /** The events a collecting reader sees: everything before the first `Stop`. */
  function UntilStop(events: seq<Event>): seq<Event> {
    if events == [] || events[0].Stop? then [] else [events[0]] + UntilStop(events[1..])
  }

  function Texts(events: seq<Event>): seq<string> {
    if events == [] then []
    else Texts(events[..|events| - 1]) + if events[|events| - 1].TextDelta? then [events[|events| - 1].text] else []
  }

  function Tools(events: seq<Event>): seq<Block> {
    if events == [] then []
    else
      var e := events[|events| - 1];
      Tools(events[..|events| - 1]) + if e.ToolUse? then [ToolBlock(e.id, e.name, e.input)] else []
  }

  /** One block with all of the text, if there was any, and then the tool calls. */
  function Content(texts: seq<string>, tools: seq<Block>): seq<Block> {
    (if texts == [] then [] else [TextBlock(Joined(texts))]) + tools
  }

  function LastUsage(events: seq<Event>): Event {
    if events == [] then NO_USAGE
    else if events[|events| - 1].TokenUsage? then events[|events| - 1]
    else LastUsage(events[..|events| - 1])
  }

  function FirstError(events: seq<Event>): Option<string> {
    if events == [] then None
    else if events[0].Error? then Some(events[0].message)
    else FirstError(events[1..])
  }

  lemma {:induction false} FirstErrorAt(events: seq<Event>, i: nat)
    requires i < |events| && events[i].Error? && forall j :: 0 <= j < i ==> !events[j].Error?
    ensures FirstError(events) == Some(events[i].message)
  {
    if i > 0 {
      FirstErrorAt(events[1..], i - 1);
    }
  }

  lemma {:induction false} UntilStopAt(events: seq<Event>, i: nat)
    requires i <= |events| && (forall j :: 0 <= j < i ==> !events[j].Stop?)
    ensures i == |events| || events[i].Stop? ==> UntilStop(events) == events[..i]
    ensures |UntilStop(events)| >= i && UntilStop(events)[..i] == events[..i]
  {
    if i > 0 {
      UntilStopAt(events[1..], i - 1);
      assert events[1..][..i - 1] == events[..i][1..];
      assert events[..i] == [events[0]] + events[1..][..i - 1];
    }
  }

  /**
   * The collecting loop of `converse`: nothing after the first `Stop` counts,
   * so usage reported after `messageStop` is never seen.
   */
  method Collect(events: seq<Event>) returns (answer: Answer)
    ensures answer.Failed? <==> exists e :: e in UntilStop(events) && e.Error?
    ensures answer.Failed? ==> FirstError(UntilStop(events)) == Some(answer.message)
    ensures answer.Answer? ==>
      && answer.content == Content(Texts(UntilStop(events)), Tools(UntilStop(events)))
      && answer.usage == LastUsage(UntilStop(events))
  {
    var texts, tools, usage := [], [], NO_USAGE;
    var i := 0;
    while i < |events|
      invariant 0 <= i <= |events|
      invariant forall j :: 0 <= j < i ==> !events[j].Stop? && !events[j].Error?
      invariant texts == Texts(events[..i]) && tools == Tools(events[..i]) && usage == LastUsage(events[..i])
    {
      UntilStopAt(events, i);
      assert events[..i + 1][..i] == events[..i];
      match events[i] {
        case TextDelta(text) => texts := texts + [text];
        case ToolUse(id, name, input) => tools := tools + [ToolBlock(id, name, input)];
        case TokenUsage(_, _, _) => usage := events[i];
        case Stop => break;
        case Error(message) =>
          UntilStopAt(events, i + 1);
          ghost var seen := UntilStop(events);
          assert forall j :: 0 <= j <= i ==> seen[j] == seen[..i + 1][j] == events[j];
          FirstErrorAt(seen, i);
          return Failed(message);
      }
      i := i + 1;
    }
    UntilStopAt(events, i);
    var content: seq<Block> := [];
    if texts != [] {
      content := content + [TextBlock(Joined(texts))];
    }
    answer := Answer(content + tools, usage);
  }
}
