/**
 * What a streamed answer says, from the bytes on the wire to the collected
 * message: every kind of message the model service sends, read off its own
 * headers and JSON, and whole conversations made of them.
 */
module Conversation {
  import opened Prelude
  import opened Wire
  import opened EventStream
  import EventHeaders
  import Json

  // ── What a message carries ────────────────────────────────────────────

  function Headers(c: Codec, m: Message): EventHeaders.HeaderMap {
    EventHeaders.Meaning(m.headers, map[], c.text)
  }

  predicate IsException(c: Codec, m: Message) {
    ":message-type" in Headers(c, m) && Headers(c, m)[":message-type"] == "exception"
  }

  /** An ordinary message of the given event type, not empty. */
  predicate IsOf(c: Codec, m: Message, kind: string) {
    && !IsException(c, m) && c.text(m.payload) != ""
    && ":event-type" in Headers(c, m) && Headers(c, m)[":event-type"] == kind
  }

  /** The value under two keys of the payload, one inside the other. */
  function Inside(c: Codec, m: Message, outer: string, inner: string): Option<Json.Value> {
    match c.json(c.text(m.payload))
    case None => None
    case Some(v) =>
      match Json.Get(v, outer)
      case None => None
      case Some(w) => Json.Get(w, inner)
  }

  /** The value under three. */
  function Deep(c: Codec, m: Message, outer: string, middle: string, inner: string): Option<Json.Value> {
    match Inside(c, m, outer, middle)
    case None => None
    case Some(v) => Json.Get(v, inner)
  }

  /** A count is a number of 64 bits; anything else counts as none. */
  predicate Counts(v: Option<Json.Value>, n: nat) {
    && v.Some?
    && n == if v.value.Int? && 0 <= v.value.n < 0x1_0000_0000_0000_0000 then v.value.n else 0
  }

  /** The message carries the event by itself. */
  predicate Carries(c: Codec, m: Message, e: Event) {
    match e
    case TextDelta(text) =>
      IsOf(c, m, "contentBlockDelta") && Inside(c, m, "delta", "text") == Some(Json.Str(text))
    case Stop => IsOf(c, m, "messageStop")
    case TokenUsage(sent, got, total) =>
      && IsOf(c, m, "metadata")
      && Counts(Inside(c, m, "usage", "inputTokens"), sent) && Counts(Inside(c, m, "usage", "outputTokens"), got)
      && total == (sent + got) % 0x1_0000_0000_0000_0000
    case Error(message) => IsException(c, m) && message == c.text(m.payload)
    case ToolUse(_, _, _) => false
  }

  predicate NotAnObject(v: Option<Json.Value>) {
    v.None? || !v.value.Obj?
  }

  predicate NotText(v: Option<Json.Value>) {
    v.None? || !v.value.Str?
  }

  predicate Known(kind: string) {
    kind in {"contentBlockStart", "contentBlockDelta", "contentBlockStop", "messageStop", "metadata"}
  }

  predicate MeansNothing(c: Codec, m: Message) {
    && !IsException(c, m)
    && (|| ":event-type" !in Headers(c, m) || c.text(m.payload) == "" || !Known(Headers(c, m)[":event-type"])
        || (c.json(c.text(m.payload)).None? && Headers(c, m)[":event-type"] !in {"contentBlockStop", "messageStop"})
        || (IsOf(c, m, "contentBlockStart") && NotAnObject(Inside(c, m, "start", "toolUse")))
        || (IsOf(c, m, "contentBlockDelta") && NotText(Inside(c, m, "delta", "text"))
            && NotText(Deep(c, m, "delta", "toolUse", "input")))
        || (IsOf(c, m, "metadata") && (c.json(c.text(m.payload)).None?
                                       || NotAnObject(Json.Get(c.json(c.text(m.payload)).value, "usage")))))
  }

  /** What a message carries is sent, and the tool call in progress, if any, goes on. */
  lemma CarriedIsSent(c: Codec, m: Message, e: Event, s: Conn)
    requires !s.panicked && Carries(c, m, e)
    ensures InterpretOne(c, m, s) == s.(sent := s.sent + [e])
  {
  }

  /** A message that means nothing changes nothing. */
  lemma NothingHappens(c: Codec, m: Message, s: Conn)
    requires !s.panicked && MeansNothing(c, m)
    ensures InterpretOne(c, m, s) == s
  {
  }

  // ── Tool calls ────────────────────────────────────────────────────────

  predicate Opens(c: Codec, m: Message, id: string, name: string) {
    && IsOf(c, m, "contentBlockStart")
    && Deep(c, m, "start", "toolUse", "toolUseId") == Some(Json.Str(id))
    && Deep(c, m, "start", "toolUse", "name") == Some(Json.Str(name))
  }

  predicate Adds(c: Codec, m: Message, piece: string) {
    && IsOf(c, m, "contentBlockDelta")
    && NotText(Inside(c, m, "delta", "text"))
    && Deep(c, m, "delta", "toolUse", "input") == Some(Json.Str(piece))
  }

  lemma OpensTool(c: Codec, m: Message, id: string, name: string, s: Conn)
    requires !s.panicked && Opens(c, m, id, name)
    ensures InterpretOne(c, m, s) == s.(tool := Tool(Some(id), Some(name), ""))
  {
  }

  lemma AddsInput(c: Codec, m: Message, piece: string, s: Conn)
    requires !s.panicked && Adds(c, m, piece)
    ensures InterpretOne(c, m, s) == s.(tool := s.tool.(input := s.tool.input + piece))
  {
  }

  /** The input of a call: what its pieces spell as JSON, or an empty object. */
  predicate Spelled(c: Codec, pieces: seq<string>, input: Json.Value) {
    if c.json(Joined(pieces)).Some? then Some(input) == c.json(Joined(pieces)) else input == Json.Obj(map[])
  }

  lemma ClosesTool(c: Codec, m: Message, id: string, name: string, pieces: seq<string>, input: Json.Value, s: Conn)
    requires !s.panicked && IsOf(c, m, "contentBlockStop")
    requires s.tool == Tool(Some(id), Some(name), Joined(pieces)) && Spelled(c, pieces, input)
    ensures InterpretOne(c, m, s) == s.(tool := NO_TOOL, sent := s.sent + [ToolUse(id, name, input)])
  {
  }

  /** A block that closes while no call is in progress changes nothing. */
  lemma NothingToClose(c: Codec, m: Message, s: Conn)
    requires !s.panicked && IsOf(c, m, "contentBlockStop") && s.tool == NO_TOOL
    ensures InterpretOne(c, m, s) == s
  {
  }

  // ── Conversations ─────────────────────────────────────────────────────

  datatype Part =
    | Said(e: Event)
    | Called(id: string, name: string, pieces: seq<string>, input: Json.Value)
    | Nothing

  /** How a part travels: one message, or those that open, fill and close a tool call. Blocks of text close, too. */
  predicate Travels(c: Codec, part: Part, ms: seq<Message>) {
    match part
    case Said(e) => |ms| == 1 && Carries(c, ms[0], e)
    case Nothing => |ms| == 1 && (MeansNothing(c, ms[0]) || IsOf(c, ms[0], "contentBlockStop"))
    case Called(id, name, pieces, input) =>
      && |ms| == |pieces| + 2
      && Opens(c, ms[0], id, name)
      && (forall i :: 0 <= i < |pieces| ==> Adds(c, ms[i + 1], pieces[i]))
      && IsOf(c, ms[|pieces| + 1], "contentBlockStop")
      && Spelled(c, pieces, input)
  }

  function EventsOf(part: Part): seq<Event> {
    match part
    case Said(e) => [e]
    case Called(id, name, _, input) => [ToolUse(id, name, input)]
    case Nothing => []
  }

  function AllEvents(parts: seq<Part>): seq<Event> {
    if parts == [] then [] else EventsOf(parts[0]) + AllEvents(parts[1..])
  }

  function AllMessages(mss: seq<seq<Message>>): seq<Message> {
    if mss == [] then [] else mss[0] + AllMessages(mss[1..])
  }

  lemma {:induction false} InterpretConcat(c: Codec, a: seq<Message>, b: seq<Message>, s: Conn)
    ensures Interpret(c, a + b, s) == Interpret(c, b, Interpret(c, a, s))
  {
    if a == [] {
      assert a + b == b;
    } else if !s.panicked {
      assert (a + b)[0] == a[0] && (a + b)[1..] == a[1..] + b;
      InterpretConcat(c, a[1..], b, InterpretOne(c, a[0], s));
    }
  }

  lemma InterpretSingle(c: Codec, m: Message, s: Conn)
    requires !s.panicked
    ensures Interpret(c, [m], s) == InterpretOne(c, m, s)
  {
    assert [m][1..] == [];
    assert Interpret(c, [m], s) == Interpret(c, [], InterpretOne(c, m, s));
  }

  lemma JoinedAssociates(before: string, piece: string, rest: seq<string>)
    ensures before + piece + Joined(rest) == before + (piece + Joined(rest))
  {
  }

  lemma {:induction false} PiecesAddUp(c: Codec, ms: seq<Message>, pieces: seq<string>, s: Conn)
    requires |ms| == |pieces| && !s.panicked
    requires forall i :: 0 <= i < |pieces| ==> Adds(c, ms[i], pieces[i])
    ensures Interpret(c, ms, s) == s.(tool := s.tool.(input := s.tool.input + Joined(pieces)))
  {
    if ms == [] {
      assert s.tool.input + "" == s.tool.input;
    } else {
      assert Adds(c, ms[0], pieces[0]);
      AddsInput(c, ms[0], pieces[0], s);
      forall i | 0 <= i < |pieces| - 1 ensures Adds(c, ms[1..][i], pieces[1..][i]) {
        assert Adds(c, ms[i + 1], pieces[i + 1]);
      }
      PiecesAddUp(c, ms[1..], pieces[1..], InterpretOne(c, ms[0], s));
      JoinedAssociates(s.tool.input, pieces[0], pieces[1..]);
    }
  }

  lemma CallIsSent(c: Codec, part: Part, ms: seq<Message>, s: Conn)
    requires part.Called? && Travels(c, part, ms) && !s.panicked
    ensures Interpret(c, ms, s) == s.(tool := NO_TOOL, sent := s.sent + EventsOf(part))
  {
    var n := |part.pieces|;
    var open, fill, close := [ms[0]], ms[1..n + 1], [ms[n + 1]];
    assert ms == open + (fill + close);
    InterpretConcat(c, open, fill + close, s);
    InterpretSingle(c, ms[0], s);
    OpensTool(c, ms[0], part.id, part.name, s);
    var begun := InterpretOne(c, ms[0], s);
    InterpretConcat(c, fill, close, begun);
    PiecesAddUp(c, fill, part.pieces, begun);
    assert "" + Joined(part.pieces) == Joined(part.pieces);
    var filled := Interpret(c, fill, begun);
    InterpretSingle(c, ms[n + 1], filled);
    ClosesTool(c, ms[n + 1], part.id, part.name, part.pieces, part.input, filled);
  }

  lemma PartIsSent(c: Codec, part: Part, ms: seq<Message>, s: Conn)
    requires Travels(c, part, ms) && !s.panicked && s.tool == NO_TOOL
    ensures Interpret(c, ms, s) == s.(sent := s.sent + EventsOf(part))
  {
    match part {
      case Said(e) =>
        assert ms == [ms[0]];
        InterpretSingle(c, ms[0], s);
        CarriedIsSent(c, ms[0], e, s);
      case Nothing =>
        assert ms == [ms[0]] && s.sent + [] == s.sent;
        InterpretSingle(c, ms[0], s);
        if MeansNothing(c, ms[0]) {
          NothingHappens(c, ms[0], s);
        } else {
          NothingToClose(c, ms[0], s);
        }
      case Called(_, _, _, _) =>
        CallIsSent(c, part, ms, s);
    }
  }

  predicate AllTravel(c: Codec, parts: seq<Part>, mss: seq<seq<Message>>) {
    if parts == [] || mss == [] then parts == [] && mss == []
    else Travels(c, parts[0], mss[0]) && AllTravel(c, parts[1..], mss[1..])
  }

  lemma SentAndThen(s: Conn, a: seq<Event>, b: seq<Event>)
    ensures s.(sent := s.sent + a).(sent := s.sent + a + b) == s.(sent := s.sent + (a + b))
  {
    assert s.sent + a + b == s.sent + (a + b);
  }

  lemma {:induction false} PartsAreSent(c: Codec, parts: seq<Part>, mss: seq<seq<Message>>, s: Conn)
    requires AllTravel(c, parts, mss) && !s.panicked && s.tool == NO_TOOL
    ensures Interpret(c, AllMessages(mss), s) == s.(sent := s.sent + AllEvents(parts))
  {
    if parts == [] {
      assert s.sent + [] == s.sent;
    } else {
      var first, rest := EventsOf(parts[0]), AllEvents(parts[1..]);
      var ms, more := mss[0], AllMessages(mss[1..]);
      var next := s.(sent := s.sent + first);
      PartIsSent(c, parts[0], ms, s);
      PartsAreSent(c, parts[1..], mss[1..], next);
      InterpretConcat(c, ms, more, s);
      SentAndThen(s, first, rest);
    }
  }

  /**
   * End to end: however the bytes of a conversation are cut, exactly what is
   * said and called in it comes out, in order and once, with nothing left over.
   */
  lemma ConversationDecoded(c: Codec, parts: seq<Part>, mss: seq<seq<Message>>, chunks: seq<seq<byte>>)
    requires AllTravel(c, parts, mss) && AllWellFormed(AllMessages(mss))
    requires Flatten(chunks) == EncodeStream(AllMessages(mss))
    ensures FeedAll(c, FRESH, chunks) == Conn([], NO_TOOL, AllEvents(parts), false)
  {
    DecodeEncodedStream(c, AllMessages(mss), chunks);
    PartsAreSent(c, parts, mss, FRESH);
    assert [] + AllEvents(parts) == AllEvents(parts);
  }

  /** Text cut into any number of deltas, in bytes cut in any way, at any moment: only those texts are sent, in order. */
  lemma {:induction false} TextIsSent(c: Codec, ms: seq<Message>, texts: seq<string>, s: Conn)
    requires |ms| == |texts| && !s.panicked
    requires forall i :: 0 <= i < |ms| ==> Carries(c, ms[i], TextDelta(texts[i]))
    ensures Interpret(c, ms, s) == s.(sent := s.sent + seq(|texts|, i requires 0 <= i < |texts| => TextDelta(texts[i])))
  {
    var deltas := seq(|texts|, i requires 0 <= i < |texts| => TextDelta(texts[i]));
    if ms == [] {
      assert s.sent + deltas == s.sent;
    } else {
      var rest := seq(|texts| - 1, i requires 0 <= i < |texts| - 1 => TextDelta(texts[1..][i]));
      assert Carries(c, ms[0], TextDelta(texts[0]));
      CarriedIsSent(c, ms[0], TextDelta(texts[0]), s);
      forall i | 0 <= i < |ms| - 1 ensures Carries(c, ms[1..][i], TextDelta(texts[1..][i])) {
        assert Carries(c, ms[i + 1], TextDelta(texts[i + 1]));
      }
      TextIsSent(c, ms[1..], texts[1..], InterpretOne(c, ms[0], s));
      assert s.sent + [TextDelta(texts[0])] + rest == s.sent + deltas;
    }
  }

  // ── The collected answer ──────────────────────────────────────────────

  lemma FrontOfConcat(a: seq<Event>, b: seq<Event>)
    requires b != []
    ensures (a + b)[..|a + b| - 1] == a + b[..|b| - 1] && (a + b)[|a + b| - 1] == b[|b| - 1]
  {
  }

  lemma {:induction false} TextsConcat(a: seq<Event>, b: seq<Event>)
    ensures Texts(a + b) == Texts(a) + Texts(b)
  {
    if b == [] {
      assert a + b == a;
    } else {
      TextsConcat(a, b[..|b| - 1]);
      FrontOfConcat(a, b);
    }
  }

  lemma {:induction false} ToolsConcat(a: seq<Event>, b: seq<Event>)
    ensures Tools(a + b) == Tools(a) + Tools(b)
  {
    if b == [] {
      assert a + b == a;
    } else {
      ToolsConcat(a, b[..|b| - 1]);
      FrontOfConcat(a, b);
    }
  }

  lemma {:induction false} JoinedConcat(a: seq<string>, b: seq<string>)
    ensures Joined(a + b) == Joined(a) + Joined(b)
  {
    if a == [] {
      assert a + b == b;
    } else {
      assert (a + b)[0] == a[0] && (a + b)[1..] == a[1..] + b;
      JoinedConcat(a[1..], b);
    }
  }

  /** An answer is not over before the message stops, and has not failed before an error. */
  predicate GoesOn(parts: seq<Part>) {
    forall part :: part in parts && part.Said? ==> !part.e.Stop? && !part.e.Error? && !part.e.ToolUse?
  }

  function Spoken(parts: seq<Part>): string {
    if parts == [] then ""
    else (if parts[0].Said? && parts[0].e.TextDelta? then parts[0].e.text else "") + Spoken(parts[1..])
  }

  predicate Speaks(parts: seq<Part>) {
    exists part :: part in parts && part.Said? && part.e.TextDelta?
  }

  function Calls(parts: seq<Part>): seq<Block> {
    if parts == [] then []
    else (if parts[0].Called? then [ToolBlock(parts[0].id, parts[0].name, parts[0].input)] else []) + Calls(parts[1..])
  }

  lemma OneEvent(e: Event)
    ensures Texts([e]) == if e.TextDelta? then [e.text] else []
    ensures Tools([e]) == if e.ToolUse? then [ToolBlock(e.id, e.name, e.input)] else []
  {
    assert [e][..0] == [];
  }

  lemma {:induction false} PartsSpeak(parts: seq<Part>)
    ensures Joined(Texts(AllEvents(parts))) == Spoken(parts)
    ensures Texts(AllEvents(parts)) != [] <==> Speaks(parts)
  {
    if parts != [] {
      var first, rest := EventsOf(parts[0]), AllEvents(parts[1..]);
      PartsSpeak(parts[1..]);
      TextsConcat(first, rest);
      JoinedConcat(Texts(first), Texts(rest));
      FirstTexts(parts[0]);
      assert forall part :: part in parts <==> part == parts[0] || part in parts[1..];
    }
  }

  lemma {:induction false} PartsCall(parts: seq<Part>)
    requires GoesOn(parts)
    ensures Tools(AllEvents(parts)) == Calls(parts)
  {
    if parts != [] {
      var first := EventsOf(parts[0]);
      assert parts[0] in parts;
      PartsCall(parts[1..]);
      ToolsConcat(first, AllEvents(parts[1..]));
      if first != [] {
        OneEvent(first[0]);
      }
    }
  }

  lemma {:induction false} PartsGoOn(parts: seq<Part>)
    requires GoesOn(parts)
    ensures forall e :: e in AllEvents(parts) ==> !e.Stop? && !e.Error?
  {
    if parts != [] {
      assert parts[0] in parts;
      PartsGoOn(parts[1..]);
    }
  }

  lemma FirstTexts(part: Part)
    ensures var texts := Texts(EventsOf(part));
            && (texts != [] <==> part.Said? && part.e.TextDelta?)
            && Joined(texts) == if part.Said? && part.e.TextDelta? then part.e.text else ""
  {
    if EventsOf(part) != [] {
      OneEvent(EventsOf(part)[0]);
    }
    if part.Said? && part.e.TextDelta? {
      assert [part.e.text][1..] == [] && part.e.text + "" == part.e.text;
    }
  }

  lemma EndsAtStop(events: seq<Event>, later: seq<Event>)
    requires forall e :: e in events ==> !e.Stop?
    ensures UntilStop(events + [Stop] + later) == events
  {
    var all := events + [Stop] + later;
    UntilStopAt(all, |events|);
    assert all[..|events|] == events && all[|events|] == Stop;
  }

  /** The last usage reported, or none at all. */
  function Reported(parts: seq<Part>): Event {
    if parts == [] then TokenUsage(0, 0, 0)
    else
      var last := parts[|parts| - 1];
      if last.Said? && last.e.TokenUsage? then last.e else Reported(parts[..|parts| - 1])
  }

  lemma {:induction false} AllEventsConcat(a: seq<Part>, b: seq<Part>)
    ensures AllEvents(a + b) == AllEvents(a) + AllEvents(b)
  {
    if a == [] {
      assert a + b == b;
    } else {
      assert (a + b)[0] == a[0] && (a + b)[1..] == a[1..] + b;
      AllEventsConcat(a[1..], b);
    }
  }

  lemma LastUsageAfter(events: seq<Event>, part: Part)
    ensures LastUsage(events + EventsOf(part))
            == if part.Said? && part.e.TokenUsage? then part.e else LastUsage(events)
  {
    if part.Nothing? {
      assert events + [] == events;
    } else {
      FrontOfConcat(events, EventsOf(part));
      assert EventsOf(part)[..0] == [] && events + [] == events;
    }
  }

  lemma {:induction false} ReportedIsLast(parts: seq<Part>)
    ensures LastUsage(AllEvents(parts)) == Reported(parts)
  {
    if parts != [] {
      var front, last := parts[..|parts| - 1], parts[|parts| - 1];
      ReportedIsLast(front);
      AllEventsConcat(front, [last]);
      assert parts == front + [last] && [last][1..] == [];
      assert AllEvents([last]) == EventsOf(last) + AllEvents([]);
      LastUsageAfter(AllEvents(front), last);
    }
  }

  /**
   * The collected answer to a conversation that stops, as `Collect` builds it:
   * one block with all that was said put together, if anything was, then the
   * calls in order, and the last usage reported. Nothing after the stop counts.
   */
  lemma AnswerIsConversation(parts: seq<Part>, later: seq<Event>)
    requires GoesOn(parts)
    ensures var seen := UntilStop(AllEvents(parts) + [Stop] + later);
            && Content(Texts(seen), Tools(seen)) == (if Speaks(parts) then [TextBlock(Spoken(parts))] else []) + Calls(parts)
            && LastUsage(seen) == Reported(parts)
            && forall e :: e in seen ==> !e.Error?
  {
    PartsSpeak(parts);
    PartsCall(parts);
    PartsGoOn(parts);
    EndsAtStop(AllEvents(parts), later);
    ReportedIsLast(parts);
  }

  /** The first error ends it: the answer is that error, whatever was said before and after. */
  lemma ErrorEndsIt(parts: seq<Part>, message: string, later: seq<Event>)
    requires GoesOn(parts)
    ensures var seen := UntilStop(AllEvents(parts) + [Error(message)] + later);
            (exists e :: e in seen && e.Error?) && FirstError(seen) == Some(message)
  {
    var events := AllEvents(parts);
    var all, n := events + [Error(message)] + later, |events|;
    PartsGoOn(parts);
    UntilStopAt(all, n + 1);
    var seen := UntilStop(all);
    assert seen[..n + 1] == all[..n + 1];
    assert forall j :: 0 <= j <= n ==> seen[j] == seen[..n + 1][j] == all[j];
    assert seen[n] == Error(message);
    FirstErrorAt(seen, n);
  }
}
