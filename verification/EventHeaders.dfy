/**
 * The header block of one event-stream message: the parser of
 * `parse_event_headers`, an independent encoder for all ten value types, and
 * the round trip between them.
 */
module EventHeaders {
  import opened Prelude
  import opened Wire

  /** `String::from_utf8_lossy`, of which only "it is a function of the bytes" is used. */
  type Decode = seq<byte> -> string

  type HeaderMap = map<string, string>

  // ── The parser ────────────────────────────────────────────────────────

  /** What one turn of the parser's loop does with the bytes still ahead of it. */
  datatype Turn =
    | Exit
    | Skip(rest: seq<byte>)
    | Put(name: seq<byte>, value: HeaderText, rest: seq<byte>)

  datatype HeaderText = Literal(s: string) | Raw(bytes: seq<byte>)

  function Shown(v: HeaderText, text: Decode): string {
    match v
    case Literal(s) => s
    case Raw(bytes) => text(bytes)
  }

  /** `pos += n` without a bounds check: running past the end leaves nothing. */
  function DropUpTo(s: seq<byte>, n: nat): seq<byte> {
    if n <= |s| then s[n..] else []
  }

  /** Bytes taken by the value types of fixed width. */
  function FixedWidth(kind: byte): Option<nat> {
    match kind
    case 2 => Some(1)
    case 3 => Some(2)
    case 4 => Some(4)
    case 5 => Some(8)
    case 8 => Some(8)
    case 9 => Some(16)
    case _ => None
  }

  function ValueTurn(name: seq<byte>, kind: byte, body: seq<byte>): Turn {
    if kind == 7 then
      if |body| < 2 || 2 + ReadBE16(body) > |body| then Exit
      else Put(name, Raw(body[2..2 + ReadBE16(body)]), body[2 + ReadBE16(body)..])
    else if kind == 0 then Put(name, Literal("true"), body)
    else if kind == 1 then Put(name, Literal("false"), body)
    else if kind == 6 then
      if |body| < 2 then Exit else Skip(DropUpTo(body, 2 + ReadBE16(body)))
    else match FixedWidth(kind)
      case Some(w) => Skip(DropUpTo(body, w))
      case None => Exit
  }

  /** One turn of the loop: it leaves the loop or moves strictly forward. */
  function NextTurn(d: seq<byte>): (t: Turn)
    requires d != []
    ensures !t.Exit? ==> |t.rest| < |d|
  {
    var n := d[0];
    if 1 + n >= |d| then Exit
    else ValueTurn(d[1..1 + n], d[1 + n], d[2 + n..])
  }

  function Scan(d: seq<byte>, acc: HeaderMap, text: Decode): HeaderMap
    decreases |d|
  {
    if d == [] then acc
    else match NextTurn(d)
      case Exit => acc
      case Skip(rest) => Scan(rest, acc, text)
      case Put(name, value, rest) => Scan(rest, acc[text(name) := Shown(value, text)], text)
  }

  lemma DropFurther(data: seq<byte>, pos: nat, n: nat)
    requires pos <= |data|
    ensures DropUpTo(data, pos + n) == DropUpTo(data[pos..], n)
  {
  }

  /** Reads a header's value: advances `pos` and perhaps adds an entry, or reports that the loop must end. */
  method ParseValue(data: seq<byte>, start: nat, name: seq<byte>, kind: byte, before: HeaderMap, text: Decode)
    returns (go: bool, pos: nat, headers: HeaderMap)
    requires start <= |data|
    ensures go <==> !ValueTurn(name, kind, data[start..]).Exit?
    ensures go ==> DropUpTo(data, pos) == ValueTurn(name, kind, data[start..]).rest
    ensures go ==> pos >= start
    ensures match ValueTurn(name, kind, data[start..])
            case Put(_, value, _) => headers == before[text(name) := Shown(value, text)]
            case _ => headers == before
  {
    go, pos, headers := true, start, before;
    ghost var body := data[start..];
    match kind {
      case 7 =>
        if pos + 2 > |data| {
          return false, pos, headers;
        }
        var valueLen := ReadBE16(data[pos..]);
        pos := pos + 2;
        if pos + valueLen > |data| {
          return false, pos, headers;
        }
        assert data[pos..pos + valueLen] == body[2..2 + valueLen];
        headers := headers[text(name) := text(data[pos..pos + valueLen])];
        pos := pos + valueLen;
      case 0 =>
        headers := headers[text(name) := "true"];
      case 1 =>
        headers := headers[text(name) := "false"];
      case 2 =>
        pos := pos + 1;
      case 3 =>
        pos := pos + 2;
      case 4 =>
        pos := pos + 4;
      case 5 =>
        pos := pos + 8;
      case 6 =>
        if pos + 2 > |data| {
          return false, pos, headers;
        }
        var valueLen := ReadBE16(data[pos..]);
        pos := pos + 2;
        pos := pos + valueLen;
      case 8 =>
        pos := pos + 8;
      case 9 =>
        pos := pos + 16;
      case _ =>
        go := false;
    }
    DropFurther(data, start, pos - start);
  }

  /** One turn: name length, name, type, value. */
  method ParseHeader(data: seq<byte>, start: nat, before: HeaderMap, text: Decode)
    returns (go: bool, pos: nat, headers: HeaderMap)
    requires start < |data|
    ensures go <==> !NextTurn(data[start..]).Exit?
    ensures go ==> pos > start && DropUpTo(data, pos) == NextTurn(data[start..]).rest
    ensures match NextTurn(data[start..])
            case Put(name, value, _) => headers == before[text(name) := Shown(value, text)]
            case _ => headers == before
  {
    ghost var ahead := data[start..];
    go, pos, headers := false, start, before;
    var nameLen := data[pos];
    pos := pos + 1;
    if pos + nameLen > |data| {
      return;
    }
    var name := data[pos..pos + nameLen];
    pos := pos + nameLen;
    if pos >= |data| {
      return;
    }
    var kind := data[pos];
    pos := pos + 1;
    assert name == ahead[1..1 + nameLen] && data[pos..] == ahead[2 + nameLen..];
    go, pos, headers := ParseValue(data, pos, name, kind, headers, text);
  }

  /** `parse_event_headers`, position by position. */
  method ParseEventHeaders(data: seq<byte>, text: Decode) returns (headers: HeaderMap)
    ensures headers == Scan(data, map[], text)
  {
    headers := map[];
    var pos: nat := 0;
    var go := true;
    while go && pos < |data|
      invariant if go then Scan(DropUpTo(data, pos), headers, text) == Scan(data, map[], text)
                else headers == Scan(data, map[], text)
      decreases go, |data| - pos
    {
      ghost var ahead := data[pos..];
      go, pos, headers := ParseHeader(data, pos, headers, text);
    }
  }

  // ── The encoder and the round trip ────────────────────────────────────

  datatype Value =
    | Flag(b: bool)
    | Fixed(kind: byte, raw: seq<byte>)
    | Blob(raw: seq<byte>)
    | Text(raw: seq<byte>)

  datatype Header = Header(name: seq<byte>, value: Value)

  /** What the wire format can carry: 8-bit name lengths, 16-bit value lengths. */
  predicate Encodable(h: Header) {
    && |h.name| < 256
    && match h.value
       case Flag(_) => true
       case Fixed(kind, raw) => (kind, |raw|) in {(2, 1), (3, 2), (4, 4), (5, 8), (8, 8), (9, 16)}
       case Blob(raw) => |raw| < TWO16
       case Text(raw) => |raw| < TWO16
  }

  predicate AllEncodable(hs: seq<Header>) {
    forall h | h in hs :: Encodable(h)
  }

  function EncodeHeader(h: Header): (r: seq<byte>)
    requires Encodable(h)
    ensures r != []
  {
    [|h.name|] + h.name + match h.value
      case Flag(b) => [if b then 0 else 1]
      case Fixed(kind, raw) => [kind] + raw
      case Blob(raw) => [6] + WriteBE16(|raw|) + raw
      case Text(raw) => [7] + WriteBE16(|raw|) + raw
  }

  function EncodeHeaders(hs: seq<Header>): seq<byte>
    requires AllEncodable(hs)
  {
    if hs == [] then [] else EncodeHeader(hs[0]) + EncodeHeaders(hs[1..])
  }

  /** The text a reader gets from a header; only strings and booleans have one. */
  function TextOf(h: Header, text: Decode): Option<string> {
    match h.value
    case Flag(b) => Some(if b then "true" else "false")
    case Text(raw) => Some(text(raw))
    case _ => None
  }

  /** The map a list of headers denotes: the last readable header of each name. */
  function Meaning(hs: seq<Header>, acc: HeaderMap, text: Decode): HeaderMap {
    if hs == [] then acc
    else match TextOf(hs[0], text)
      case Some(v) => Meaning(hs[1..], acc[text(hs[0].name) := v], text)
      case None => Meaning(hs[1..], acc, text)
  }

  ghost predicate Names(h: Header, key: string, text: Decode) {
    TextOf(h, text).Some? && text(h.name) == key
  }

  /** The last duplicate wins, and nothing else is in the map. */
  lemma {:induction false} MeaningIsLastOfEachName(hs: seq<Header>, acc: HeaderMap, text: Decode, key: string)
    ensures key in Meaning(hs, acc, text) <==> key in acc || exists i :: 0 <= i < |hs| && Names(hs[i], key, text)
    ensures forall i :: 0 <= i < |hs| && Names(hs[i], key, text)
                        && (forall j :: i < j < |hs| ==> !Names(hs[j], key, text))
                        ==> Meaning(hs, acc, text)[key] == TextOf(hs[i], text).value
    ensures (forall i :: 0 <= i < |hs| ==> !Names(hs[i], key, text)) && key in acc
            ==> Meaning(hs, acc, text)[key] == acc[key]
  {
    if hs != [] {
      var acc' := if TextOf(hs[0], text).Some? then acc[text(hs[0].name) := TextOf(hs[0], text).value] else acc;
      MeaningIsLastOfEachName(hs[1..], acc', text, key);
      assert forall i :: 0 < i < |hs| ==> hs[i] == hs[1..][i - 1];
      assert forall j :: 0 <= j < |hs| - 1 ==> hs[1..][j] == hs[j + 1];
    }
  }

  /** The name and type of a header are read as they were written. */
  lemma NameAndKindTurn(name: seq<byte>, kind: byte, body: seq<byte>)
    requires |name| < 256
    ensures NextTurn([|name|] + name + ([kind] + body)) == ValueTurn(name, kind, body)
  {
    var d := [|name|] + name + ([kind] + body);
    assert d[1..1 + |name|] == name && d[1 + |name|] == kind && d[2 + |name|..] == body;
  }

  /** So is a value preceded by its length. */
  lemma SizedTurn(name: seq<byte>, raw: seq<byte>, tail: seq<byte>)
    requires |raw| < TWO16
    ensures ValueTurn(name, 7, WriteBE16(|raw|) + raw + tail) == Put(name, Raw(raw), tail)
    ensures ValueTurn(name, 6, WriteBE16(|raw|) + raw + tail) == Skip(tail)
  {
    var body := WriteBE16(|raw|) + raw + tail;
    assert body == WriteBE16(|raw|) + (raw + tail);
    ReadWriteBE16(|raw|, raw + tail);
    assert body[2..2 + |raw|] == raw && body[2 + |raw|..] == tail;
  }

  function KindOf(v: Value): byte {
    match v
    case Flag(b) => if b then 0 else 1
    case Fixed(kind, _) => kind
    case Blob(_) => 6
    case Text(_) => 7
  }

  function BodyOf(v: Value): seq<byte>
    requires v.Blob? || v.Text? ==> |v.raw| < TWO16
  {
    match v
    case Flag(_) => []
    case Fixed(_, raw) => raw
    case Blob(raw) => WriteBE16(|raw|) + raw
    case Text(raw) => WriteBE16(|raw|) + raw
  }

  lemma EncodedAsKindAndBody(h: Header, tail: seq<byte>)
    requires Encodable(h)
    ensures EncodeHeader(h) + tail == [|h.name|] + h.name + ([KindOf(h.value)] + (BodyOf(h.value) + tail))
  {
  }

  /** One encoded header is consumed exactly, whatever follows it. */
  lemma EncodedHeaderTurn(h: Header, tail: seq<byte>)
    requires Encodable(h)
    ensures EncodeHeader(h) + tail != []
    ensures NextTurn(EncodeHeader(h) + tail) ==
            match h.value
            case Flag(b) => Put(h.name, Literal(if b then "true" else "false"), tail)
            case Text(raw) => Put(h.name, Raw(raw), tail)
            case _ => Skip(tail)
  {
    EncodedAsKindAndBody(h, tail);
    NameAndKindTurn(h.name, KindOf(h.value), BodyOf(h.value) + tail);
    EncodedValueTurn(h, tail);
  }

  lemma EncodedValueTurn(h: Header, tail: seq<byte>)
    requires Encodable(h)
    ensures ValueTurn(h.name, KindOf(h.value), BodyOf(h.value) + tail) ==
            match h.value
            case Flag(b) => Put(h.name, Literal(if b then "true" else "false"), tail)
            case Text(raw) => Put(h.name, Raw(raw), tail)
            case _ => Skip(tail)
  {
    match h.value {
      case Flag(b) =>
        assert [] + tail == tail;
      case Fixed(kind, raw) =>
        assert DropUpTo(raw + tail, |raw|) == tail;
      case Blob(raw) =>
        SizedTurn(h.name, raw, tail);
      case Text(raw) =>
        SizedTurn(h.name, raw, tail);
    }
  }

  /** Header round trip: what is parsed back is the meaning of the list. */
  lemma {:induction false} HeaderRoundTrip(hs: seq<Header>, acc: HeaderMap, text: Decode)
    requires AllEncodable(hs)
    ensures Scan(EncodeHeaders(hs), acc, text) == Meaning(hs, acc, text)
  {
    if hs != [] {
      var tail := EncodeHeaders(hs[1..]);
      EncodedHeaderTurn(hs[0], tail);
      var acc' := if TextOf(hs[0], text).Some? then acc[text(hs[0].name) := TextOf(hs[0], text).value] else acc;
      HeaderRoundTrip(hs[1..], acc', text);
    }
  }

  // ── Header blocks that end early ──────────────────────────────────────

  function Noted(h: Header, acc: HeaderMap, text: Decode): HeaderMap {
    if TextOf(h, text).Some? then acc[text(h.name) := TextOf(h, text).value] else acc
  }

  lemma ScanOne(h: Header, rest: seq<byte>, acc: HeaderMap, text: Decode)
    requires Encodable(h)
    ensures Scan(EncodeHeader(h) + rest, acc, text) == Scan(rest, Noted(h, acc, text), text)
  {
    EncodedHeaderTurn(h, rest);
  }

  lemma MeaningOne(hs: seq<Header>, acc: HeaderMap, text: Decode)
    requires hs != []
    ensures Meaning(hs, acc, text) == Meaning(hs[1..], Noted(hs[0], acc, text), text)
  {
  }

  lemma EncodeOne(hs: seq<Header>, tail: seq<byte>)
    requires AllEncodable(hs) && hs != []
    ensures EncodeHeaders(hs) + tail == EncodeHeader(hs[0]) + (EncodeHeaders(hs[1..]) + tail)
  {
  }

  /** The headers before a point are read whatever comes after it. */
  lemma {:induction false} ScanAfter(hs: seq<Header>, tail: seq<byte>, acc: HeaderMap, text: Decode)
    requires AllEncodable(hs)
    ensures Scan(EncodeHeaders(hs) + tail, acc, text) == Scan(tail, Meaning(hs, acc, text), text)
    decreases |hs|
  {
    if hs == [] {
      assert EncodeHeaders(hs) + tail == tail;
    } else {
      EncodeOne(hs, tail);
      ScanOne(hs[0], EncodeHeaders(hs[1..]) + tail, acc, text);
      MeaningOne(hs, acc, text);
      ScanAfter(hs[1..], tail, Noted(hs[0], acc, text), text);
    }
  }

  lemma CutNameTurn(name: seq<byte>, cut: seq<byte>, missing: seq<byte>)
    requires |name| < 256 && cut + missing == [|name|] + name && cut != []
    ensures NextTurn(cut).Exit?
  {
    assert cut[0] == (cut + missing)[0] == |name|;
  }

  lemma CutValueTurn(name: seq<byte>, v: Value, cut: seq<byte>, missing: seq<byte>)
    requires v.Blob? || v.Text? ==> |v.raw| < TWO16
    requires cut + missing == BodyOf(v) && missing != []
    requires v.Fixed? ==> FixedWidth(v.kind) == Some(|v.raw|)
    ensures var t := ValueTurn(name, KindOf(v), cut); t == Exit || t == Skip([])
  {
    if (v.Blob? || v.Text?) && |cut| >= 2 {
      assert (cut + missing)[..2] == cut[..2] && cut == cut[..2] + cut[2..];
      assert BodyOf(v)[..2] == WriteBE16(|v.raw|);
      ReadWriteBE16(|v.raw|, cut[2..]);
    }
  }

  lemma CutInName(front: seq<byte>, rest: seq<byte>, cut: seq<byte>, missing: seq<byte>)
    requires cut + missing == front + rest && |cut| <= |front|
    ensures cut + front[|cut|..] == front
  {
    assert cut == (cut + missing)[..|cut|] == (front + rest)[..|cut|];
  }

  lemma TurnAfterFront(name: seq<byte>, kind: byte, body: seq<byte>)
    requires |name| < 256
    ensures NextTurn([|name|] + name + [kind] + body) == ValueTurn(name, kind, body)
  {
    assert [|name|] + name + [kind] + body == [|name|] + name + ([kind] + body);
    NameAndKindTurn(name, kind, body);
  }

  lemma CutInValue(h: Header, cut: seq<byte>, missing: seq<byte>)
    requires Encodable(h) && missing != [] && |cut| >= 2 + |h.name|
    requires cut + missing == [|h.name|] + h.name + [KindOf(h.value)] + BodyOf(h.value)
    ensures NextTurn(cut) == Exit || NextTurn(cut) == Skip([])
  {
    var front := [|h.name|] + h.name + [KindOf(h.value)];
    var body := cut[|front|..];
    CutsAfter(front, BodyOf(h.value), cut, missing);
    TurnAfterFront(h.name, KindOf(h.value), body);
    CutValueTurn(h.name, h.value, body, missing);
  }

  /** A header of which the end is missing is not read, and nothing is read in its place. */
  lemma CutHeaderTurn(h: Header, cut: seq<byte>, missing: seq<byte>)
    requires Encodable(h) && cut + missing == EncodeHeader(h) && cut != [] && missing != []
    ensures NextTurn(cut) == Exit || NextTurn(cut) == Skip([])
  {
    var front, rest := [|h.name|] + h.name, [KindOf(h.value)] + BodyOf(h.value);
    EncodedAsKindAndBody(h, []);
    assert BodyOf(h.value) + [] == BodyOf(h.value) && EncodeHeader(h) + [] == EncodeHeader(h);
    if |cut| <= |front| {
      CutInName(front, rest, cut, missing);
      CutNameTurn(h.name, cut, front[|cut|..]);
    } else {
      assert front + rest == front + [KindOf(h.value)] + BodyOf(h.value);
      CutInValue(h, cut, missing);
    }
  }

  lemma CutsAfter(a: seq<byte>, b: seq<byte>, cut: seq<byte>, missing: seq<byte>)
    requires cut + missing == a + b && |cut| >= |a|
    ensures cut == a + cut[|a|..] && cut[|a|..] + missing == b
  {
    assert a == (a + b)[..|a|] == (cut + missing)[..|a|] == cut[..|a|];
    assert b == (a + b)[|a|..] == (cut + missing)[|a|..];
  }

  /** A block that is cut inside a header has the meaning of the whole headers before the cut. */
  lemma CutBlockKeepsTheRest(hs: seq<Header>, h: Header, cut: seq<byte>, missing: seq<byte>, text: Decode)
    requires AllEncodable(hs) && Encodable(h) && cut + missing == EncodeHeader(h) && missing != []
    ensures Scan(EncodeHeaders(hs) + cut, map[], text) == Meaning(hs, map[], text)
  {
    ScanAfter(hs, cut, map[], text);
    if cut != [] {
      CutHeaderTurn(h, cut, missing);
    }
  }

  lemma UnknownTypeTurn(name: seq<byte>, kind: byte, after: seq<byte>, acc: HeaderMap, text: Decode)
    requires |name| < 256 && kind > 9
    ensures Scan([|name|] + name + ([kind] + after), acc, text) == acc
  {
    NameAndKindTurn(name, kind, after);
  }

  /** A value type beyond the ten known ones ends the block: the headers before it count, nothing after it does. */
  lemma UnknownTypeEndsBlock(hs: seq<Header>, name: seq<byte>, kind: byte, after: seq<byte>, text: Decode)
    requires AllEncodable(hs) && |name| < 256 && kind > 9
    ensures Scan(EncodeHeaders(hs) + ([|name|] + name + ([kind] + after)), map[], text) == Meaning(hs, map[], text)
  {
    ScanAfter(hs, [|name|] + name + ([kind] + after), map[], text);
    UnknownTypeTurn(name, kind, after, Meaning(hs, map[], text), text);
  }
}
