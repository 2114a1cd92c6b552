/**
 * Splitting text into overlapping chunks for embedding: paragraphs are packed
 * up to a limit, and a paragraph beyond it is cut at sentence ends and then
 * by force. Text is ASCII, so that lengths in bytes and characters agree.
 */
module Chunker {
  import opened Prelude

  // ── Cutting up text ───────────────────────────────────────────────────

  predicate IsSpace(c: char) {
    c == ' ' || c == '\t' || c == '\n' || c == '\r' || c == '\U{0B}' || c == '\U{0C}'
  }

  function TrimStart(s: string): string {
    if s != "" && IsSpace(s[0]) then TrimStart(s[1..]) else s
  }

  function TrimEnd(s: string): string {
    if s != "" && IsSpace(s[|s| - 1]) then TrimEnd(s[..|s| - 1]) else s
  }

  function Trim(s: string): string {
    TrimEnd(TrimStart(s))
  }

  const BREAK := "\n\n"

  /** The first paragraph break at or after `i`. */
  function FindBreak(t: string, i: nat): (r: Option<nat>)
    requires i <= |t|
    ensures r.Some? ==> i <= r.value && r.value + 2 <= |t| && t[r.value..r.value + 2] == BREAK
    decreases |t| - i
  {
    if i + 2 > |t| then None
    else if t[i] == '\n' && t[i + 1] == '\n' then Some(i)
    else FindBreak(t, i + 1)
  }

  /** `split("\n\n")` */
  function Paragraphs(t: string): seq<string>
    decreases |t|
  {
    match FindBreak(t, 0)
    case None => [t]
    case Some(j) => [t[..j]] + Paragraphs(t[j + 2..])
  }

  predicate EndsSentence(c: char) {
    c == '.' || c == '!' || c == '?'
  }

  function FindStop(t: string, i: nat): (r: Option<nat>)
    requires i <= |t|
    ensures r.Some? ==> i <= r.value < |t| && EndsSentence(t[r.value])
    decreases |t| - i
  {
    if i == |t| then None else if EndsSentence(t[i]) then Some(i) else FindStop(t, i + 1)
  }

  /** `split_inclusive(['.', '!', '?'])` */
  function Sentences(t: string): seq<string>
    decreases |t|
  {
    match FindStop(t, 0)
    case None => if t == "" then [] else [t]
    case Some(j) => [t[..j + 1]] + Sentences(t[j + 1..])
  }

  function Concat(parts: seq<string>): string {
    if parts == [] then "" else Concat(parts[..|parts| - 1]) + parts[|parts| - 1]
  }

  lemma ConcatAppend(parts: seq<string>, part: string)
    ensures Concat(parts + [part]) == Concat(parts) + part
  {
    assert (parts + [part])[..|parts|] == parts;
  }

  lemma {:induction false} ConcatConcat(a: seq<string>, b: seq<string>)
    ensures Concat(a + b) == Concat(a) + Concat(b)
  {
    if b == [] {
      assert a + b == a;
    } else {
      var n := |b| - 1;
      assert (a + b)[..|a + b| - 1] == a + b[..n];
      ConcatConcat(a, b[..n]);
    }
  }

  lemma ConcatOne(s: string)
    ensures Concat([s]) == s
  {
    assert [s][..0] == [];
  }

  /** Sentences are non-empty and make up the text. */
  lemma {:induction false} SentencesMakeText(t: string)
    ensures Concat(Sentences(t)) == t
    ensures forall s :: s in Sentences(t) ==> s != ""
    decreases |t|
  {
    match FindStop(t, 0) {
      case None =>
        ConcatOne(t);
      case Some(j) =>
        SentencesMakeText(t[j + 1..]);
        ConcatConcat([t[..j + 1]], Sentences(t[j + 1..]));
        ConcatOne(t[..j + 1]);
    }
  }

  // ── Windows ───────────────────────────────────────────────────────────

  /** A half-open range of positions. */
  type Window = (nat, nat)

  /** `v` reaches further than `w`, leaves no gap, and repeats `overlap` characters of it, or none if it has no more. */
  predicate Follows(w: Window, v: Window, overlap: nat) {
    && w.0 < v.0 && w.1 < v.1
    && v.0 == w.1 - if w.1 - w.0 > overlap then overlap else 0
  }

  predicate Chain(ws: seq<Window>, overlap: nat) {
    && (forall i :: 0 <= i < |ws| ==> ws[i].0 < ws[i].1)
    && (forall i :: 0 <= i < |ws| - 1 ==> Follows(ws[i], ws[i + 1], overlap))
  }

  /** The parts are the windows of the text. */
  predicate Cut(text: string, ws: seq<Window>, parts: seq<string>) {
    && |ws| == |parts|
    && forall i :: 0 <= i < |ws| ==> ws[i].0 <= ws[i].1 <= |text| && parts[i] == text[ws[i].0..ws[i].1]
  }

  /** From the first character to the last. */
  predicate Spans(ws: seq<Window>, length: nat) {
    if ws == [] then length == 0 else ws[0].0 == 0 && ws[|ws| - 1].1 == length
  }

  ghost predicate Tiles(text: string, ws: seq<Window>, parts: seq<string>, overlap: nat) {
    Cut(text, ws, parts) && Chain(ws, overlap) && Spans(ws, |text|)
  }

  lemma ChainExtend(ws: seq<Window>, v: Window, overlap: nat)
    requires Chain(ws, overlap) && v.0 < v.1
    requires ws != [] ==> Follows(ws[|ws| - 1], v, overlap)
    ensures Chain(ws + [v], overlap)
  {
  }

  lemma ChainJoin(a: seq<Window>, b: seq<Window>, overlap: nat)
    requires Chain(a, overlap) && Chain(b, overlap)
    requires a != [] && b != [] ==> Follows(a[|a| - 1], b[0], overlap)
    ensures Chain(a + b, overlap)
  {
    var ws := a + b;
    forall i | 0 <= i < |ws| - 1 ensures Follows(ws[i], ws[i + 1], overlap) {
      if i >= |a| {
        assert ws[i] == b[i - |a|] && ws[i + 1] == b[i + 1 - |a|];
      }
    }
  }

  /** Without overlap the parts put together are the text. */
  lemma {:induction false} TilesConcat(text: string, ws: seq<Window>, parts: seq<string>, n: nat)
    requires Cut(text, ws, parts) && Chain(ws, 0) && n <= |ws| && (ws != [] ==> ws[0].0 == 0)
    ensures Concat(parts[..n]) == if n == 0 then "" else text[..ws[n - 1].1]
  {
    if n > 0 {
      TilesConcat(text, ws, parts, n - 1);
      assert parts[..n] == parts[..n - 1] + [parts[n - 1]];
      ConcatAppend(parts[..n - 1], parts[n - 1]);
      if n > 1 {
        assert Follows(ws[n - 2], ws[n - 2 + 1], 0);
        assert text[..ws[n - 1].0] + text[ws[n - 1].0..ws[n - 1].1] == text[..ws[n - 1].1];
      }
    }
  }

  lemma TilesMakeText(text: string, ws: seq<Window>, parts: seq<string>)
    requires Tiles(text, ws, parts, 0)
    ensures Concat(parts) == text
  {
    TilesConcat(text, ws, parts, |ws|);
    assert parts[..|ws|] == parts && text[..|text|] == text;
  }

  // ── Cutting by force ──────────────────────────────────────────────────

  predicate AllWithin(parts: seq<string>, maxChars: nat) {
    forall p :: p in parts ==> |p| <= maxChars
  }

  /** The end of a finished chunk that the next one repeats. */
  function Tail(chunk: string, overlap: nat): string {
    if |chunk| > overlap > 0 then chunk[|chunk| - overlap..] else ""
  }

  /** The pieces from `start` on. Where the overlap is too large the original would not stop; this does. */
  function Pieces(chunk: string, start: nat, maxChars: nat, overlap: nat): seq<string>
    requires start <= |chunk|
    decreases |chunk| - start
  {
    if start + maxChars >= |chunk| || overlap >= maxChars then [chunk[start..]]
    else [chunk[start..start + maxChars]] + Pieces(chunk, start + maxChars - overlap, maxChars, overlap)
  }

  /** Where the loop goes after the piece that ends at `end`. */
  function NextStart(end: nat, overlap: nat): nat {
    if overlap > 0 then SaturatingSub(end, overlap) else end
  }

  /** Where the pieces lie. */
  function Windows(length: nat, start: nat, maxChars: nat, overlap: nat): seq<Window>
    requires start <= length
    decreases length - start
  {
    if start + maxChars >= length || overlap >= maxChars then [(start, length)]
    else [(start, start + maxChars)] + Windows(length, start + maxChars - overlap, maxChars, overlap)
  }

  lemma {:induction false} WindowsChain(length: nat, start: nat, maxChars: nat, overlap: nat)
    requires overlap < maxChars && start + overlap < length
    ensures var ws := Windows(length, start, maxChars, overlap);
            && Chain(ws, overlap)
            && ws[0] == (start, Min(start + maxChars, length))
            && ws[|ws| - 1].1 == length && ws[|ws| - 1].0 + overlap < length
    decreases length - start
  {
    if start + maxChars < length {
      WindowsChain(length, start + maxChars - overlap, maxChars, overlap);
      ChainJoin([(start, start + maxChars)], Windows(length, start + maxChars - overlap, maxChars, overlap), overlap);
    }
  }

  lemma CutMore(text: string, w: Window, ws: seq<Window>, parts: seq<string>)
    requires w.0 <= w.1 <= |text| && Cut(text, ws, parts)
    ensures Cut(text, [w] + ws, [text[w.0..w.1]] + parts)
  {
  }

  lemma {:induction false} PiecesAreWindows(chunk: string, start: nat, maxChars: nat, overlap: nat)
    requires overlap < maxChars && start <= |chunk|
    ensures Cut(chunk, Windows(|chunk|, start, maxChars, overlap), Pieces(chunk, start, maxChars, overlap))
    ensures AllWithin(Pieces(chunk, start, maxChars, overlap), maxChars)
    decreases |chunk| - start
  {
    if start + maxChars < |chunk| {
      var next := start + maxChars - overlap;
      PiecesAreWindows(chunk, next, maxChars, overlap);
      CutMore(chunk, (start, start + maxChars), Windows(|chunk|, next, maxChars, overlap), Pieces(chunk, next, maxChars, overlap));
    } else {
      assert chunk[start..|chunk|] == chunk[start..];
    }
  }

  /** The forced cut tiles the chunk with pieces within the limit. */
  lemma PiecesTile(chunk: string, maxChars: nat, overlap: nat)
    requires overlap < maxChars < |chunk|
    ensures Tiles(chunk, Windows(|chunk|, 0, maxChars, overlap), Pieces(chunk, 0, maxChars, overlap), overlap)
    ensures AllWithin(Pieces(chunk, 0, maxChars, overlap), maxChars)
  {
    WindowsChain(|chunk|, 0, maxChars, overlap);
    PiecesAreWindows(chunk, 0, maxChars, overlap);
  }

  method HardSplit(chunk: string, maxChars: nat, overlap: nat) returns (pieces: seq<string>)
    requires overlap < maxChars < |chunk|
    ensures pieces == Pieces(chunk, 0, maxChars, overlap)
  {
    pieces := [];
    var start := 0;
    while start < |chunk|
      invariant start < |chunk|
      invariant pieces + Pieces(chunk, start, maxChars, overlap) == Pieces(chunk, 0, maxChars, overlap)
      decreases |chunk| - start
    {
      var end := Min(start + maxChars, |chunk|);
      assert chunk[start..|chunk|] == chunk[start..];
      pieces := pieces + [chunk[start..end]];
      if end == |chunk| {
        break;
      }
      start := NextStart(end, overlap);
    }
  }

  /** The loop on a chunk of the given length leaves within `n` further turns. */
  predicate EndsWithin(length: nat, maxChars: nat, overlap: nat, start: nat, n: nat)
    decreases n
  {
    || start + maxChars >= length
    || (n > 0 && EndsWithin(length, maxChars, overlap, NextStart(start + maxChars, overlap), n - 1))
  }

  lemma {:induction false} StepsForward(length: nat, maxChars: nat, overlap: nat, start: nat, n: nat)
    requires overlap < maxChars && start + n >= length
    ensures EndsWithin(length, maxChars, overlap, start, n)
    decreases n
  {
    if start + maxChars < length {
      var next := NextStart(start + maxChars, overlap);
      StepsForward(length, maxChars, overlap, next, n - 1);
    }
  }

  lemma {:induction false} StaysAtZero(length: nat, maxChars: nat, overlap: nat, n: nat)
    requires maxChars < length && maxChars <= overlap
    ensures !EndsWithin(length, maxChars, overlap, 0, n)
    decreases n
  {
    if n > 0 {
      StaysAtZero(length, maxChars, overlap, n - 1);
    }
  }

  ghost predicate Ends(length: nat, maxChars: nat, overlap: nat) {
    exists n: nat :: EndsWithin(length, maxChars, overlap, 0, n)
  }

  /** The forced cut of an over-long chunk ends if and only if the overlap is smaller than the limit. */
  lemma HardSplitEndsIff(length: nat, maxChars: nat, overlap: nat)
    requires maxChars < length
    ensures Ends(length, maxChars, overlap) <==> overlap < maxChars
  {
    if overlap < maxChars {
      StepsForward(length, maxChars, overlap, 0, length);
    } else {
      forall n: nat ensures !EndsWithin(length, maxChars, overlap, 0, n) {
        StaysAtZero(length, maxChars, overlap, n);
      }
    }
  }

  // ── One long paragraph ────────────────────────────────────────────────

  /** The forced cut is never reached, or it ends. */
  predicate Splittable(text: string, maxChars: nat, overlap: nat) {
    overlap < maxChars || AllWithin(Sentences(text), maxChars)
  }

  /** Finished chunks and the one in progress. */
  datatype Work = Work(chunks: seq<string>, current: string)

  const NOTHING := Work([], "")

  function Closed(p: Work): seq<string> {
    if p.current == "" then p.chunks else p.chunks + [p.current]
  }

  /** A sentence joins the chunk in progress unless that would exceed the limit. */
  function PackSentence(p: Work, sentence: string, maxChars: nat, overlap: nat): Work {
    if p.current != "" && |p.current| + |sentence| > maxChars
    then Work(p.chunks + [p.current], Tail(p.current, overlap) + sentence)
    else Work(p.chunks, p.current + sentence)
  }

  function PackedSentences(sentences: seq<string>, maxChars: nat, overlap: nat): Work {
    if sentences == [] then NOTHING
    else
      var n := |sentences| - 1;
      PackSentence(PackedSentences(sentences[..n], maxChars, overlap), sentences[n], maxChars, overlap)
  }

  lemma PackedOneMore(sentences: seq<string>, i: nat, maxChars: nat, overlap: nat)
    requires i < |sentences|
    ensures PackedSentences(sentences[..i + 1], maxChars, overlap)
            == PackSentence(PackedSentences(sentences[..i], maxChars, overlap), sentences[i], maxChars, overlap)
  {
    assert sentences[..i + 1][..i] == sentences[..i];
  }

  function CutOne(chunk: string, maxChars: nat, overlap: nat): seq<string> {
    if |chunk| <= maxChars then [chunk] else Pieces(chunk, 0, maxChars, overlap)
  }

  function CutAll(chunks: seq<string>, maxChars: nat, overlap: nat): seq<string> {
    if chunks == [] then []
    else
      var n := |chunks| - 1;
      CutAll(chunks[..n], maxChars, overlap) + CutOne(chunks[n], maxChars, overlap)
  }

  /** Sentences packed, then cut by force where still too long. */
  function SplitText(text: string, maxChars: nat, overlap: nat): seq<string> {
    CutAll(Closed(PackedSentences(Sentences(text), maxChars, overlap)), maxChars, overlap)
  }

  /** `chunks` and then `current` are windows of the text read so far. */
  ghost predicate PackedTo(text: string, chunks: seq<string>, ws: seq<Window>, current: string, w: Window, overlap: nat) {
    && w.0 < w.1 <= |text| && current == text[w.0..w.1]
    && Cut(text, ws, chunks) && Chain(ws + [w], overlap) && (ws + [w])[0].0 == 0
  }

  lemma PackGrows(text: string, chunks: seq<string>, ws: seq<Window>, current: string, w: Window, overlap: nat, further: nat)
    requires PackedTo(text, chunks, ws, current, w, overlap) && w.1 <= further <= |text|
    ensures PackedTo(text, chunks, ws, current + text[w.1..further], (w.0, further), overlap)
  {
    LastGrows(ws, w.0, w.1, further, overlap);
    assert current + text[w.1..further] == text[w.0..further];
    assert (ws + [(w.0, further)])[0].0 == (ws + [w])[0].0;
  }

  lemma PackFlushes(text: string, chunks: seq<string>, ws: seq<Window>, current: string, w: Window, overlap: nat,
                    tail: string, further: nat)
    requires PackedTo(text, chunks, ws, current, w, overlap) && w.1 < further <= |text|
    requires tail == Tail(current, overlap)
    ensures PackedTo(text, chunks + [current], ws + [w], tail + text[w.1..further], (w.1 - |tail|, further), overlap)
  {
    var v := (w.1 - |tail|, further);
    ChainExtend(ws + [w], v, overlap);
    assert tail == text[v.0..w.1];
    assert tail + text[w.1..further] == text[v.0..further];
  }

  /** With an overlap too large to cut by force, a chunk is over-long exactly when a sentence is. */
  ghost predicate SizesAgree(sentences: seq<string>, chunks: seq<string>, current: string, maxChars: nat, overlap: nat) {
    maxChars <= overlap ==> (AllWithin(sentences, maxChars) <==> AllWithin(chunks, maxChars) && |current| <= maxChars)
  }

  lemma SizesStillAgree(sentences: seq<string>, sentence: string, chunks: seq<string>, current: string,
                        chunks': seq<string>, current': string, maxChars: nat, overlap: nat)
    requires SizesAgree(sentences, chunks, current, maxChars, overlap)
    requires chunks <= chunks' && (forall c :: c in chunks' ==> c in chunks || c == current)
    requires |current'| >= |sentence| && (|current'| >= |current| || current in chunks')
    requires |current'| <= Max(maxChars, |sentence| + if |current| > overlap then overlap else 0)
    ensures SizesAgree(sentences + [sentence], chunks', current', maxChars, overlap)
  {
    assert AllWithin(sentences + [sentence], maxChars) <==> AllWithin(sentences, maxChars) && |sentence| <= maxChars;
  }

  /** The state of the sentence loop: nothing yet, or `PackedTo`. */
  ghost predicate Packing(text: string, chunks: seq<string>, ws: seq<Window>, current: string, w: Window, overlap: nat) {
    if current == "" then chunks == [] && ws == [] && w == (0, 0) else PackedTo(text, chunks, ws, current, w, overlap)
  }

  /** One turn of the sentence loop: the chunk in progress grows, or is finished and a new one begun. */
  method PackOne(ghost text: string, chunks: seq<string>, ghost ws: seq<Window>, current: string, ghost w: Window,
                 sentence: string, maxChars: nat, overlap: nat)
    returns (chunks': seq<string>, ghost ws': seq<Window>, current': string, ghost w': Window)
    requires Packing(text, chunks, ws, current, w, overlap) && sentence != ""
    requires w.1 + |sentence| <= |text| && sentence == text[w.1..w.1 + |sentence|]
    ensures Packing(text, chunks', ws', current', w', overlap) && w'.1 == w.1 + |sentence|
    ensures forall c :: c in chunks' ==> c in chunks || c == current
    ensures chunks <= chunks' && |current'| >= |sentence| && (|current'| >= |current| || current in chunks')
    ensures |current'| <= Max(maxChars, |sentence| + if |current| > overlap then overlap else 0)
    ensures Work(chunks', current') == PackSentence(Work(chunks, current), sentence, maxChars, overlap)
  {
    ghost var further := w.1 + |sentence|;
    if current != "" && |current| + |sentence| > maxChars {
      var tail := if overlap > 0 && |current| > overlap then current[|current| - overlap..] else "";
      PackFlushes(text, chunks, ws, current, w, overlap, tail, further);
      chunks', ws', w' := chunks + [current], ws + [w], (w.1 - |tail|, further);
      current' := tail + sentence;
    } else {
      if current != "" {
        PackGrows(text, chunks, ws, current, w, overlap, further);
      }
      chunks', ws', w' := chunks, ws, (w.0, further);
      current' := current + sentence;
    }
  }

  /** The invariant of the sentence loop after the first `i` sentences. */
  ghost predicate SentencesPacked(text: string, sentences: seq<string>, i: nat, chunks: seq<string>, ws: seq<Window>,
                                  current: string, w: Window, maxChars: nat, overlap: nat)
    requires i <= |sentences|
  {
    && w.1 <= |text| && Concat(sentences[..i]) == text[..w.1]
    && Packing(text, chunks, ws, current, w, overlap)
    && SizesAgree(sentences[..i], chunks, current, maxChars, overlap)
  }

  lemma SizesOneMore(sentences: seq<string>, i: nat, chunks: seq<string>, current: string,
                     chunks': seq<string>, current': string, maxChars: nat, overlap: nat)
    requires i < |sentences| && SizesAgree(sentences[..i], chunks, current, maxChars, overlap)
    requires chunks <= chunks' && (forall c :: c in chunks' ==> c in chunks || c == current)
    requires |current'| >= |sentences[i]| && (|current'| >= |current| || current in chunks')
    requires |current'| <= Max(maxChars, |sentences[i]| + if |current| > overlap then overlap else 0)
    ensures SizesAgree(sentences[..i + 1], chunks', current', maxChars, overlap)
  {
    SizesStillAgree(sentences[..i], sentences[i], chunks, current, chunks', current', maxChars, overlap);
    assert sentences[..i + 1] == sentences[..i] + [sentences[i]];
  }

  method PackNext(ghost text: string, sentences: seq<string>, i: nat, chunks: seq<string>, ghost ws: seq<Window>,
                  current: string, ghost w: Window, maxChars: nat, overlap: nat)
    returns (chunks': seq<string>, ghost ws': seq<Window>, current': string, ghost w': Window)
    requires i < |sentences| && Concat(sentences) == text && sentences[i] != ""
    requires SentencesPacked(text, sentences, i, chunks, ws, current, w, maxChars, overlap)
    ensures SentencesPacked(text, sentences, i + 1, chunks', ws', current', w', maxChars, overlap)
    ensures Work(chunks', current') == PackSentence(Work(chunks, current), sentences[i], maxChars, overlap)
  {
    SentenceFits(sentences, i, text, w.1);
    chunks', ws', current', w' := PackOne(text, chunks, ws, current, w, sentences[i], maxChars, overlap);
    SizesOneMore(sentences, i, chunks, current, chunks', current', maxChars, overlap);
  }

  lemma PackingCloses(text: string, chunks: seq<string>, ws: seq<Window>, current: string, w: Window, overlap: nat)
    requires Packing(text, chunks, ws, current, w, overlap) && w.1 == |text|
    ensures Tiles(text, if current == "" then ws else ws + [w], Closed(Work(chunks, current)), overlap)
  {
  }

  lemma ClosedSizes(sentences: seq<string>, text: string, chunks: seq<string>, current: string, maxChars: nat, overlap: nat)
    requires sentences == Sentences(text) && SizesAgree(sentences, chunks, current, maxChars, overlap)
    ensures maxChars <= overlap ==>
              (Splittable(text, maxChars, overlap) <==> AllWithin(Closed(Work(chunks, current)), maxChars))
  {
  }

  method PackSentences(text: string, maxChars: nat, overlap: nat) returns (chunks: seq<string>, ghost ws: seq<Window>)
    ensures Tiles(text, ws, chunks, overlap)
    ensures maxChars <= overlap ==> (Splittable(text, maxChars, overlap) <==> AllWithin(chunks, maxChars))
    ensures chunks == Closed(PackedSentences(Sentences(text), maxChars, overlap))
  {
    SentencesMakeText(text);
    var sentences := Sentences(text);
    chunks, ws := [], [];
    var current := "";
    ghost var w: Window := (0, 0);
    for i := 0 to |sentences|
      invariant SentencesPacked(text, sentences, i, chunks, ws, current, w, maxChars, overlap)
      invariant Work(chunks, current) == PackedSentences(sentences[..i], maxChars, overlap)
    {
      PackedOneMore(sentences, i, maxChars, overlap);
      assert sentences[i] in sentences;
      chunks, ws, current, w := PackNext(text, sentences, i, chunks, ws, current, w, maxChars, overlap);
    }
    assert sentences[..|sentences|] == sentences;
    PackingCloses(text, chunks, ws, current, w, overlap);
    ClosedSizes(sentences, text, chunks, current, maxChars, overlap);
    if current != "" {
      chunks := chunks + [current];
      ws := ws + [w];
    }
  }

  lemma LastGrows(ws: seq<Window>, start: nat, pos: nat, further: nat, overlap: nat)
    requires Chain(ws + [(start, pos)], overlap) && pos <= further
    ensures Chain(ws + [(start, further)], overlap)
  {
    var a, b := ws + [(start, pos)], ws + [(start, further)];
    forall i | 0 <= i < |b| ensures b[i].0 < b[i].1 {
      assert a[i].0 < a[i].1 && (i < |ws| ==> b[i] == a[i] == ws[i]);
    }
    forall i | 0 <= i < |b| - 1 ensures Follows(b[i], b[i + 1], overlap) {
      assert Follows(a[i], a[i + 1], overlap) && b[i] == a[i] == ws[i];
      assert if i + 1 < |ws| then b[i + 1] == a[i + 1] else b[i + 1] == (start, further) && a[i + 1] == (start, pos);
    }
  }

  lemma SentenceFits(sentences: seq<string>, i: nat, text: string, pos: nat)
    requires i < |sentences| && Concat(sentences) == text && pos <= |text|
    requires Concat(sentences[..i]) == text[..pos]
    ensures pos + |sentences[i]| <= |text|
    ensures text[pos..pos + |sentences[i]|] == sentences[i]
    ensures Concat(sentences[..i + 1]) == text[..pos + |sentences[i]|]
  {
    assert sentences[..i + 1] == sentences[..i] + [sentences[i]];
    ConcatAppend(sentences[..i], sentences[i]);
    assert sentences == sentences[..i + 1] + sentences[i + 1..];
    ConcatConcat(sentences[..i + 1], sentences[i + 1..]);
    assert Concat(sentences[..i + 1]) == text[..|Concat(sentences[..i + 1])|];
  }

  function Shift(ws: seq<Window>, offset: nat): (r: seq<Window>)
    ensures |r| == |ws|
    ensures forall i :: 0 <= i < |r| ==> r[i] == (ws[i].0 + offset, ws[i].1 + offset)
  {
    seq(|ws|, i requires 0 <= i < |ws| => (ws[i].0 + offset, ws[i].1 + offset))
  }

  lemma ShiftedChain(ws: seq<Window>, offset: nat, overlap: nat)
    requires Chain(ws, overlap)
    ensures Chain(Shift(ws, offset), overlap)
  {
    var s := Shift(ws, offset);
    forall i | 0 <= i < |s| - 1 ensures Follows(s[i], s[i + 1], overlap) {
      assert Follows(ws[i], ws[i + 1], overlap);
    }
  }

  lemma ShiftedCut(text: string, w: Window, ws: seq<Window>, pieces: seq<string>)
    requires w.0 <= w.1 <= |text| && Cut(text[w.0..w.1], ws, pieces)
    ensures Cut(text, Shift(ws, w.0), pieces)
  {
    var inner, s := text[w.0..w.1], Shift(ws, w.0);
    forall i | 0 <= i < |s|
      ensures s[i].0 <= s[i].1 <= |text| && pieces[i] == text[s[i].0..s[i].1]
    {
      assert inner[ws[i].0..ws[i].1] == text[s[i].0..s[i].1];
    }
  }

  /** The pieces of one packed chunk, as windows of the whole text. */
  method CutChunk(text: string, ghost w: Window, chunk: string, maxChars: nat, overlap: nat)
    returns (pieces: seq<string>, ghost ws: seq<Window>)
    requires w.0 < w.1 <= |text| && chunk == text[w.0..w.1]
    requires |chunk| > maxChars ==> overlap < maxChars
    ensures Cut(text, ws, pieces) && Chain(ws, overlap)
    ensures AllWithin(pieces, maxChars)
    ensures ws != [] && ws[0].0 == w.0 && ws[|ws| - 1].1 == w.1
    ensures ws == [w] || (overlap < maxChars < w.1 - w.0 && ws[0].1 == w.0 + maxChars && ws[|ws| - 1].0 + overlap < w.1)
    ensures pieces == CutOne(chunk, maxChars, overlap)
  {
    if |chunk| <= maxChars {
      pieces, ws := [chunk], [w];
    } else {
      pieces := HardSplit(chunk, maxChars, overlap);
      WindowsChain(|chunk|, 0, maxChars, overlap);
      PiecesAreWindows(chunk, 0, maxChars, overlap);
      ws := Windows(|chunk|, 0, maxChars, overlap);
      ShiftedChain(ws, w.0, overlap);
      ShiftedCut(text, w, ws, pieces);
      ws := Shift(ws, w.0);
    }
  }

  /** The first `k` packed windows have been cut further into `ws`. */
  ghost predicate CutSoFar(text: string, packed: seq<Window>, k: nat, ws: seq<Window>, parts: seq<string>, overlap: nat)
    requires k <= |packed|
  {
    && Cut(text, ws, parts) && Chain(ws, overlap)
    && if k == 0 then ws == []
       else
         && ws != [] && ws[0].0 == 0 && ws[|ws| - 1].1 == packed[k - 1].1
         && (k < |packed| ==> ws[|ws| - 1].0 < packed[k].0)
         && (ws[|ws| - 1].0 + overlap < ws[|ws| - 1].1 <==> packed[k - 1].0 + overlap < packed[k - 1].1)
  }

  lemma CutOneMore(text: string, packed: seq<Window>, k: nat, ws: seq<Window>, parts: seq<string>,
                   cut: seq<Window>, pieces: seq<string>, maxChars: nat, overlap: nat)
    requires k < |packed| && Chain(packed, overlap) && packed[0].0 == 0
    requires CutSoFar(text, packed, k, ws, parts, overlap)
    requires Cut(text, cut, pieces) && Chain(cut, overlap)
    requires cut != [] && cut[0].0 == packed[k].0 && cut[|cut| - 1].1 == packed[k].1
    requires cut == [packed[k]]
             || (overlap < maxChars < packed[k].1 - packed[k].0
                 && cut[0].1 == packed[k].0 + maxChars && cut[|cut| - 1].0 + overlap < packed[k].1)
    ensures CutSoFar(text, packed, k + 1, ws + cut, parts + pieces, overlap)
  {
    assert k > 0 ==> Follows(packed[k - 1], packed[k - 1 + 1], overlap);
    assert k + 1 < |packed| ==> Follows(packed[k], packed[k + 1], overlap);
    ChainJoin(ws, cut, overlap);
  }

  lemma AllCutTiles(text: string, packed: seq<Window>, ws: seq<Window>, parts: seq<string>, overlap: nat)
    requires Spans(packed, |text|) && CutSoFar(text, packed, |packed|, ws, parts, overlap)
    ensures Tiles(text, ws, parts, overlap)
  {
  }

  lemma CutAllOneMore(chunks: seq<string>, k: nat, maxChars: nat, overlap: nat)
    requires k < |chunks|
    ensures CutAll(chunks[..k + 1], maxChars, overlap) == CutAll(chunks[..k], maxChars, overlap) + CutOne(chunks[k], maxChars, overlap)
  {
    assert chunks[..k + 1][..k] == chunks[..k];
  }

  /**
   * `split_long_text`: the chunks are windows of the text, each within the
   * limit, starting ever later, leaving no gap, repeating exactly `overlap`
   * characters of any that has more, from the first character to the last.
   */
  method SplitLongText(text: string, maxChars: nat, overlap: nat) returns (finalChunks: seq<string>, ghost ws: seq<Window>)
    requires Splittable(text, maxChars, overlap)
    ensures Tiles(text, ws, finalChunks, overlap)
    ensures AllWithin(finalChunks, maxChars)
    ensures overlap == 0 ==> Concat(finalChunks) == text
    ensures finalChunks == SplitText(text, maxChars, overlap)
  {
    ghost var packed;
    var chunks;
    chunks, packed := PackSentences(text, maxChars, overlap);
    finalChunks, ws := [], [];
    for k := 0 to |chunks|
      invariant CutSoFar(text, packed, k, ws, finalChunks, overlap)
      invariant AllWithin(finalChunks, maxChars)
      invariant finalChunks == CutAll(chunks[..k], maxChars, overlap)
    {
      assert chunks[k] in chunks;
      ghost var cut;
      var pieces;
      pieces, cut := CutChunk(text, packed[k], chunks[k], maxChars, overlap);
      CutOneMore(text, packed, k, ws, finalChunks, cut, pieces, maxChars, overlap);
      CutAllOneMore(chunks, k, maxChars, overlap);
      finalChunks, ws := finalChunks + pieces, ws + cut;
    }
    assert chunks[..|chunks|] == chunks;
    AllCutTiles(text, packed, ws, finalChunks, overlap);
    if overlap == 0 {
      TilesMakeText(text, ws, finalChunks);
    }
  }

  // ── The whole text ────────────────────────────────────────────────────

  /** A paragraph trimmed, unless nothing is left of it. */
  function OneBlock(paragraph: string): seq<string> {
    if Trim(paragraph) == "" then [] else [Trim(paragraph)]
  }

  /** The non-empty trimmed paragraphs. */
  function Blocks(paragraphs: seq<string>): seq<string> {
    if paragraphs == [] then []
    else Blocks(paragraphs[..|paragraphs| - 1]) + OneBlock(paragraphs[|paragraphs| - 1])
  }

  /** A chunk that a further block would make too long is finished. */
  function MakeRoom(p: Work, block: string, maxChars: nat, overlap: nat): Work {
    if p.current != "" && |p.current| + |block| + 2 > maxChars
    then Work(p.chunks + [p.current], Tail(p.current, overlap)) else p
  }

  function Place(p: Work, block: string, maxChars: nat, overlap: nat): Work {
    if |block| > maxChars then Work(Closed(p) + SplitText(block, maxChars, overlap), "")
    else Work(p.chunks, p.current + (if p.current == "" then "" else BREAK) + block)
  }

  function PackedBlocks(blocks: seq<string>, maxChars: nat, overlap: nat): Work {
    if blocks == [] then NOTHING
    else
      var n := |blocks| - 1;
      Place(MakeRoom(PackedBlocks(blocks[..n], maxChars, overlap), blocks[n], maxChars, overlap), blocks[n], maxChars, overlap)
  }

  /** The chunks of a text longer than the limit. */
  function Chunks(text: string, maxChars: nat, overlap: nat): seq<string> {
    Closed(PackedBlocks(Blocks(Paragraphs(text)), maxChars, overlap))
  }

  predicate IsAt(whole: string, part: string, i: nat) {
    i + |part| <= |whole| && whole[i..i + |part|] == part
  }

  ghost predicate Contains(whole: string, part: string) {
    exists i: nat :: IsAt(whole, part, i)
  }

  /** A block survives whole inside one chunk, or tiled over consecutive ones. */
  ghost predicate Kept(block: string, chunks: seq<string>, maxChars: nat, overlap: nat) {
    if |block| <= maxChars then exists c :: c in chunks && Contains(c, block)
    else exists i: nat, j: nat, ws :: i <= j <= |chunks| && Tiles(block, ws, chunks[i..j], overlap)
  }

  lemma KeptAppend(block: string, chunks: seq<string>, more: seq<string>, maxChars: nat, overlap: nat)
    requires Kept(block, chunks, maxChars, overlap)
    ensures Kept(block, chunks + more, maxChars, overlap)
  {
    if |block| <= maxChars {
      var c :| c in chunks && Contains(c, block);
      assert c in chunks + more;
    } else {
      var i: nat, j: nat, ws :| i <= j <= |chunks| && Tiles(block, ws, chunks[i..j], overlap);
      assert (chunks + more)[i..j] == chunks[i..j];
    }
  }

  lemma ContainsAppend(whole: string, tail: string, part: string)
    requires Contains(whole, part)
    ensures Contains(whole + tail, part)
  {
    var i: nat :| IsAt(whole, part, i);
    assert (whole + tail)[i..i + |part|] == part;
    assert IsAt(whole + tail, part, i);
  }

  lemma EndsWithIt(before: string, part: string)
    ensures Contains(before + part, part)
  {
    assert IsAt(before + part, part, |before|);
  }

  /** The characters that are not white space. */
  function Ink(s: string): string {
    if s == "" then ""
    else Ink(s[..|s| - 1]) + if IsSpace(s[|s| - 1]) then "" else [s[|s| - 1]]
  }

  lemma {:induction false} InkConcat(a: string, b: string)
    ensures Ink(a + b) == Ink(a) + Ink(b)
  {
    if b == "" {
      assert a + b == a;
    } else {
      assert (a + b)[..|a + b| - 1] == a + b[..|b| - 1];
      InkConcat(a, b[..|b| - 1]);
    }
  }

  lemma {:induction false} InkTrimStart(s: string)
    ensures Ink(TrimStart(s)) == Ink(s)
  {
    if s != "" && IsSpace(s[0]) {
      InkTrimStart(s[1..]);
      assert s == [s[0]] + s[1..];
      InkConcat([s[0]], s[1..]);
      assert [s[0]][..0] == "";
    }
  }

  lemma {:induction false} InkTrim(s: string)
    ensures Ink(Trim(s)) == Ink(s)
  {
    InkTrimStart(s);
    InkTrimEnd(TrimStart(s));
  }

  lemma {:induction false} InkTrimEnd(s: string)
    ensures Ink(TrimEnd(s)) == Ink(s)
  {
    if s != "" && IsSpace(s[|s| - 1]) {
      InkTrimEnd(s[..|s| - 1]);
    }
  }

  lemma {:induction false} InkOfBlocks(paragraphs: seq<string>)
    ensures Ink(Concat(Blocks(paragraphs))) == Ink(Concat(paragraphs))
  {
    if paragraphs != [] {
      var n := |paragraphs| - 1;
      var last := Trim(paragraphs[n]);
      InkOfBlocks(paragraphs[..n]);
      InkTrim(paragraphs[n]);
      InkConcat(Concat(paragraphs[..n]), paragraphs[n]);
      if last != "" {
        ConcatAppend(Blocks(paragraphs[..n]), last);
        InkConcat(Concat(Blocks(paragraphs[..n])), last);
      } else {
        assert Blocks(paragraphs) == Blocks(paragraphs[..n]);
      }
    }
  }

  lemma InkOfBreak()
    ensures Ink(BREAK) == ""
  {
    assert BREAK[..1] == "\n" && BREAK[..1][..0] == "";
  }

  lemma SplitAt(t: string, j: nat)
    requires j + 2 <= |t| && t[j..j + 2] == BREAK
    ensures t[..j] + BREAK + t[j + 2..] == t
  {
  }

  lemma InkAcross(a: string, blank: string, b: string)
    requires Ink(blank) == ""
    ensures Ink(a + blank + b) == Ink(a) + Ink(b)
  {
    InkConcat(a + blank, b);
    InkConcat(a, blank);
    assert Ink(a) + "" == Ink(a);
  }

  lemma {:induction false} InkOfParagraphs(t: string)
    ensures Ink(Concat(Paragraphs(t))) == Ink(t)
    decreases |t|
  {
    match FindBreak(t, 0) {
      case None =>
        ConcatOne(t);
      case Some(j) =>
        var head, rest := t[..j], Paragraphs(t[j + 2..]);
        InkOfParagraphs(t[j + 2..]);
        ConcatConcat([head], rest);
        ConcatOne(head);
        InkConcat(head, Concat(rest));
        InkOfBreak();
        InkAcross(head, BREAK, t[j + 2..]);
        SplitAt(t, j);
    }
  }

  /** Every block so far is in a finished chunk, or still whole in the current one. */
  ghost predicate KeepsBlocks(blocks: seq<string>, chunks: seq<string>, current: string, maxChars: nat, overlap: nat) {
    forall b :: b in blocks ==>
      b != "" && (Kept(b, chunks, maxChars, overlap) || (|b| <= maxChars && Contains(current, b)))
  }

  ghost predicate SameInk(blocks: seq<string>, chunks: seq<string>, current: string) {
    Ink(Concat(chunks)) + Ink(current) == Ink(Concat(blocks))
  }

  /** No chunk is longer than this. */
  function Roof(maxChars: nat, overlap: nat): nat {
    if overlap == 0 then maxChars else maxChars + overlap + 2
  }

  ghost predicate BelowRoof(chunks: seq<string>, maxChars: nat, overlap: nat) {
    forall c :: c in chunks ==> |c| <= Roof(maxChars, overlap)
  }

  /** What the paragraph loop has done with the blocks seen so far. */
  ghost predicate Packed(blocks: seq<string>, chunks: seq<string>, current: string, maxChars: nat, overlap: nat) {
    && KeepsBlocks(blocks, chunks, current, maxChars, overlap)
    && (overlap == 0 ==> SameInk(blocks, chunks, current))
    && BelowRoof(chunks, maxChars, overlap) && |current| <= Roof(maxChars, overlap)
  }

  lemma NothingPending(blocks: seq<string>, chunks: seq<string>, b: string, maxChars: nat, overlap: nat)
    requires KeepsBlocks(blocks, chunks, "", maxChars, overlap) && b in blocks
    ensures Kept(b, chunks, maxChars, overlap)
  {
  }

  lemma FlushKeepsBlocks(blocks: seq<string>, chunks: seq<string>, current: string, rest: string, maxChars: nat, overlap: nat)
    requires KeepsBlocks(blocks, chunks, current, maxChars, overlap)
    ensures KeepsBlocks(blocks, chunks + [current], rest, maxChars, overlap)
  {
    forall b | b in blocks ensures Kept(b, chunks + [current], maxChars, overlap) {
      if Kept(b, chunks, maxChars, overlap) {
        KeptAppend(b, chunks, [current], maxChars, overlap);
      } else {
        assert current in chunks + [current];
      }
    }
  }

  lemma FlushSameInk(blocks: seq<string>, chunks: seq<string>, current: string)
    requires SameInk(blocks, chunks, current)
    ensures SameInk(blocks, chunks + [current], "")
  {
    ConcatAppend(chunks, current);
    InkConcat(Concat(chunks), current);
  }

  lemma FlushPacked(blocks: seq<string>, chunks: seq<string>, current: string, rest: string, maxChars: nat, overlap: nat)
    requires Packed(blocks, chunks, current, maxChars, overlap) && |rest| <= overlap
    ensures Packed(blocks, chunks + [current], rest, maxChars, overlap)
  {
    FlushKeepsBlocks(blocks, chunks, current, rest, maxChars, overlap);
    if overlap == 0 {
      FlushSameInk(blocks, chunks, current);
    }
  }

  lemma LongBlockKept(blocks: seq<string>, chunks: seq<string>, block: string, pieces: seq<string>,
                      ws: seq<Window>, maxChars: nat, overlap: nat)
    requires KeepsBlocks(blocks, chunks, "", maxChars, overlap) && |block| > maxChars
    requires Tiles(block, ws, pieces, overlap)
    ensures KeepsBlocks(blocks + [block], chunks + pieces, "", maxChars, overlap)
  {
    var chunks' := chunks + pieces;
    assert chunks'[|chunks|..|chunks'|] == pieces;
    assert Kept(block, chunks', maxChars, overlap);
    forall b | b in blocks ensures Kept(b, chunks', maxChars, overlap) {
      NothingPending(blocks, chunks, b, maxChars, overlap);
      KeptAppend(b, chunks, pieces, maxChars, overlap);
    }
  }

  lemma LongBlockInk(blocks: seq<string>, chunks: seq<string>, block: string, pieces: seq<string>)
    requires SameInk(blocks, chunks, "") && Concat(pieces) == block
    ensures SameInk(blocks + [block], chunks + pieces, "")
  {
    ConcatConcat(chunks, pieces);
    InkConcat(Concat(chunks), block);
    ConcatAppend(blocks, block);
    InkConcat(Concat(blocks), block);
  }

  lemma LongBlockPacked(blocks: seq<string>, chunks: seq<string>, block: string, pieces: seq<string>,
                        ws: seq<Window>, maxChars: nat, overlap: nat)
    requires Packed(blocks, chunks, "", maxChars, overlap) && |block| > maxChars
    requires Tiles(block, ws, pieces, overlap) && AllWithin(pieces, maxChars)
    requires overlap == 0 ==> Concat(pieces) == block
    ensures Packed(blocks + [block], chunks + pieces, "", maxChars, overlap)
  {
    LongBlockKept(blocks, chunks, block, pieces, ws, maxChars, overlap);
    if overlap == 0 {
      LongBlockInk(blocks, chunks, block, pieces);
    }
  }

  lemma ShortBlockKept(blocks: seq<string>, chunks: seq<string>, current: string, block: string, glue: string,
                       maxChars: nat, overlap: nat)
    requires KeepsBlocks(blocks, chunks, current, maxChars, overlap) && 0 < |block| <= maxChars
    ensures KeepsBlocks(blocks + [block], chunks, current + glue + block, maxChars, overlap)
  {
    var current' := current + glue + block;
    EndsWithIt(current + glue, block);
    forall b | b in blocks
      ensures b != "" && (Kept(b, chunks, maxChars, overlap) || (|b| <= maxChars && Contains(current', b)))
    {
      if !Kept(b, chunks, maxChars, overlap) {
        ContainsAppend(current, glue + block, b);
        assert current + (glue + block) == current';
      }
    }
  }

  lemma ShortBlockInk(blocks: seq<string>, chunks: seq<string>, current: string, block: string, glue: string)
    requires SameInk(blocks, chunks, current) && Ink(glue) == ""
    ensures SameInk(blocks + [block], chunks, current + glue + block)
  {
    InkConcat(current + glue, block);
    InkConcat(current, glue);
    ConcatAppend(blocks, block);
    InkConcat(Concat(blocks), block);
  }

  lemma ShortBlockPacked(blocks: seq<string>, chunks: seq<string>, current: string, block: string, glue: string,
                         maxChars: nat, overlap: nat)
    requires Packed(blocks, chunks, current, maxChars, overlap) && 0 < |block| <= maxChars
    requires glue == "" || glue == BREAK
    requires |current + glue + block| <= Roof(maxChars, overlap)
    ensures Packed(blocks + [block], chunks, current + glue + block, maxChars, overlap)
  {
    ShortBlockKept(blocks, chunks, current, block, glue, maxChars, overlap);
    InkOfBreak();
    if overlap == 0 {
      ShortBlockInk(blocks, chunks, current, block, glue);
    }
  }

  /** Finishes the current chunk and starts the next one with its tail. */
  method Flush(ghost blocks: seq<string>, chunks: seq<string>, currentChunk: string, maxChars: nat, overlap: nat)
    returns (chunks': seq<string>, currentChunk': string)
    requires Packed(blocks, chunks, currentChunk, maxChars, overlap)
    ensures Packed(blocks, chunks', currentChunk', maxChars, overlap)
    ensures chunks' == chunks + [currentChunk] && currentChunk' == Tail(currentChunk, overlap)
  {
    chunks' := chunks + [currentChunk];
    if overlap > 0 && |currentChunk| > overlap {
      currentChunk' := currentChunk[|currentChunk| - overlap..];
    } else {
      currentChunk' := "";
    }
    FlushPacked(blocks, chunks, currentChunk, currentChunk', maxChars, overlap);
  }

  /** Adds one block to what has been packed. */
  method AddBlock(ghost blocks: seq<string>, chunks: seq<string>, currentChunk: string, paragraph: string,
                  maxChars: nat, overlap: nat)
    returns (chunks': seq<string>, currentChunk': string)
    requires Packed(blocks, chunks, currentChunk, maxChars, overlap) && paragraph != ""
    requires |paragraph| > maxChars ==> Splittable(paragraph, maxChars, overlap)
    requires currentChunk == "" || |currentChunk| <= overlap || |currentChunk| + |paragraph| + 2 <= maxChars
    ensures Packed(blocks + [paragraph], chunks', currentChunk', maxChars, overlap)
    ensures Work(chunks', currentChunk') == Place(Work(chunks, currentChunk), paragraph, maxChars, overlap)
  {
    chunks', currentChunk' := chunks, currentChunk;
    if |paragraph| > maxChars {
      if currentChunk' != "" {
        FlushPacked(blocks, chunks', currentChunk', "", maxChars, overlap);
        chunks' := chunks' + [currentChunk'];
        currentChunk' := "";
      }
      ghost var ws;
      var sentenceChunks;
      sentenceChunks, ws := SplitLongText(paragraph, maxChars, overlap);
      LongBlockPacked(blocks, chunks', paragraph, sentenceChunks, ws, maxChars, overlap);
      chunks' := chunks' + sentenceChunks;
    } else {
      ghost var glue := if currentChunk == "" then "" else BREAK;
      ShortBlockPacked(blocks, chunks, currentChunk, paragraph, glue, maxChars, overlap);
      if currentChunk' != "" {
        currentChunk' := currentChunk' + BREAK;
      }
      currentChunk' := currentChunk' + paragraph;
      assert currentChunk' == currentChunk + glue + paragraph;
    }
  }

  /** One turn of the paragraph loop. */
  method PackParagraph(ghost blocks: seq<string>, chunks: seq<string>, currentChunk: string, rawParagraph: string,
                       maxChars: nat, overlap: nat)
    returns (chunks': seq<string>, currentChunk': string)
    requires Packed(blocks, chunks, currentChunk, maxChars, overlap)
    requires |Trim(rawParagraph)| > maxChars ==> Splittable(Trim(rawParagraph), maxChars, overlap)
    requires Work(chunks, currentChunk) == PackedBlocks(blocks, maxChars, overlap)
    ensures Packed(blocks + OneBlock(rawParagraph), chunks', currentChunk', maxChars, overlap)
    ensures Work(chunks', currentChunk') == PackedBlocks(blocks + OneBlock(rawParagraph), maxChars, overlap)
  {
    chunks', currentChunk' := chunks, currentChunk;
    var paragraph := Trim(rawParagraph);
    if paragraph == "" {
      assert blocks + OneBlock(rawParagraph) == blocks;
      return;
    }
    assert (blocks + [paragraph])[..|blocks|] == blocks;
    if currentChunk' != "" && |currentChunk'| + |paragraph| + 2 > maxChars {
      chunks', currentChunk' := Flush(blocks, chunks', currentChunk', maxChars, overlap);
    }
    chunks', currentChunk' := AddBlock(blocks, chunks', currentChunk', paragraph, maxChars, overlap);
  }

  /** The paragraph loop. */
  method PackParagraphs(paragraphs: seq<string>, maxChars: nat, overlap: nat)
    returns (chunks: seq<string>, currentChunk: string)
    requires forall p :: p in paragraphs && |Trim(p)| > maxChars ==> Splittable(Trim(p), maxChars, overlap)
    ensures Packed(Blocks(paragraphs), chunks, currentChunk, maxChars, overlap)
    ensures Work(chunks, currentChunk) == PackedBlocks(Blocks(paragraphs), maxChars, overlap)
  {
    chunks, currentChunk := [], "";
    for i := 0 to |paragraphs|
      invariant Packed(Blocks(paragraphs[..i]), chunks, currentChunk, maxChars, overlap)
      invariant Work(chunks, currentChunk) == PackedBlocks(Blocks(paragraphs[..i]), maxChars, overlap)
    {
      BlocksOneMore(paragraphs, i);
      assert paragraphs[i] in paragraphs;
      chunks, currentChunk := PackParagraph(Blocks(paragraphs[..i]), chunks, currentChunk, paragraphs[i], maxChars, overlap);
    }
    assert paragraphs[..|paragraphs|] == paragraphs;
  }

  lemma BlocksOneMore(paragraphs: seq<string>, i: nat)
    requires i < |paragraphs|
    ensures Blocks(paragraphs[..i + 1])
            == Blocks(paragraphs[..i]) + OneBlock(paragraphs[i])
  {
    assert paragraphs[..i + 1][..i] == paragraphs[..i];
  }

  lemma AllKept(blocks: seq<string>, chunks: seq<string>, maxChars: nat, overlap: nat)
    requires KeepsBlocks(blocks, chunks, "", maxChars, overlap)
    ensures forall b :: b in blocks ==> Kept(b, chunks, maxChars, overlap)
  {
    forall b | b in blocks ensures Kept(b, chunks, maxChars, overlap) {
      NothingPending(blocks, chunks, b, maxChars, overlap);
    }
  }

  lemma NothingMoreInk(text: string, chunks: seq<string>)
    requires SameInk(Blocks(Paragraphs(text)), chunks, "")
    ensures Ink(Concat(chunks)) == Ink(text)
  {
    InkOfBlocks(Paragraphs(text));
    InkOfParagraphs(text);
    assert Ink(Concat(chunks)) + "" == Ink(Concat(chunks));
  }

  /**
   * `chunk_text`: no chunk exceeds the roof; every paragraph is kept whole in
   * a chunk or tiled over consecutive ones; and without overlap the chunks
   * hold exactly the text's non-blank characters, in order.
   */
  method ChunkText(text: string, maxChars: nat, overlap: nat) returns (chunks: seq<string>)
    requires forall p :: p in Paragraphs(text) && |Trim(p)| > maxChars ==> Splittable(Trim(p), maxChars, overlap)
    ensures chunks == if |text| <= maxChars then [text] else Chunks(text, maxChars, overlap)
    ensures BelowRoof(chunks, maxChars, overlap)
    ensures |text| > maxChars ==> forall b :: b in Blocks(Paragraphs(text)) ==> Kept(b, chunks, maxChars, overlap)
    ensures overlap == 0 ==> Ink(Concat(chunks)) == Ink(text)
  {
    if |text| <= maxChars {
      ConcatOne(text);
      return [text];
    }
    ghost var blocks := Blocks(Paragraphs(text));
    var currentChunk;
    chunks, currentChunk := PackParagraphs(Paragraphs(text), maxChars, overlap);
    if currentChunk != "" {
      FlushPacked(blocks, chunks, currentChunk, "", maxChars, overlap);
      chunks := chunks + [currentChunk];
    }
    AllKept(blocks, chunks, maxChars, overlap);
    if overlap == 0 {
      NothingMoreInk(text, chunks);
    }
  }
}
