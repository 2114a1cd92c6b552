/**
 * The exact shape of chunks: where text is taken apart, which parts share a
 * chunk, what a chunk repeats of the one before, and that none could have
 * taken more.
 */
module ChunkShape {
  import opened Prelude
  import opened Chunker

  // ── Taking text apart ─────────────────────────────────────────────────

  predicate BreakAt(s: string, k: nat)
    requires k + 1 < |s|
  {
    s[k] == '\n' && s[k + 1] == '\n'
  }

  predicate NoBreakIn(s: string) {
    forall k :: 0 <= k < |s| - 1 ==> !BreakAt(s, k)
  }

  lemma {:induction false} FirstBreak(t: string, i: nat)
    requires i <= |t|
    ensures var end := match FindBreak(t, i) case Some(j) => j case None => |t| - 1;
            forall k :: i <= k < end ==> !BreakAt(t, k)
    decreases |t| - i
  {
    if i + 2 <= |t| && !BreakAt(t, i) {
      FirstBreak(t, i + 1);
    }
  }

  function Glued(parts: seq<string>, glue: string): string {
    if parts == [] then ""
    else if |parts| == 1 then parts[0]
    else Glued(parts[..|parts| - 1], glue) + glue + parts[|parts| - 1]
  }

  lemma {:induction false} GluedFront(first: string, rest: seq<string>, glue: string)
    requires rest != []
    ensures Glued([first] + rest, glue) == first + glue + Glued(rest, glue)
  {
    var all, n := [first] + rest, |rest| - 1;
    if n == 0 {
      assert all[..1] == [first];
    } else {
      GluedFront(first, rest[..n], glue);
      assert all[..|all| - 1] == [first] + rest[..n];
      assert first + glue + Glued(rest[..n], glue) + glue + rest[n]
             == first + glue + (Glued(rest[..n], glue) + glue + rest[n]);
    }
  }

  /** No paragraph has a blank line inside, and none but the last ends in a line break. */
  ghost predicate BetweenBreaks(ps: seq<string>) {
    && (forall i :: 0 <= i < |ps| ==> NoBreakIn(ps[i]))
    && (forall i :: 0 <= i < |ps| - 1 ==> ps[i] == "" || ps[i][|ps[i]| - 1] != '\n')
  }

  lemma BetweenBreaksCons(head: string, rest: seq<string>)
    requires NoBreakIn(head) && (head == "" || head[|head| - 1] != '\n') && BetweenBreaks(rest)
    ensures BetweenBreaks([head] + rest)
  {
  }

  lemma HeadBeforeBreak(t: string, j: nat)
    requires FindBreak(t, 0) == Some(j)
    ensures NoBreakIn(t[..j]) && (t[..j] == "" || t[..j][j - 1] != '\n')
    ensures t == t[..j] + "\n\n" + t[j + 2..]
  {
    FirstBreak(t, 0);
    assert j > 0 ==> !BreakAt(t, j - 1);
    assert forall k :: 0 <= k < j - 1 ==> BreakAt(t[..j], k) == BreakAt(t, k);
  }

  /**
   * Paragraphs are what stands between blank lines: put together with those
   * they are the text, no paragraph has one inside, and the blank lines are
   * found from the left.
   */
  lemma {:induction false} ParagraphsAre(t: string)
    ensures Paragraphs(t) != [] && Glued(Paragraphs(t), "\n\n") == t && BetweenBreaks(Paragraphs(t))
    decreases |t|
  {
    match FindBreak(t, 0) {
      case None =>
        FirstBreak(t, 0);
      case Some(j) =>
        var head, rest := t[..j], Paragraphs(t[j + 2..]);
        HeadBeforeBreak(t, j);
        ParagraphsAre(t[j + 2..]);
        GluedFront(head, rest, "\n\n");
        BetweenBreaksCons(head, rest);
    }
  }

  lemma {:induction false} FirstStop(t: string, i: nat)
    requires i <= |t|
    ensures var end := match FindStop(t, i) case Some(j) => j case None => |t|;
            forall k :: i <= k < end ==> !EndsSentence(t[k])
    decreases |t| - i
  {
    if i < |t| && !EndsSentence(t[i]) {
      FirstStop(t, i + 1);
    }
  }

  predicate IsStop(c: char) {
    c in {'.', '!', '?'}
  }

  predicate StopsOnlyAtEnd(s: string) {
    forall k :: 0 <= k < |s| - 1 ==> !IsStop(s[k])
  }

  ghost predicate EndInStops(ss: seq<string>) {
    && (forall i :: 0 <= i < |ss| ==> ss[i] != "" && StopsOnlyAtEnd(ss[i]))
    && (forall i :: 0 <= i < |ss| - 1 ==> IsStop(ss[i][|ss[i]| - 1]))
  }

  lemma EndInStopsCons(head: string, rest: seq<string>)
    requires head != "" && StopsOnlyAtEnd(head) && IsStop(head[|head| - 1]) && EndInStops(rest)
    ensures EndInStops([head] + rest)
  {
  }

  lemma HeadUpToStop(t: string, j: nat)
    requires FindStop(t, 0) == Some(j)
    ensures StopsOnlyAtEnd(t[..j + 1])
  {
    FirstStop(t, 0);
  }

  /** A sentence has a full stop, exclamation or question mark at its end only, and all but the last have one there. */
  lemma {:induction false} SentencesAre(t: string)
    ensures Concat(Sentences(t)) == t && EndInStops(Sentences(t))
    decreases |t|
  {
    SentencesMakeText(t);
    match FindStop(t, 0) {
      case None =>
        FirstStop(t, 0);
      case Some(j) =>
        SentencesAre(t[j + 1..]);
        HeadUpToStop(t, j);
        EndInStopsCons(t[..j + 1], Sentences(t[j + 1..]));
    }
  }

  predicate AllBlank(s: string) {
    forall c :: c in s ==> c in {' ', '\t', '\n', '\r', '\U{0B}', '\U{0C}'}
  }

  lemma {:induction false} TrimmedStart(s: string) returns (before: string)
    ensures AllBlank(before) && s == before + TrimStart(s)
    ensures TrimStart(s) != "" ==> !IsSpace(TrimStart(s)[0])
  {
    if s != "" && IsSpace(s[0]) {
      before := TrimmedStart(s[1..]);
      before := [s[0]] + before;
    } else {
      before := "";
    }
  }

  lemma {:induction false} TrimmedEnd(s: string) returns (after: string)
    ensures AllBlank(after) && s == TrimEnd(s) + after
    ensures TrimEnd(s) != "" ==> !IsSpace(TrimEnd(s)[|TrimEnd(s)| - 1]) && TrimEnd(s)[0] == s[0]
  {
    if s != "" && IsSpace(s[|s| - 1]) {
      after := TrimmedEnd(s[..|s| - 1]);
      after := after + [s[|s| - 1]];
    } else {
      after := "";
    }
  }

  /** Trimming takes white space off both ends, and all of it. */
  lemma TrimIs(s: string)
    ensures exists before, after :: AllBlank(before) && AllBlank(after) && s == before + Trim(s) + after
    ensures Trim(s) != "" ==> !AllBlank([Trim(s)[0]]) && !AllBlank([Trim(s)[|Trim(s)| - 1]])
  {
    var before := TrimmedStart(s);
    var after := TrimmedEnd(TrimStart(s));
    assert s == before + Trim(s) + after;
    if Trim(s) != "" {
      var t := Trim(s);
      assert !IsSpace(t[0]) && !IsSpace(t[|t| - 1]);
      assert t[0] in [t[0]] && t[|t| - 1] in [t[|t| - 1]];
    }
  }

  lemma BlocksLast(front: seq<string>, last: string, all: seq<string>)
    requires all == front + [last]
    ensures Blocks(all) == Blocks(front) + OneBlock(last)
  {
    assert all[..|all| - 1] == front;
  }

  lemma Regrouped(a: seq<string>, b: seq<string>, c: seq<string>)
    ensures a + b + c == a + (b + c)
  {
  }

  /** The blocks of a text come in the order of its paragraphs, */
  lemma {:induction false} BlocksInOrder(some: seq<string>, more: seq<string>)
    ensures Blocks(some + more) == Blocks(some) + Blocks(more)
  {
    if more == [] {
      assert some + more == some;
    } else {
      var front, last := more[..|more| - 1], more[|more| - 1];
      BlocksInOrder(some, front);
      Regrouped(some, front, [last]);
      BlocksLast(front, last, more);
      BlocksLast(some + front, last, some + more);
      Regrouped(Blocks(some), Blocks(front), OneBlock(last));
    }
  }

  /** and a paragraph is one block, trimmed, unless nothing is left of it. */
  lemma OneBlockEach(paragraph: string)
    ensures Blocks([paragraph]) == if Trim(paragraph) == "" then [] else [Trim(paragraph)]
  {
    assert [paragraph][..0] == [];
  }

  /** Every piece of a forced cut but the last is as long as allowed. */
  lemma {:induction false} PiecesAreFull(chunk: string, start: nat, maxChars: nat, overlap: nat)
    requires overlap < maxChars && start <= |chunk|
    ensures var ps := Pieces(chunk, start, maxChars, overlap);
            && ps != [] && (start < |chunk| ==> ps[|ps| - 1] != "")
            && forall i :: 0 <= i < |ps| - 1 ==> |ps[i]| == maxChars
    decreases |chunk| - start
  {
    if start + maxChars < |chunk| {
      PiecesAreFull(chunk, start + maxChars - overlap, maxChars, overlap);
    }
  }

  // ── Packing items ─────────────────────────────────────────────────────

  function Flat(groups: seq<seq<string>>): seq<string> {
    if groups == [] then [] else Flat(groups[..|groups| - 1]) + groups[|groups| - 1]
  }

  lemma FlatAppend(groups: seq<seq<string>>, group: seq<string>)
    ensures Flat(groups + [group]) == Flat(groups) + group
  {
    assert (groups + [group])[..|groups|] == groups;
  }

  /** The last `overlap` characters of a chunk that has more. */
  function Repeated(chunk: string, overlap: nat): string {
    if overlap < |chunk| then chunk[|chunk| - overlap..] else ""
  }

  /** What stands in a chunk before its own items: what it repeats of the one before, and the glue. */
  function Lead(chunks: seq<string>, i: nat, glue: string, overlap: nat): string
    requires i < |chunks|
  {
    if i == 0 || Repeated(chunks[i - 1], overlap) == "" then "" else Repeated(chunks[i - 1], overlap) + glue
  }

  ghost predicate RightChunk(chunks: seq<string>, groups: seq<seq<string>>, i: nat, glue: string, maxChars: nat, overlap: nat)
    requires i < |chunks| && |groups| == |chunks|
  {
    && groups[i] != []
    && chunks[i] == Lead(chunks, i, glue, overlap) + Glued(groups[i], glue)
    && (|groups[i]| > 1 ==> |chunks[i]| <= maxChars)
    && (i > 0 ==> |chunks[i - 1]| + |glue| + |groups[i][0]| > maxChars)
  }

  /**
   * The items go into the chunks in order, each once; a chunk is what it
   * repeats of the one before and then its items; it exceeds the limit only
   * with a single item; and it ends only where the next item would not fit.
   */
  ghost predicate PackedInto(items: seq<string>, chunks: seq<string>, groups: seq<seq<string>>,
                             glue: string, maxChars: nat, overlap: nat) {
    && |groups| == |chunks| && Flat(groups) == items
    && forall i :: 0 <= i < |chunks| ==> RightChunk(chunks, groups, i, glue, maxChars, overlap)
  }

  function PackItem(p: Work, item: string, glue: string, maxChars: nat, overlap: nat): Work {
    if p.current == "" then Work(p.chunks, item)
    else if |p.current| + |item| + |glue| <= maxChars then Work(p.chunks, p.current + glue + item)
    else
      var tail := Repeated(p.current, overlap);
      Work(p.chunks + [p.current], if tail == "" then item else tail + glue + item)
  }

  lemma RightPrefix(chunks: seq<string>, groups: seq<seq<string>>, chunks': seq<string>, groups': seq<seq<string>>,
                    i: nat, glue: string, maxChars: nat, overlap: nat)
    requires |groups| == |chunks| && |groups'| == |chunks'| && i < |chunks| && i < |chunks'|
    requires chunks[..i + 1] == chunks'[..i + 1] && groups[..i + 1] == groups'[..i + 1]
    requires RightChunk(chunks, groups, i, glue, maxChars, overlap)
    ensures RightChunk(chunks', groups', i, glue, maxChars, overlap)
  {
    assert chunks[i] == chunks[..i + 1][i] && chunks'[i] == chunks'[..i + 1][i];
    assert groups[i] == groups[..i + 1][i] && groups'[i] == groups'[..i + 1][i];
    if i > 0 {
      assert chunks[i - 1] == chunks[..i + 1][i - 1] && chunks'[i - 1] == chunks'[..i + 1][i - 1];
    }
  }

  lemma ItemJoins(items: seq<string>, done: seq<string>, current: string, groups: seq<seq<string>>, item: string,
                  glue: string, maxChars: nat, overlap: nat) returns (groups': seq<seq<string>>)
    requires PackedInto(items, done + [current], groups, glue, maxChars, overlap)
    requires |current| + |item| + |glue| <= maxChars
    ensures PackedInto(items + [item], done + [current + glue + item], groups', glue, maxChars, overlap)
  {
    var n := |done|;
    var chunks, chunks' := done + [current], done + [current + glue + item];
    groups' := groups[..n] + [groups[n] + [item]];
    assert groups == groups[..n] + [groups[n]];
    FlatAppend(groups[..n], groups[n]);
    FlatAppend(groups[..n], groups[n] + [item]);
    assert RightChunk(chunks, groups, n, glue, maxChars, overlap);
    assert (groups[n] + [item])[..|groups[n]|] == groups[n];
    assert Lead(chunks', n, glue, overlap) == Lead(chunks, n, glue, overlap);
    var lead, g := Lead(chunks, n, glue, overlap), Glued(groups[n], glue);
    assert current == lead + g;
    assert lead + g + glue + item == lead + (g + glue + item);
    forall i | 0 <= i < |chunks'| ensures RightChunk(chunks', groups', i, glue, maxChars, overlap) {
      if i < n {
        assert RightChunk(chunks, groups, i, glue, maxChars, overlap);
        RightPrefix(chunks, groups, chunks', groups', i, glue, maxChars, overlap);
      }
    }
  }

  lemma ItemStarts(items: seq<string>, chunks: seq<string>, groups: seq<seq<string>>, item: string, begun: string,
                   glue: string, maxChars: nat, overlap: nat)
    requires PackedInto(items, chunks, groups, glue, maxChars, overlap) && chunks != []
    requires |chunks[|chunks| - 1]| + |item| + |glue| > maxChars
    requires var tail := Repeated(chunks[|chunks| - 1], overlap); begun == if tail == "" then item else tail + glue + item
    ensures PackedInto(items + [item], chunks + [begun], groups + [[item]], glue, maxChars, overlap)
  {
    var n, chunks', groups' := |chunks|, chunks + [begun], groups + [[item]];
    FlatAppend(groups, [item]);
    forall i | 0 <= i < |chunks'| ensures RightChunk(chunks', groups', i, glue, maxChars, overlap) {
      if i < n {
        assert RightChunk(chunks, groups, i, glue, maxChars, overlap);
        RightPrefix(chunks, groups, chunks', groups', i, glue, maxChars, overlap);
      } else {
        assert chunks'[n - 1] == chunks[n - 1];
      }
    }
  }

  lemma FirstItem(item: string, glue: string, maxChars: nat, overlap: nat)
    ensures PackedInto([item], [item], [[item]], glue, maxChars, overlap)
  {
    assert [[item]] == [] + [[item]];
    FlatAppend([], [item]);
  }

  /** One item more, packed as `PackItem` says. */
  lemma OneMoreItem(items: seq<string>, p: Work, groups: seq<seq<string>>, item: string,
                    glue: string, maxChars: nat, overlap: nat) returns (groups': seq<seq<string>>)
    requires item != ""
    requires if items == [] then p == NOTHING
             else p.current != "" && PackedInto(items, p.chunks + [p.current], groups, glue, maxChars, overlap)
    ensures var p' := PackItem(p, item, glue, maxChars, overlap);
            p'.current != "" && PackedInto(items + [item], p'.chunks + [p'.current], groups', glue, maxChars, overlap)
  {
    if items == [] {
      FirstItem(item, glue, maxChars, overlap);
      groups' := [[item]];
      assert [] + [item] == [item];
    } else if |p.current| + |item| + |glue| <= maxChars {
      groups' := ItemJoins(items, p.chunks, p.current, groups, item, glue, maxChars, overlap);
    } else {
      var p' := PackItem(p, item, glue, maxChars, overlap);
      ItemStarts(items, p.chunks + [p.current], groups, item, p'.current, glue, maxChars, overlap);
      groups' := groups + [[item]];
    }
  }

  // ── Sentences and paragraphs ──────────────────────────────────────────

  lemma SentenceIsItem(p: Work, sentence: string, maxChars: nat, overlap: nat)
    requires sentence != ""
    ensures PackSentence(p, sentence, maxChars, overlap) == PackItem(p, sentence, "", maxChars, overlap)
  {
    assert p.current + "" + sentence == p.current + sentence;
    var tail := Repeated(p.current, overlap);
    assert tail + "" + sentence == tail + sentence && "" + sentence == sentence;
    assert overlap == 0 ==> tail == "";
  }

  lemma {:induction false} SentencesArePacked(sentences: seq<string>, maxChars: nat, overlap: nat)
    returns (groups: seq<seq<string>>)
    requires forall s :: s in sentences ==> s != ""
    ensures var p := PackedSentences(sentences, maxChars, overlap);
            if sentences == [] then p == NOTHING
            else p.current != "" && PackedInto(sentences, p.chunks + [p.current], groups, "", maxChars, overlap)
  {
    groups := [];
    if sentences != [] {
      var n := |sentences| - 1;
      assert forall s :: s in sentences[..n] ==> s in sentences;
      groups := SentencesArePacked(sentences[..n], maxChars, overlap);
      assert sentences == sentences[..n] + [sentences[n]];
      assert sentences[n] in sentences;
      var p := PackedSentences(sentences[..n], maxChars, overlap);
      SentenceIsItem(p, sentences[n], maxChars, overlap);
      groups := OneMoreItem(sentences[..n], p, groups, sentences[n], "", maxChars, overlap);
    }
  }

  /** `split_long_text` packs whole sentences as tightly as their order and the limit allow, before any forced cut. */
  lemma LongTextIsPacked(text: string, maxChars: nat, overlap: nat) returns (groups: seq<seq<string>>)
    ensures PackedInto(Sentences(text), Closed(PackedSentences(Sentences(text), maxChars, overlap)), groups, "", maxChars, overlap)
  {
    SentencesMakeText(text);
    groups := SentencesArePacked(Sentences(text), maxChars, overlap);
    if Sentences(text) == [] {
      groups := [];
    }
  }

  lemma BlockIsItem(p: Work, block: string, maxChars: nat, overlap: nat)
    requires 0 < |block| <= maxChars
    ensures Place(MakeRoom(p, block, maxChars, overlap), block, maxChars, overlap)
            == PackItem(p, block, "\n\n", maxChars, overlap)
  {
    assert "" + "" + block == block;
    var tail := Repeated(p.current, overlap);
    assert overlap == 0 ==> tail == "";
  }

  lemma {:induction false} BlocksArePacked(blocks: seq<string>, maxChars: nat, overlap: nat)
    returns (groups: seq<seq<string>>)
    requires forall b :: b in blocks ==> 0 < |b| <= maxChars
    ensures var p := PackedBlocks(blocks, maxChars, overlap);
            if blocks == [] then p == NOTHING
            else p.current != "" && PackedInto(blocks, p.chunks + [p.current], groups, "\n\n", maxChars, overlap)
  {
    groups := [];
    if blocks != [] {
      var n := |blocks| - 1;
      groups := BlocksArePacked(blocks[..n], maxChars, overlap);
      assert blocks == blocks[..n] + [blocks[n]];
      assert blocks[n] in blocks;
      var p := PackedBlocks(blocks[..n], maxChars, overlap);
      BlockIsItem(p, blocks[n], maxChars, overlap);
      groups := OneMoreItem(blocks[..n], p, groups, blocks[n], "\n\n", maxChars, overlap);
    }
  }

  /** `chunk_text` packs paragraphs that are within the limit in the same way, with blank lines between them. */
  lemma ParagraphsArePacked(blocks: seq<string>, maxChars: nat, overlap: nat) returns (groups: seq<seq<string>>)
    requires forall b :: b in blocks ==> 0 < |b| <= maxChars
    ensures PackedInto(blocks, Closed(PackedBlocks(blocks, maxChars, overlap)), groups, "\n\n", maxChars, overlap)
  {
    groups := BlocksArePacked(blocks, maxChars, overlap);
    if blocks == [] {
      groups := [];
    }
  }

  // ── Paragraphs beyond the limit ───────────────────────────────────────

  lemma MakeRoomAfter(before: seq<string>, p: Work, block: string, maxChars: nat, overlap: nat)
    ensures var q := MakeRoom(p, block, maxChars, overlap);
            MakeRoom(Work(before + p.chunks, p.current), block, maxChars, overlap) == Work(before + q.chunks, q.current)
  {
    assert before + p.chunks + [p.current] == before + (p.chunks + [p.current]);
  }

  lemma ClosedAfter(before: seq<string>, q: Work)
    ensures Closed(Work(before + q.chunks, q.current)) == before + Closed(q)
  {
  }

  lemma PlaceAfter(before: seq<string>, p: Work, block: string, maxChars: nat, overlap: nat)
    ensures var q := Place(p, block, maxChars, overlap);
            Place(Work(before + p.chunks, p.current), block, maxChars, overlap) == Work(before + q.chunks, q.current)
  {
    ClosedAfter(before, p);
    assert before + Closed(p) + SplitText(block, maxChars, overlap) == before + (Closed(p) + SplitText(block, maxChars, overlap));
  }

  lemma PackAfter(before: seq<string>, p: Work, block: string, maxChars: nat, overlap: nat)
    ensures PackBlock(maxChars, overlap)(Shifted(before, p), block)
            == Shifted(before, PackBlock(maxChars, overlap)(p, block))
  {
    MakeRoomAfter(before, p, block, maxChars, overlap);
    PlaceAfter(before, MakeRoom(p, block, maxChars, overlap), block, maxChars, overlap);
  }

  type Packer = (Work, string) -> Work

  function PackBlock(maxChars: nat, overlap: nat): Packer {
    (p: Work, block: string) => Place(MakeRoom(p, block, maxChars, overlap), block, maxChars, overlap)
  }

  /** The same work after other chunks. */
  function Shifted(before: seq<string>, p: Work): Work {
    Work(before + p.chunks, p.current)
  }

  function PackAll(pack: Packer, p: Work, items: seq<string>): Work {
    if items == [] then p else pack(PackAll(pack, p, items[..|items| - 1]), items[|items| - 1])
  }

  lemma {:induction false} PackAllConcat(pack: Packer, p: Work, a: seq<string>, b: seq<string>)
    ensures PackAll(pack, p, a + b) == PackAll(pack, PackAll(pack, p, a), b)
  {
    if b == [] {
      assert a + b == a;
    } else {
      PackAllConcat(pack, p, a, b[..|b| - 1]);
      assert (a + b)[..|a + b| - 1] == a + b[..|b| - 1];
    }
  }

  lemma {:induction false} PackAllShifted(pack: Packer, before: seq<string>, p: Work, items: seq<string>)
    requires forall q, item :: pack(Shifted(before, q), item) == Shifted(before, pack(q, item))
    ensures PackAll(pack, Shifted(before, p), items) == Shifted(before, PackAll(pack, p, items))
  {
    if items != [] {
      PackAllShifted(pack, before, p, items[..|items| - 1]);
    }
  }

  lemma {:induction false} PackedIsAll(blocks: seq<string>, maxChars: nat, overlap: nat)
    ensures PackedBlocks(blocks, maxChars, overlap) == PackAll(PackBlock(maxChars, overlap), NOTHING, blocks)
  {
    if blocks != [] {
      PackedIsAll(blocks[..|blocks| - 1], maxChars, overlap);
    }
  }

  /** After work that is closed, what follows is packed as if it stood alone. */
  lemma PackedAfter(first: seq<string>, later: seq<string>, maxChars: nat, overlap: nat)
    requires PackedBlocks(first, maxChars, overlap).current == ""
    ensures PackedBlocks(first + later, maxChars, overlap)
            == Shifted(PackedBlocks(first, maxChars, overlap).chunks, PackedBlocks(later, maxChars, overlap))
  {
    var pack, before := PackBlock(maxChars, overlap), PackedBlocks(first, maxChars, overlap).chunks;
    PackedIsAll(first, maxChars, overlap);
    PackedIsAll(later, maxChars, overlap);
    PackedIsAll(first + later, maxChars, overlap);
    PackAllConcat(pack, NOTHING, first, later);
    assert Shifted(before, NOTHING) == PackedBlocks(first, maxChars, overlap);
    forall q, item ensures pack(Shifted(before, q), item) == Shifted(before, pack(q, item)) {
      PackAfter(before, q, item, maxChars, overlap);
    }
    PackAllShifted(pack, before, NOTHING, later);
  }

  /** What is repeated of the last chunk before a long paragraph stands as a chunk of its own. */
  function Leftover(current: string, overlap: nat): seq<string> {
    if Repeated(current, overlap) == "" then [] else [Repeated(current, overlap)]
  }

  lemma LongCloses(first: seq<string>, long: string, maxChars: nat, overlap: nat)
    requires |long| > maxChars
    ensures var p := PackedBlocks(first, maxChars, overlap);
            PackedBlocks(first + [long], maxChars, overlap)
            == Work(Closed(p) + Leftover(p.current, overlap) + SplitText(long, maxChars, overlap), "")
  {
    var p, upTo := PackedBlocks(first, maxChars, overlap), first + [long];
    assert upTo[..|upTo| - 1] == first;
    var made := MakeRoom(p, long, maxChars, overlap);
    assert overlap == 0 ==> Repeated(p.current, overlap) == "";
    assert Closed(made) == Closed(p) + Leftover(p.current, overlap);
  }

  /**
   * A paragraph beyond the limit parts the text: before it, the chunks of what
   * comes before and what is repeated of the last of them; then its own
   * chunks; then those of what comes after, as if that stood alone.
   */
  lemma LongParagraphParts(first: seq<string>, long: string, later: seq<string>, maxChars: nat, overlap: nat)
    requires |long| > maxChars
    ensures var p, q := PackedBlocks(first, maxChars, overlap), PackedBlocks(later, maxChars, overlap);
            Closed(PackedBlocks(first + [long] + later, maxChars, overlap))
            == Closed(p) + Leftover(p.current, overlap) + SplitText(long, maxChars, overlap) + Closed(q)
  {
    LongCloses(first, long, maxChars, overlap);
    PackedAfter(first + [long], later, maxChars, overlap);
    ClosedAfter(PackedBlocks(first + [long], maxChars, overlap).chunks, PackedBlocks(later, maxChars, overlap));
  }
}
