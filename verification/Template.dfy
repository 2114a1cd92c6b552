/**
 * `substitute_template`: the `{{trigger.field}}` syntax as the engine searches
 * for it, shown to obey the laws of rescanning substitution, and the recursion
 * over JSON around it.
 */
module Template {
  import opened Prelude
  import opened Json
  import opened Rewriting

  /** A field of the trigger data as text; `show` is `Display` of a JSON value other than a string. */
  function Rendered(data: Value, field: string, show: Value -> string): string {
    match Get(data, field)
    case None => ""
    case Some(Str(s)) => s
    case Some(v) => show(v)
  }

  const OPEN := "{{trigger."
  const CLOSE := "}}"

  // ── Searching ─────────────────────────────────────────────────────────

  /** The first `n` characters of `pat` stand at `i`. */
  predicate Agrees(s: string, pat: string, i: nat, n: nat)
    requires n <= |pat| && i + n <= |s|
  {
    n == 0 || (s[i + n - 1] == pat[n - 1] && Agrees(s, pat, i, n - 1))
  }

  predicate OccursAt(s: string, pat: string, i: nat) {
    i + |pat| <= |s| && Agrees(s, pat, i, |pat|)
  }

  lemma {:induction false} AgreesIsSlice(s: string, pat: string, i: nat, n: nat)
    requires n <= |pat| && i + n <= |s|
    ensures Agrees(s, pat, i, n) <==> s[i..i + n] == pat[..n]
  {
    if n > 0 {
      AgreesIsSlice(s, pat, i, n - 1);
      assert s[i..i + n] == s[i..i + n - 1] + [s[i + n - 1]];
      assert pat[..n] == pat[..n - 1] + [pat[n - 1]];
    }
  }

  lemma OccurrenceIsSlice(s: string, pat: string, i: nat)
    ensures OccursAt(s, pat, i) <==> i + |pat| <= |s| && s[i..i + |pat|] == pat
  {
    if i + |pat| <= |s| {
      AgreesIsSlice(s, pat, i, |pat|);
      assert pat[..|pat|] == pat;
    }
  }

  /** `s[from..].find(pat)`, as a position in `s`. */
  function Find(s: string, pat: string, from: nat): (r: Option<nat>)
    requires from <= |s|
    ensures r.Some? ==> from <= r.value && r.value + |pat| <= |s|
    decreases |s| - from
  {
    if OccursAt(s, pat, from) then Some(from)
    else if from == |s| then None
    else Find(s, pat, from + 1)
  }

  lemma {:induction false} FindOccurs(s: string, pat: string, from: nat)
    requires from <= |s| && Find(s, pat, from).Some?
    ensures OccursAt(s, pat, Find(s, pat, from).value)
    decreases |s| - from
  {
    if !OccursAt(s, pat, from) {
      FindOccurs(s, pat, from + 1);
    }
  }

  /** It is the first occurrence, and there is none when it finds none. */
  lemma {:induction false} FindIsFirst(s: string, pat: string, from: nat, i: nat)
    requires from <= i <= |s| && OccursAt(s, pat, i)
    ensures Find(s, pat, from).Some? && Find(s, pat, from).value <= i
    decreases |s| - from
  {
    if !OccursAt(s, pat, from) {
      FindIsFirst(s, pat, from + 1, i);
    }
  }

  /** The three texts around an opening at `start` and a closing at `end`. */
  function Carve(s: string, start: nat, open: nat, end: Option<nat>, close: nat): Option<Parts>
    requires start + open <= |s| && (end.Some? ==> start + open <= end.value && end.value + close <= |s|)
  {
    match end
    case None => None
    case Some(e) => Some(Parts(s[..start], s[start + open..e], s[e + close..]))
  }

  /** The first opening, the first closing after it, and the texts they delimit. */
  function SplitAt(s: string, open: string, close: string): Option<Parts> {
    SplitFound(s, Find(s, open, 0), |open|, close)
  }

  function SplitFound(s: string, start: Option<nat>, open: nat, close: string): Option<Parts>
    requires start.Some? ==> start.value + open <= |s|
  {
    match start
    case None => None
    case Some(a) => Carve(s, a, open, Find(s, close, a + open), |close|)
  }

  function Enclosed(open: string, field: string, close: string): string {
    open + field + close
  }

  /** A syntax given by its two delimiters. */
  function Delimited(open: string, close: string): Syntax
    requires open != "" && close != ""
  {
    Syntax(s => SplitAt(s, open, close), f => Enclosed(open, f, close), open[0], close[0])
  }

  /** The syntax of the engine's templates. */
  function Braces(): Syntax {
    Delimited(OPEN, CLOSE)
  }

  // ── The three laws ────────────────────────────────────────────────────

  lemma OccursShifts(p: string, s: string, pat: string, i: nat)
    ensures OccursAt(p + s, pat, |p| + i) <==> OccursAt(s, pat, i)
  {
    OccurrenceIsSlice(p + s, pat, |p| + i);
    OccurrenceIsSlice(s, pat, i);
    if i + |pat| <= |s| {
      assert (p + s)[|p| + i..|p| + i + |pat|] == s[i..i + |pat|];
    }
  }

  function Moved(r: Option<nat>, offset: nat): Option<nat> {
    match r
    case None => None
    case Some(i) => Some(offset + i)
  }

  lemma {:induction false} FindShifts(p: string, s: string, pat: string, from: nat)
    requires from <= |s|
    ensures Find(p + s, pat, |p| + from) == Moved(Find(s, pat, from), |p|)
    decreases |s| - from
  {
    OccursShifts(p, s, pat, from);
    if !OccursAt(s, pat, from) && from < |s| {
      FindShifts(p, s, pat, from + 1);
    }
  }

  lemma WrongFirstCharacter(s: string, pat: string, i: nat)
    requires pat != "" && i < |s| && s[i] != pat[0]
    ensures !OccursAt(s, pat, i)
  {
    OccurrenceIsSlice(s, pat, i);
    assert i + |pat| <= |s| ==> s[i..i + |pat|][0] == s[i];
  }

  /** No occurrence begins inside text without the pattern's first character. */
  lemma {:induction false} FindSkips(p: string, s: string, pat: string, i: nat)
    requires pat != "" && pat[0] !in p && i <= |p|
    ensures Find(p + s, pat, i) == Find(p + s, pat, |p|)
    decreases |p| - i
  {
    if i < |p| {
      assert p[i] in p && (p + s)[i] == p[i];
      WrongFirstCharacter(p + s, pat, i);
      FindSkips(p, s, pat, i + 1);
    }
  }

  lemma FirstShifts(p: string, s: string, pat: string)
    requires pat != "" && pat[0] !in p
    ensures Find(p + s, pat, 0) == Moved(Find(s, pat, 0), |p|)
  {
    FindSkips(p, s, pat, 0);
    FindShifts(p, s, pat, 0);
  }

  lemma CarveShifts(p: string, s: string, start: nat, open: nat, end: Option<nat>, close: nat)
    requires start + open <= |s| && (end.Some? ==> start + open <= end.value && end.value + close <= |s|)
    ensures Carve(p + s, |p| + start, open, Moved(end, |p|), close) == Prefixed(p, Carve(s, start, open, end, close))
  {
    if end.Some? {
      var whole, e := p + s, end.value;
      assert whole[..|p| + start] == p + s[..start];
      assert whole[|p| + start + open..|p| + e] == s[start + open..e];
      assert whole[|p| + e + close..] == s[e + close..];
    }
  }

  lemma SecondShifts(p: string, s: string, close: string, from: nat, from': nat)
    requires from <= |s| && from' == |p| + from
    ensures Find(p + s, close, from') == Moved(Find(s, close, from), |p|)
  {
    FindShifts(p, s, close, from);
  }

  lemma SplitFoundShifts(p: string, s: string, start: Option<nat>, open: nat, close: string)
    requires start.Some? ==> start.value + open <= |s|
    ensures SplitFound(p + s, Moved(start, |p|), open, close) == Prefixed(p, SplitFound(s, start, open, close))
  {
    if start.Some? {
      var from := start.value + open;
      SecondShifts(p, s, close, from, |p| + start.value + open);
      CarveShifts(p, s, start.value, open, Find(s, close, from), |close|);
    }
  }

  lemma SplitShifts(p: string, s: string, open: string, close: string)
    requires open != "" && open[0] !in p
    ensures SplitAt(p + s, open, close) == Prefixed(p, SplitAt(s, open, close))
  {
    FirstShifts(p, s, open);
    SplitFoundShifts(p, s, Find(s, open, 0), |open|, close);
  }

  lemma FoundAtOnce(pat: string, rest: string)
    ensures Find(pat + rest, pat, 0) == Some(0)
  {
    OccurrenceIsSlice(pat + rest, pat, 0);
    assert (pat + rest)[0..|pat|] == pat;
  }

  lemma OwnParts(open: string, f: string, close: string, rest: string)
    ensures var s := open + (f + (close + rest));
            s[..0] == "" && s[|open|..|open| + |f|] == f && s[|open| + |f| + |close|..] == rest
    ensures Enclosed(open, f, close) + rest == open + (f + (close + rest))
  {
  }

  lemma SplitOwn(open: string, f: string, close: string, rest: string)
    requires open != "" && close != "" && close[0] !in f
    ensures SplitAt(Enclosed(open, f, close) + rest, open, close) == Some(Parts("", f, rest))
  {
    var tail := f + (close + rest);
    var s := open + tail;
    OwnParts(open, f, close, rest);
    FoundAtOnce(open, tail);
    FoundAtOnce(close, rest);
    FirstShifts(f, close + rest, close);
    SecondShifts(open, tail, close, 0, |open|);
    CarveOwn(open, f, close, rest);
  }

  lemma CarveOwn(open: string, f: string, close: string, rest: string)
    ensures Carve(open + (f + (close + rest)), 0, |open|, Some(|open| + |f|), |close|) == Some(Parts("", f, rest))
  {
    OwnParts(open, f, close, rest);
  }

  lemma CarveWhole(s: string, open: string, start: nat, close: string, end: nat)
    requires start + |open| <= end && end + |close| <= |s|
    requires s[start..start + |open|] == open && s[end..end + |close|] == close
    ensures var q := Carve(s, start, |open|, Some(end), |close|).value;
            s == q.before + (Enclosed(open, q.field, close) + q.rest)
  {
    var a, b, c := s[..start], s[start + |open|..end], s[end + |close|..];
    assert s == a + (s[start..start + |open|] + b + s[end..end + |close|] + c);
  }

  lemma SplitWhole(s: string, open: string, close: string)
    requires open != "" && SplitAt(s, open, close).Some?
    ensures var q := SplitAt(s, open, close).value;
            s == q.before + (Enclosed(open, q.field, close) + q.rest) && |q.rest| < |s|
  {
    var start := Find(s, open, 0).value;
    var end := Find(s, close, start + |open|).value;
    FindOccurs(s, open, 0);
    FindOccurs(s, close, start + |open|);
    OccurrenceIsSlice(s, open, start);
    OccurrenceIsSlice(s, close, end);
    CarveWhole(s, open, start, close, end);
  }

  /** Searching for delimiters obeys the laws of rescanning substitution. */
  lemma DelimitedIsLawful(open: string, close: string)
    requires open != "" && close != ""
    ensures Lawful(Delimited(open, close))
  {
    var x := Delimited(open, close);
    forall p, s | Clean(x, p) ensures x.split(p + s) == Prefixed(p, x.split(s)) {
      SplitShifts(p, s, open, close);
    }
    forall f, rest | Plain(x, f) ensures x.split(x.own(f) + rest) == Some(Parts("", f, rest)) {
      SplitOwn(open, f, close, rest);
    }
    forall s | x.split(s).Some?
      ensures var q := x.split(s).value; s == q.before + (x.own(q.field) + q.rest) && |q.rest| < |s|
    {
      SplitWhole(s, open, close);
    }
  }

  /** So the engine's templates do: a '{' marks an opening, a '}' a closing. */
  lemma BracesAreLawful()
    ensures Lawful(Braces()) && Braces().mark == '{' && Braces().stop == '}'
  {
    DelimitedIsLawful(OPEN, CLOSE);
  }

  // ── Values with few braces ────────────────────────────────────────────

  lemma {:induction false} CountUpTo(s: string, c: char, n: nat)
    requires n <= |s|
    ensures Count(s[..n], c) <= Count(s, c)
  {
    assert s == s[..n] + s[n..];
    CountConcat(s[..n], s[n..], c);
  }

  lemma TwoOfTheSame(c: char)
    ensures Count([c, c], c) == 2
  {
    var one, two := [c], [c, c];
    assert one[..0] == "" && Count(one, c) == 1;
    assert two[..1] == one;
  }

  lemma PlaceholderHasBraces(f: string)
    ensures Count(Braces().own(f), '{') >= 2 && Count(Braces().own(f), '}') >= 2
  {
    var own := OPEN + f + CLOSE;
    CountConcat(OPEN + f, CLOSE, '{');
    CountConcat(OPEN, f, '{');
    CountConcat(OPEN + f, CLOSE, '}');
    TwoOfTheSame('{');
    TwoOfTheSame('}');
    CountUpTo(OPEN, '{', 2);
    assert OPEN[..2] == ['{', '{'] && CLOSE == ['}', '}'];
  }

  /** Values with at most one opening brace each, or with at most one closing brace each, always let the loop end. */
  lemma FewBracesHalt(s: string, look: Lookup)
    requires (forall f :: Count(look(f), '{') <= 1) || (forall f :: Count(look(f), '}') <= 1)
    ensures Halts(Braces(), look, s)
  {
    var c := if forall f :: Count(look(f), '{') <= 1 then '{' else '}';
    forall f ensures Count(look(f), c) < Count(Braces().own(f), c) {
      PlaceholderHasBraces(f);
    }
    BracesAreLawful();
    CountBoundsTurns(Braces(), look, c, s, Count(s, c));
  }

  // ── The loop and the recursion ────────────────────────────────────────

  /** One turn of the loop: the two searches and the splice. */
  method Turn(s: string, look: Lookup) returns (next: Option<string>)
    ensures next == Step(Braces(), look, s)
  {
    var start := Find(s, OPEN, 0);
    if start.None? {
      return None;
    }
    var from := start.value + |OPEN|;
    var end := Find(s, CLOSE, from);
    if end.None? {
      return None;
    }
    return Some(s[..start.value] + look(s[from..end.value]) + s[end.value + |CLOSE|..]);
  }

  /** The string case. */
  method SubstituteString(s: string, look: Lookup) returns (result: string)
    requires Halts(Braces(), look, s)
    ensures result == Rewritten(Braces(), look, s)
  {
    result := s;
    ghost var x := Braces();
    ghost var n: nat :| Done(x, look, s, n);
    RewrittenIs(x, look, s, n);
    var next := Turn(result, look);
    while next.Some?
      invariant next == Step(x, look, result)
      invariant Done(x, look, result, n) && RewriteIn(x, look, result, n) == Rewritten(x, look, s)
      decreases n
    {
      result := next.value;
      n := n - 1;
      next := Turn(result, look);
    }
  }

  /** Every string in the template lets the loop end. */
  ghost predicate AllHalt(t: Value, look: Lookup) {
    match t
    case Str(s) => Halts(Braces(), look, s)
    case Arr(elems) => forall i :: 0 <= i < |elems| ==> AllHalt(elems[i], look)
    case Obj(fields) => forall k :: k in fields ==> AllHalt(fields[k], look)
    case _ => true
  }

  /** `r` is `t` with every string rewritten: same shape, same keys, everything else untouched. */
  ghost predicate IsSubstituted(t: Value, r: Value, look: Lookup)
    decreases t
  {
    match t
    case Str(s) => Halts(Braces(), look, s) && r == Str(Rewritten(Braces(), look, s))
    case Arr(elems) =>
      r.Arr? && |r.elems| == |elems| && forall i :: 0 <= i < |elems| ==> IsSubstituted(elems[i], r.elems[i], look)
    case Obj(fields) =>
      r.Obj? && r.fields.Keys == fields.Keys && forall k :: k in fields ==> IsSubstituted(fields[k], r.fields[k], look)
    case _ => r == t
  }

  function RenderIn(data: Value, show: Value -> string): Lookup {
    f => Rendered(data, f, show)
  }

  method SubstituteTemplate(t: Value, data: Value, show: Value -> string) returns (r: Value)
    requires AllHalt(t, RenderIn(data, show))
    ensures IsSubstituted(t, r, RenderIn(data, show))
    decreases t
  {
    var look := RenderIn(data, show);
    match t {
      case Str(s) =>
        var result := SubstituteString(s, look);
        r := Str(result);
      case Arr(elems) =>
        var out: seq<Value> := [];
        for i := 0 to |elems|
          invariant |out| == i
          invariant forall j :: 0 <= j < i ==> IsSubstituted(elems[j], out[j], look)
        {
          var v := SubstituteTemplate(elems[i], data, show);
          out := out + [v];
        }
        r := Arr(out);
      case Obj(fields) =>
        var newMap: map<string, Value> := map[];
        var keys := fields.Keys;
        while keys != {}
          invariant keys <= fields.Keys && newMap.Keys == fields.Keys - keys
          invariant forall k :: k in newMap ==> IsSubstituted(fields[k], newMap[k], look)
          decreases keys
        {
          var k :| k in keys;
          var v := SubstituteTemplate(fields[k], data, show);
          newMap := newMap[k := v];
          keys := keys - {k};
        }
        r := Obj(newMap);
      case _ =>
        r := t;
    }
  }

  /** Substituting the result again gives it back. */
  lemma {:induction false} SubstitutedOnce(t: Value, r: Value, look: Lookup)
    requires IsSubstituted(t, r, look)
    ensures IsSubstituted(r, r, look)
    decreases t
  {
    match t {
      case Str(s) =>
        SubstitutionIsIdempotent(Braces(), look, s, look);
      case Arr(elems) =>
        forall i | 0 <= i < |elems| ensures IsSubstituted(r.elems[i], r.elems[i], look) {
          SubstitutedOnce(elems[i], r.elems[i], look);
        }
      case Obj(fields) =>
        forall k | k in fields ensures IsSubstituted(r.fields[k], r.fields[k], look) {
          SubstitutedOnce(fields[k], r.fields[k], look);
        }
      case _ =>
    }
  }

  /** The result is determined by template and data. */
  lemma {:induction false} SubstitutedIsUnique(t: Value, r: Value, r': Value, look: Lookup)
    requires IsSubstituted(t, r, look) && IsSubstituted(t, r', look)
    ensures r == r'
    decreases t
  {
    match t {
      case Str(_) =>
      case Arr(elems) =>
        forall i | 0 <= i < |elems| ensures r.elems[i] == r'.elems[i] {
          SubstitutedIsUnique(elems[i], r.elems[i], r'.elems[i], look);
        }
        assert r.elems == r'.elems;
      case Obj(fields) =>
        forall k | k in fields ensures r.fields[k] == r'.fields[k] {
          SubstitutedIsUnique(fields[k], r.fields[k], r'.fields[k], look);
        }
        assert r.fields == r'.fields;
      case _ =>
    }
  }

  // ── When it ends, on templates and trigger data ───────────────────────

  /** The fields that render as anything at all. */
  function FieldNames(data: Value): set<string> {
    if data.Obj? then data.fields.Keys else {}
  }

  lemma NoSuchField(data: Value, field: string, show: Value -> string)
    requires field !in FieldNames(data)
    ensures Rendered(data, field, show) == ""
  {
  }

  lemma {:induction false} EveryStringHalts(t: Value, look: Lookup)
    requires forall s :: Halts(Braces(), look, s)
    ensures AllHalt(t, look)
    decreases t
  {
    match t {
      case Arr(elems) =>
        forall i | 0 <= i < |elems| ensures AllHalt(elems[i], look) {
          EveryStringHalts(elems[i], look);
        }
      case Obj(fields) =>
        forall k | k in fields ensures AllHalt(fields[k], look) {
          EveryStringHalts(fields[k], look);
        }
      case _ =>
    }
  }

  /** How a value reads in a text: a string as it is, anything else printed. */
  ghost predicate Reads(v: Value, show: Value -> string, text: string) {
    text == if v.Str? then v.s else show(v)
  }

  ghost predicate Sparse(data: Value, show: Value -> string, c: char) {
    forall f, text :: f in FieldNames(data) && Reads(data.fields[f], show, text) ==> Count(text, c) <= 1
  }

  /** Trigger data of which no field renders with two opening braces, or none with two closing ones, suits every template. */
  lemma SparseDataSuitsAll(t: Value, data: Value, show: Value -> string)
    requires Sparse(data, show, '{') || Sparse(data, show, '}')
    ensures AllHalt(t, RenderIn(data, show))
  {
    var look := RenderIn(data, show);
    var c := if Sparse(data, show, '{') then '{' else '}';
    forall f ensures Count(look(f), c) <= 1 {
      if f !in FieldNames(data) {
        NoSuchField(data, f, show);
      } else {
        assert Reads(data.fields[f], show, look(f));
      }
    }
    forall s ensures Halts(Braces(), look, s) {
      FewBracesHalt(s, look);
    }
    EveryStringHalts(t, look);
  }

  /** `env` says what the fields of the data are made of: clean text and whole placeholders. */
  ghost predicate MadeOf(data: Value, show: Value -> string, env: Env) {
    && (forall f :: Tidy(Braces(), env(f)))
    && (forall f :: Get(data, f).None? ==> env(f) == [])
    && (forall f :: Get(data, f).Some? ==> Reads(Get(data, f).value, show, Written(Braces(), env(f))))
  }

  lemma MadeOfDescribes(data: Value, show: Value -> string, env: Env)
    requires MadeOf(data, show, env)
    ensures Describes(Braces(), env, RenderIn(data, show)) && OnlyThese(FieldNames(data), env)
  {
    forall f ensures Tidy(Braces(), env(f)) && Rendered(data, f, show) == Written(Braces(), env(f)) {
      if Get(data, f).Some? {
        assert Reads(Get(data, f).value, show, Written(Braces(), env(f)));
      }
    }
  }

  /** `cut` takes every string of the template into clean text and whole placeholders. */
  ghost predicate CutsUp(t: Value, cut: string -> seq<Piece>) {
    match t
    case Str(s) => Tidy(Braces(), cut(s)) && Written(Braces(), cut(s)) == s
    case Arr(elems) => forall i :: 0 <= i < |elems| ==> CutsUp(elems[i], cut)
    case Obj(fields) => forall k :: k in fields ==> CutsUp(fields[k], cut)
    case _ => true
  }

  /** References from any string of the template stop within `d` levels. */
  ghost predicate AllWithin(t: Value, cut: string -> seq<Piece>, env: Env, d: nat) {
    match t
    case Str(s) => Within(cut(s), env, d)
    case Arr(elems) => forall i :: 0 <= i < |elems| ==> AllWithin(elems[i], cut, env, d)
    case Obj(fields) => forall k :: k in fields ==> AllWithin(fields[k], cut, env, d)
    case _ => true
  }

  /** Exactly when `substitute_template` ends on a JSON template. */
  lemma {:induction false} AllHaltIff(t: Value, cut: string -> seq<Piece>, data: Value, show: Value -> string, env: Env)
    requires MadeOf(data, show, env) && CutsUp(t, cut)
    ensures AllHalt(t, RenderIn(data, show)) <==> AllWithin(t, cut, env, |FieldNames(data)| + 1)
    decreases t
  {
    match t {
      case Str(s) =>
        BracesAreLawful();
        MadeOfDescribes(data, show, env);
        HaltsIff(Braces(), cut(s), env, RenderIn(data, show), FieldNames(data));
      case Arr(elems) =>
        forall i | 0 <= i < |elems|
          ensures AllHalt(elems[i], RenderIn(data, show)) <==> AllWithin(elems[i], cut, env, |FieldNames(data)| + 1)
        {
          AllHaltIff(elems[i], cut, data, show, env);
        }
      case Obj(fields) =>
        forall k | k in fields
          ensures AllHalt(fields[k], RenderIn(data, show)) <==> AllWithin(fields[k], cut, env, |FieldNames(data)| + 1)
        {
          AllHaltIff(fields[k], cut, data, show, env);
        }
      case _ =>
    }
  }

  /** A field whose value contains its own placeholder: a template that asks for it never ends. */
  lemma OwnFieldNeverEnds(field: string, before: string, after: string, data: Value, show: Value -> string)
    requires '}' !in field && '{' !in before
    requires Get(data, field) == Some(Str(before + (Braces().own(field) + after)))
    ensures !AllHalt(Str(Braces().own(field)), RenderIn(data, show))
  {
    var look, own := RenderIn(data, show), Braces().own(field);
    BracesAreLawful();
    assert "" + (own + "") == own;
    forall n: nat ensures !Done(Braces(), look, own, n) {
      SelfReferenceNeverEnds(Braces(), "", field, "", before, after, look, n);
    }
  }

  /** The shortest such template and data. */
  lemma OwnPlaceholderNeverEnds(show: Value -> string)
    ensures !AllHalt(Str("{{trigger.x}}"), RenderIn(Obj(map["x" := Str("{{trigger.x}}")]), show))
  {
    var own := "{{trigger.x}}";
    assert Braces().own("x") == own;
    assert "" + (own + "") == own;
    OwnFieldNeverEnds("x", "", "", Obj(map["x" := Str(own)]), show);
  }

  // ── What comes out, on templates and trigger data ─────────────────────

  /** A text reads as itself, a reference as the field of the data, or as nothing where there is no such field. */
  ghost predicate PieceReads(p: Piece, data: Value, show: Value -> string, text: string) {
    if p.Text? then text == p.text
    else if Get(data, p.field).None? then text == ""
    else Reads(Get(data, p.field).value, show, text)
  }

  /** The pieces, each read from the data, put together. */
  ghost predicate FilledFrom(ps: seq<Piece>, data: Value, show: Value -> string, out: string)
    decreases |ps|
  {
    if ps == [] then out == ""
    else exists first, rest ::
           PieceReads(ps[0], data, show, first) && FilledFrom(ps[1..], data, show, rest) && out == first + rest
  }

  lemma {:induction false} FilledIsFilledFrom(ps: seq<Piece>, data: Value, show: Value -> string, out: string)
    requires FilledFrom(ps, data, show, out)
    ensures out == Filled(ps, RenderIn(data, show))
    decreases |ps|
  {
    if ps != [] {
      var first, rest :|
        PieceReads(ps[0], data, show, first) && FilledFrom(ps[1..], data, show, rest) && out == first + rest;
      FilledIsFilledFrom(ps[1..], data, show, rest);
    }
  }

  /** Every field that the pieces refer to is missing or reads without an opening brace. */
  ghost predicate CleanFields(ps: seq<Piece>, data: Value, show: Value -> string) {
    forall p, text :: p in ps && p.Ref? && Get(data, p.field).Some? && Reads(Get(data, p.field).value, show, text) ==> '{' !in text
  }

  lemma CleanFieldsAreCleanRefs(ps: seq<Piece>, data: Value, show: Value -> string)
    requires CleanFields(ps, data, show)
    ensures CleanRefs(Braces(), ps, RenderIn(data, show))
  {
    BracesAreLawful();
    forall p | p in ps && p.Ref? ensures '{' !in Rendered(data, p.field, show) {
      if Get(data, p.field).Some? {
        assert Reads(Get(data, p.field).value, show, Rendered(data, p.field, show));
      }
    }
  }

  /**
   * Any number of placeholders between clean texts: a string field is put in
   * as it is, any other value as it prints, a missing field as nothing, and
   * the text around them stays.
   */
  lemma TemplateIsFilled(ps: seq<Piece>, data: Value, show: Value -> string, out: string, r: Value)
    requires Tidy(Braces(), ps) && CleanFields(ps, data, show) && FilledFrom(ps, data, show, out)
    ensures AllHalt(Str(Written(Braces(), ps)), RenderIn(data, show))
    ensures IsSubstituted(Str(Written(Braces(), ps)), r, RenderIn(data, show)) <==> r == Str(out)
  {
    BracesAreLawful();
    CleanFieldsAreCleanRefs(ps, data, show);
    SubstitutionFills(Braces(), ps, RenderIn(data, show));
    FilledIsFilledFrom(ps, data, show, out);
  }

  lemma FilledFromCons(p: Piece, ps: seq<Piece>, data: Value, show: Value -> string, first: string, rest: string)
    requires PieceReads(p, data, show, first) && FilledFrom(ps, data, show, rest)
    ensures FilledFrom([p] + ps, data, show, first + rest)
  {
    assert ([p] + ps)[1..] == ps;
  }

  lemma ThreePieces(before: string, field: string, after: string, data: Value, show: Value -> string, text: string)
    requires PieceReads(Ref(field), data, show, text)
    ensures FilledFrom([Text(before), Ref(field), Text(after)], data, show, before + text + after)
  {
    FilledFromCons(Text(after), [], data, show, after, "");
    FilledFromCons(Ref(field), [Text(after)] + [], data, show, text, after + "");
    FilledFromCons(Text(before), [Ref(field)] + ([Text(after)] + []), data, show, before, text + (after + ""));
    assert [Text(before)] + ([Ref(field)] + ([Text(after)] + [])) == [Text(before), Ref(field), Text(after)];
    assert before + (text + (after + "")) == before + text + after;
  }

  lemma ThreeWritten(before: string, field: string, after: string)
    ensures Written(Braces(), [Text(before), Ref(field), Text(after)]) == before + ("{{trigger." + field + "}}") + after
  {
    WrittenCons(Braces(), Text(after), []);
    WrittenCons(Braces(), Ref(field), [Text(after)] + []);
    WrittenCons(Braces(), Text(before), [Ref(field)] + ([Text(after)] + []));
    assert [Text(before)] + ([Ref(field)] + ([Text(after)] + [])) == [Text(before), Ref(field), Text(after)];
    assert after + "" == after;
  }

  lemma ThreeTidy(before: string, field: string, after: string, data: Value, show: Value -> string, text: string)
    requires '{' !in before && '}' !in field && '{' !in after && '{' !in text
    requires PieceReads(Ref(field), data, show, text)
    ensures Tidy(Braces(), [Text(before), Ref(field), Text(after)])
    ensures CleanFields([Text(before), Ref(field), Text(after)], data, show)
  {
    assert Braces().mark == '{' && Braces().stop == '}';
  }

  /** One placeholder. */
  lemma OneFieldIsFilled(before: string, field: string, after: string, data: Value, show: Value -> string, text: string, r: Value)
    requires '{' !in before && '}' !in field && '{' !in after && '{' !in text
    requires PieceReads(Ref(field), data, show, text)
    requires IsSubstituted(Str(before + ("{{trigger." + field + "}}") + after), r, RenderIn(data, show))
    ensures r == Str(before + text + after)
  {
    var ps := [Text(before), Ref(field), Text(after)];
    ThreeTidy(before, field, after, data, show, text);
    ThreePieces(before, field, after, data, show, text);
    ThreeWritten(before, field, after);
    TemplateIsFilled(ps, data, show, before + text + after, r);
  }

  /**
   * Values that refer to other fields are expanded in their turn: where
   * references stop, the result is the template with all of them followed.
   */
  lemma TemplateIsExpanded(ps: seq<Piece>, data: Value, show: Value -> string, env: Env, d: nat, r: Value)
    requires MadeOf(data, show, env) && Tidy(Braces(), ps) && Within(ps, env, d)
    ensures AllHalt(Str(Written(Braces(), ps)), RenderIn(data, show))
    ensures IsSubstituted(Str(Written(Braces(), ps)), r, RenderIn(data, show)) <==> r == Str(Expansion(ps, env, d))
  {
    BracesAreLawful();
    MadeOfDescribes(data, show, env);
    SubstitutionExpands(Braces(), ps, env, RenderIn(data, show), d);
  }

  // ── Inside a JSON template ────────────────────────────────────────────

  datatype Move = Key(name: string) | Elem(i: nat)

  /** The value at the end of a path, if the path leads anywhere. */
  function At(v: Value, path: seq<Move>): Option<Value>
    decreases |path|
  {
    if path == [] then Some(v)
    else match path[0]
      case Key(name) => if v.Obj? && name in v.fields then At(v.fields[name], path[1..]) else None
      case Elem(i) => if v.Arr? && i < |v.elems| then At(v.elems[i], path[1..]) else None
  }

  /** Substitution keeps every path, and treats what is at its end as it would treat it alone. */
  lemma {:induction false} SubstitutedAt(t: Value, r: Value, look: Lookup, path: seq<Move>)
    requires IsSubstituted(t, r, look)
    ensures At(t, path).None? <==> At(r, path).None?
    ensures At(t, path).Some? ==> IsSubstituted(At(t, path).value, At(r, path).value, look)
    decreases |path|
  {
    if path != [] {
      match path[0] {
        case Key(name) =>
          if t.Obj? && name in t.fields {
            SubstitutedAt(t.fields[name], r.fields[name], look, path[1..]);
          }
        case Elem(i) =>
          if t.Arr? && i < |t.elems| {
            SubstitutedAt(t.elems[i], r.elems[i], look, path[1..]);
          }
      }
    }
  }

  /**
   * Wherever in a JSON template a string of clean texts and placeholders
   * stands, it is filled in there; numbers, booleans and nulls stay what they
   * are where they are, and no path appears or disappears.
   */
  lemma FilledWhereItStands(t: Value, r: Value, data: Value, show: Value -> string, path: seq<Move>, ps: seq<Piece>, out: string)
    requires IsSubstituted(t, r, RenderIn(data, show))
    requires Tidy(Braces(), ps) && CleanFields(ps, data, show) && FilledFrom(ps, data, show, out)
    ensures At(t, path).None? <==> At(r, path).None?
    ensures At(t, path) == Some(Str(Written(Braces(), ps))) ==> At(r, path) == Some(Str(out))
    ensures At(t, path).Some? && !At(t, path).value.Str? && !At(t, path).value.Arr? && !At(t, path).value.Obj?
            ==> At(r, path) == At(t, path)
  {
    SubstitutedAt(t, r, RenderIn(data, show), path);
    if At(t, path) == Some(Str(Written(Braces(), ps))) {
      TemplateIsFilled(ps, data, show, out, At(r, path).value);
    }
  }
}
