/**
 * Rescanning substitution for any placeholder syntax: rewrite the leftmost
 * placeholder of a string, search again from the start, until none is left.
 * When this ends, what it yields, and when it never ends, from three laws
 * about the syntax.
 */
module Rewriting {
  import opened Prelude

  /** A string around its first placeholder. */
  datatype Parts = Parts(before: string, field: string, rest: string)

  /**
   * `split` finds the first placeholder, `own` writes the placeholder of a
   * field, `mark` is the character every opening begins with and `stop` the
   * one every closing begins with.
   */
  datatype Syntax = Syntax(split: string -> Option<Parts>, own: string -> string, mark: char, stop: char)

  /** How a field of the data is rendered. */
  type Lookup = string -> string

  /** Text in which no placeholder can begin. */
  predicate Clean(x: Syntax, s: string) {
    x.mark !in s
  }

  /** A field name in which no closing can begin. */
  predicate Plain(x: Syntax, field: string) {
    x.stop !in field
  }

  function Prefixed(p: string, r: Option<Parts>): Option<Parts> {
    match r
    case None => None
    case Some(q) => Some(q.(before := p + q.before))
  }

  /** Clean text in front changes nothing but the text before the placeholder. */
  ghost predicate ShiftLaw(x: Syntax) {
    forall p, s :: Clean(x, p) ==> x.split(p + s) == Prefixed(p, x.split(s))
  }

  /** A written placeholder is found where it stands. */
  ghost predicate OwnLaw(x: Syntax) {
    forall f, rest :: Plain(x, f) ==> x.split(x.own(f) + rest) == Some(Parts("", f, rest))
  }

  /** What was found is the string itself. */
  ghost predicate WholeLaw(x: Syntax) {
    forall s :: x.split(s).Some? ==>
      var q := x.split(s).value;
      s == q.before + (x.own(q.field) + q.rest) && |q.rest| < |s|
  }

  ghost predicate Lawful(x: Syntax) {
    ShiftLaw(x) && OwnLaw(x) && WholeLaw(x)
  }

  // ── The loop ──────────────────────────────────────────────────────────

  function Step(x: Syntax, look: Lookup, s: string): Option<string> {
    match x.split(s)
    case None => None
    case Some(q) => Some(q.before + look(q.field) + q.rest)
  }

  /** The loop leaves `s` within `n` turns. */
  predicate Done(x: Syntax, look: Lookup, s: string, n: nat)
    decreases n
  {
    match Step(x, look, s)
    case None => true
    case Some(s') => n > 0 && Done(x, look, s', n - 1)
  }

  ghost predicate Halts(x: Syntax, look: Lookup, s: string) {
    exists n: nat :: Done(x, look, s, n)
  }

  function RewriteIn(x: Syntax, look: Lookup, s: string, n: nat): string
    requires Done(x, look, s, n)
    decreases n
  {
    match Step(x, look, s)
    case None => s
    case Some(s') => RewriteIn(x, look, s', n - 1)
  }

  lemma {:induction false} TurnsDoNotMatter(x: Syntax, look: Lookup, s: string, n: nat, m: nat)
    requires Done(x, look, s, n) && Done(x, look, s, m)
    ensures RewriteIn(x, look, s, n) == RewriteIn(x, look, s, m)
    decreases n
  {
    if Step(x, look, s).Some? {
      TurnsDoNotMatter(x, look, Step(x, look, s).value, n - 1, m - 1);
    }
  }

  /** What the loop leaves behind. */
  ghost function Rewritten(x: Syntax, look: Lookup, s: string): string
    requires Halts(x, look, s)
  {
    var n: nat :| Done(x, look, s, n);
    RewriteIn(x, look, s, n)
  }

  lemma RewrittenIs(x: Syntax, look: Lookup, s: string, n: nat)
    requires Done(x, look, s, n)
    ensures Halts(x, look, s) && Rewritten(x, look, s) == RewriteIn(x, look, s, n)
  {
    var m: nat :| Done(x, look, s, m) && Rewritten(x, look, s) == RewriteIn(x, look, s, m);
    TurnsDoNotMatter(x, look, s, n, m);
  }

  lemma {:induction false} NothingLeft(x: Syntax, look: Lookup, s: string, n: nat)
    requires Done(x, look, s, n)
    ensures x.split(RewriteIn(x, look, s, n)).None?
    decreases n
  {
    if Step(x, look, s).Some? {
      NothingLeft(x, look, Step(x, look, s).value, n - 1);
    }
  }

  /** A string without a placeholder is left alone. */
  lemma NoPlaceholderNoChange(x: Syntax, look: Lookup, s: string)
    requires x.split(s).None?
    ensures Halts(x, look, s) && Rewritten(x, look, s) == s
  {
    assert Done(x, look, s, 0);
    RewrittenIs(x, look, s, 0);
  }

  /** Whenever the loop ends no placeholder is left, so substituting again changes nothing, with any data. */
  lemma SubstitutionIsIdempotent(x: Syntax, look: Lookup, s: string, other: Lookup)
    requires Halts(x, look, s)
    ensures var r := Rewritten(x, look, s);
            x.split(r).None? && Halts(x, other, r) && Rewritten(x, other, r) == r
  {
    var n: nat :| Done(x, look, s, n);
    RewrittenIs(x, look, s, n);
    NothingLeft(x, look, s, n);
    NoPlaceholderNoChange(x, other, Rewritten(x, look, s));
  }

  // ── Termination by counting ───────────────────────────────────────────

  function Count(s: string, c: char): nat {
    if s == "" then 0 else Count(s[..|s| - 1], c) + if s[|s| - 1] == c then 1 else 0
  }

  lemma {:induction false} CountConcat(a: string, b: string, c: char)
    ensures Count(a + b, c) == Count(a, c) + Count(b, c)
  {
    if b == "" {
      assert a + b == a;
    } else {
      assert (a + b)[..|a + b| - 1] == a + b[..|b| - 1];
      CountConcat(a, b[..|b| - 1], c);
    }
  }

  /** The character occurs less often in every rendered value than in the placeholder it stands for. */
  ghost predicate Shrinks(x: Syntax, look: Lookup, c: char) {
    forall f :: Count(look(f), c) < Count(x.own(f), c)
  }

  lemma StepShrinks(x: Syntax, look: Lookup, c: char, s: string)
    requires WholeLaw(x) && Shrinks(x, look, c) && Step(x, look, s).Some?
    ensures Count(Step(x, look, s).value, c) < Count(s, c)
  {
    var q := x.split(s).value;
    CountConcat(q.before, x.own(q.field) + q.rest, c);
    CountConcat(x.own(q.field), q.rest, c);
    CountConcat(q.before + look(q.field), q.rest, c);
    CountConcat(q.before, look(q.field), c);
    assert Count(look(q.field), c) < Count(x.own(q.field), c);
  }

  /** Any shrinking character is a measure: the loop ends within as many turns as the string has of it. */
  lemma {:induction false} CountBoundsTurns(x: Syntax, look: Lookup, c: char, s: string, n: nat)
    requires WholeLaw(x) && Shrinks(x, look, c) && n >= Count(s, c)
    ensures Done(x, look, s, n)
    decreases n
  {
    if Step(x, look, s).Some? {
      StepShrinks(x, look, c, s);
      CountBoundsTurns(x, look, c, Step(x, look, s).value, n - 1);
    }
  }

  // ── One pass over the template ────────────────────────────────────────

  /** Replaces each placeholder of the template once and never looks at what was put in. */
  ghost function OnePass(x: Syntax, look: Lookup, s: string): string
    requires WholeLaw(x)
    decreases |s|
  {
    match x.split(s)
    case None => s
    case Some(q) => q.before + look(q.field) + OnePass(x, look, q.rest)
  }

  /** The text in front of every placeholder is clean. */
  ghost predicate CleanBetween(x: Syntax, s: string)
    requires WholeLaw(x)
    decreases |s|
  {
    match x.split(s)
    case None => true
    case Some(q) => Clean(x, q.before) && CleanBetween(x, q.rest)
  }

  lemma Associates(a: string, b: string, c: string)
    ensures a + (b + c) == a + b + c
  {
  }

  lemma {:induction false} RescanIsOnePass(x: Syntax, look: Lookup, p: string, s: string) returns (n: nat)
    requires Lawful(x) && Clean(x, p) && CleanBetween(x, s) && forall f :: Clean(x, look(f))
    ensures Done(x, look, p + s, n) && RewriteIn(x, look, p + s, n) == p + OnePass(x, look, s)
    decreases |s|
  {
    assert x.split(p + s) == Prefixed(p, x.split(s));
    match x.split(s) {
      case None =>
        n := 0;
      case Some(q) =>
        var done := p + q.before + look(q.field);
        assert Clean(x, look(q.field));
        assert Step(x, look, p + s) == Some(done + q.rest);
        var m := RescanIsOnePass(x, look, done, q.rest);
        n := m + 1;
        Associates(p, q.before + look(q.field), OnePass(x, look, q.rest));
        Associates(p, q.before, look(q.field));
    }
  }

  /** With clean values and clean text between placeholders, rescanning is a single left-to-right pass. */
  lemma SubstitutionIsOnePass(x: Syntax, look: Lookup, s: string)
    requires Lawful(x) && CleanBetween(x, s) && forall f :: Clean(x, look(f))
    ensures Halts(x, look, s) && Rewritten(x, look, s) == OnePass(x, look, s)
  {
    var n := RescanIsOnePass(x, look, "", s);
    assert "" + s == s && "" + OnePass(x, look, s) == OnePass(x, look, s);
    RewrittenIs(x, look, s, n);
  }

  // ── Values that refer to other values ─────────────────────────────────

  /** Text made of clean literals and whole placeholders. */
  datatype Piece = Text(text: string) | Ref(field: string)

  predicate Tidy(x: Syntax, ps: seq<Piece>) {
    forall p :: p in ps ==> if p.Text? then Clean(x, p.text) else Plain(x, p.field)
  }

  function Shown(x: Syntax, p: Piece): string {
    match p
    case Text(text) => text
    case Ref(field) => x.own(field)
  }

  function Written(x: Syntax, ps: seq<Piece>): string {
    if ps == [] then "" else Shown(x, ps[0]) + Written(x, ps[1..])
  }

  /** What each field's value is made of. */
  type Env = string -> seq<Piece>

  ghost predicate Describes(x: Syntax, env: Env, look: Lookup) {
    forall f :: Tidy(x, env(f)) && look(f) == Written(x, env(f))
  }

  /** References followed from `ps` stop within `d` levels. */
  predicate Within(ps: seq<Piece>, env: Env, d: nat)
    decreases d
  {
    forall p :: p in ps && p.Ref? ==> d > 0 && Within(env(p.field), env, d - 1)
  }

  lemma {:induction false} WithinMore(ps: seq<Piece>, env: Env, d: nat, e: nat)
    requires Within(ps, env, d) && d <= e
    ensures Within(ps, env, e)
    decreases d
  {
    forall p | p in ps && p.Ref? ensures Within(env(p.field), env, e - 1) {
      WithinMore(env(p.field), env, d - 1, e - 1);
    }
  }

  lemma WrittenCons(x: Syntax, p: Piece, ps: seq<Piece>)
    ensures Written(x, [p] + ps) == Shown(x, p) + Written(x, ps)
  {
    assert ([p] + ps)[1..] == ps;
  }

  lemma {:induction false} WrittenConcat(x: Syntax, a: seq<Piece>, b: seq<Piece>)
    ensures Written(x, a + b) == Written(x, a) + Written(x, b)
  {
    if a == [] {
      assert a + b == b;
    } else {
      WrittenConcat(x, a[1..], b);
      assert a + b == [a[0]] + (a[1..] + b);
      WrittenCons(x, a[0], a[1..] + b);
      Associates(Shown(x, a[0]), Written(x, a[1..]), Written(x, b));
    }
  }

  /** The loop on clean text and then pieces whose first is a reference: the reference is replaced by its pieces. */
  lemma ExpandFirst(x: Syntax, p: string, ps: seq<Piece>, env: Env, look: Lookup)
    requires Lawful(x) && Clean(x, p) && Tidy(x, ps) && ps != [] && ps[0].Ref? && Describes(x, env, look)
    ensures Step(x, look, p + Written(x, ps)) == Some(p + Written(x, env(ps[0].field) + ps[1..]))
    ensures Tidy(x, env(ps[0].field) + ps[1..])
  {
    var f, rest := ps[0].field, Written(x, ps[1..]);
    assert ps[0] in ps && Tidy(x, env(f));
    assert x.split(x.own(f) + rest) == Some(Parts("", f, rest));
    assert x.split(p + (x.own(f) + rest)) == Some(Parts(p + "", f, rest));
    assert p + "" == p;
    WrittenConcat(x, env(f), ps[1..]);
    Associates(p, look(f), rest);
  }

  lemma AbsorbText(x: Syntax, p: string, ps: seq<Piece>)
    requires Clean(x, p) && Tidy(x, ps) && ps != [] && ps[0].Text?
    ensures Clean(x, p + ps[0].text) && p + Written(x, ps) == p + ps[0].text + Written(x, ps[1..])
  {
    assert ps[0] in ps;
    Associates(p, ps[0].text, Written(x, ps[1..]));
  }

  lemma WithinParts(a: seq<Piece>, b: seq<Piece>, env: Env, d: nat)
    requires Within(a + b, env, d)
    ensures Within(a, env, d) && Within(b, env, d)
  {
    assert forall q :: q in a || q in b ==> q in a + b;
  }

  lemma WithinCons(ps: seq<Piece>, env: Env, d: nat)
    requires ps != [] && Within(ps[1..], env, d)
    requires ps[0].Ref? ==> d > 0 && Within(env(ps[0].field), env, d - 1)
    ensures Within(ps, env, d)
  {
    assert forall q :: q in ps ==> q == ps[0] || q in ps[1..];
  }

  lemma AfterTurn(x: Syntax, look: Lookup, s: string, s': string, n: nat)
    requires Step(x, look, s) == Some(s') && Done(x, look, s, n)
    ensures n > 0 && Done(x, look, s', n - 1)
  {
  }

  lemma TidyRest(x: Syntax, ps: seq<Piece>)
    requires Tidy(x, ps) && ps != []
    ensures Tidy(x, ps[1..])
  {
  }

  /** If the loop ends within `n` turns, references stop within `n` levels. */
  lemma {:induction false} DoneMeansWithin(x: Syntax, p: string, ps: seq<Piece>, env: Env, look: Lookup, n: nat)
    requires Lawful(x) && Clean(x, p) && Tidy(x, ps) && Describes(x, env, look)
    requires Done(x, look, p + Written(x, ps), n)
    ensures Within(ps, env, n)
    decreases n, |ps|
  {
    if ps != [] {
      TidyRest(x, ps);
      if ps[0].Text? {
        AbsorbText(x, p, ps);
        DoneMeansWithin(x, p + ps[0].text, ps[1..], env, look, n);
      } else {
        var inner := env(ps[0].field);
        ExpandFirst(x, p, ps, env, look);
        AfterTurn(x, look, p + Written(x, ps), p + Written(x, inner + ps[1..]), n);
        DoneMeansWithin(x, p, inner + ps[1..], env, look, n - 1);
        WithinParts(inner, ps[1..], env, n - 1);
        WithinMore(ps[1..], env, n - 1, n);
      }
      WithinCons(ps, env, n);
    }
  }

  /** From any clean text on, the loop ends on what follows. */
  ghost predicate EndsAfterAny(x: Syntax, ps: seq<Piece>, look: Lookup) {
    forall p :: Clean(x, p) ==> Halts(x, look, p + Written(x, ps))
  }

  lemma OneMoreTurn(x: Syntax, look: Lookup, s: string, s': string)
    requires Step(x, look, s) == Some(s') && Halts(x, look, s')
    ensures Halts(x, look, s)
  {
    var n: nat :| Done(x, look, s', n);
    assert Done(x, look, s, n + 1);
  }

  lemma TidyParts(x: Syntax, ps: seq<Piece>, qs: seq<Piece>)
    requires Tidy(x, ps) && Tidy(x, qs) && ps != []
    ensures (ps + qs)[0] == ps[0] && (ps + qs)[1..] == ps[1..] + qs
    ensures Tidy(x, ps + qs) && Tidy(x, ps[1..] + qs) && Tidy(x, ps[1..])
  {
  }

  /** If references stop, the loop ends: it works off the pieces from the left, whatever ends after them. */
  lemma {:induction false} WithinMeansHalts(x: Syntax, p: string, ps: seq<Piece>, qs: seq<Piece>, env: Env, look: Lookup, d: nat)
    requires Lawful(x) && Clean(x, p) && Tidy(x, ps) && Tidy(x, qs) && Describes(x, env, look)
    requires Within(ps, env, d) && EndsAfterAny(x, qs, look)
    ensures Halts(x, look, p + Written(x, ps + qs))
    decreases d, |ps|
  {
    if ps == [] {
      assert ps + qs == qs;
    } else {
      var rest := ps[1..];
      TidyParts(x, ps, qs);
      assert ps[0] in ps && Within(rest, env, d);
      if ps[0].Text? {
        AbsorbText(x, p, ps + qs);
        WithinMeansHalts(x, p + ps[0].text, rest, qs, env, look, d);
      } else {
        var inner := env(ps[0].field);
        forall p' | Clean(x, p') ensures Halts(x, look, p' + Written(x, rest + qs)) {
          WithinMeansHalts(x, p', rest, qs, env, look, d);
        }
        assert Tidy(x, inner);
        WithinMeansHalts(x, p, inner, rest + qs, env, look, d - 1);
        ExpandFirst(x, p, ps + qs, env, look);
        OneMoreTurn(x, look, p + Written(x, ps + qs), p + Written(x, inner + (rest + qs)));
      }
    }
  }

  // ── What it yields ────────────────────────────────────────────────────

  type Turning = string -> Option<string>

  /** `m` turns lead from `s` to `t`. */
  predicate Leads(turn: Turning, s: string, t: string, m: nat)
    decreases m
  {
    if m == 0 then s == t
    else match turn(s)
      case None => false
      case Some(s') => Leads(turn, s', t, m - 1)
  }

  lemma {:induction false} LeadsOn(turn: Turning, s: string, t: string, u: string, m: nat, n: nat)
    requires Leads(turn, s, t, m) && Leads(turn, t, u, n)
    ensures Leads(turn, s, u, m + n)
    decreases m
  {
    if m > 0 {
      LeadsOn(turn, turn(s).value, t, u, m - 1, n);
    }
  }

  function TurnOf(x: Syntax, look: Lookup): Turning {
    s => Step(x, look, s)
  }

  lemma {:induction false} LeadsToEnd(x: Syntax, look: Lookup, s: string, t: string, m: nat)
    requires Leads(TurnOf(x, look), s, t, m) && x.split(t).None?
    ensures Done(x, look, s, m) && RewriteIn(x, look, s, m) == t
    decreases m
  {
    if m > 0 {
      LeadsToEnd(x, look, Step(x, look, s).value, t, m - 1);
    }
  }

  /** Clean text and then pieces of which the first is a reference. */
  predicate Ready(x: Syntax, p: string, ps: seq<Piece>) {
    Clean(x, p) && Tidy(x, ps) && ps != [] && ps[0].Ref?
  }

  /** A turn replaces such a reference by its pieces. */
  ghost predicate ExpandsRefs(x: Syntax, env: Env, turn: Turning) {
    && (forall f :: Tidy(x, env(f)))
    && forall p: string, ps: seq<Piece> {:trigger Ready(x, p, ps)} :: Ready(x, p, ps) ==>
         turn(p + Written(x, ps)) == Some(p + Written(x, env(ps[0].field) + ps[1..]))
  }

  lemma TurnExpandsRefs(x: Syntax, env: Env, look: Lookup)
    requires Lawful(x) && Describes(x, env, look)
    ensures ExpandsRefs(x, env, TurnOf(x, look))
  {
    forall p: string, ps: seq<Piece> | Ready(x, p, ps)
      ensures Step(x, look, p + Written(x, ps)) == Some(p + Written(x, env(ps[0].field) + ps[1..]))
    {
      ExpandFirst(x, p, ps, env, look);
    }
  }

  /** A turn replaces it by the rendered value. */
  ghost predicate FillsRefs(x: Syntax, look: Lookup, turn: Turning) {
    forall p: string, ps: seq<Piece> {:trigger Ready(x, p, ps)} :: Ready(x, p, ps) ==>
      turn(p + Written(x, ps)) == Some(p + look(ps[0].field) + Written(x, ps[1..]))
  }

  lemma TurnFillsRefs(x: Syntax, look: Lookup)
    requires Lawful(x)
    ensures FillsRefs(x, look, TurnOf(x, look))
  {
    forall p: string, ps: seq<Piece> | Ready(x, p, ps)
      ensures Step(x, look, p + Written(x, ps)) == Some(p + look(ps[0].field) + Written(x, ps[1..]))
    {
      var f, rest := ps[0].field, Written(x, ps[1..]);
      assert ps[0] in ps;
      assert x.split(x.own(f) + rest) == Some(Parts("", f, rest));
      assert x.split(p + (x.own(f) + rest)) == Some(Parts(p + "", f, rest));
      assert p + "" == p;
    }
  }

  /** The text with every reference replaced by what its field is made of, and so on for `d` levels. */
  function Expansion(ps: seq<Piece>, env: Env, d: nat): string
    requires Within(ps, env, d)
    decreases d, |ps|
  {
    if ps == [] then ""
    else
      assert ps[0] in ps && forall p :: p in ps[1..] ==> p in ps;
      (match ps[0]
       case Text(text) => text
       case Ref(field) => Expansion(env(field), env, d - 1))
      + Expansion(ps[1..], env, d)
  }

  lemma CleanConcat(x: Syntax, a: string, b: string)
    requires Clean(x, a) && Clean(x, b)
    ensures Clean(x, a + b)
  {
  }

  lemma {:induction false} ExpansionIsClean(x: Syntax, ps: seq<Piece>, env: Env, d: nat)
    requires Within(ps, env, d) && Tidy(x, ps) && forall f :: Tidy(x, env(f))
    ensures Clean(x, Expansion(ps, env, d))
    decreases d, |ps|
  {
    if ps != [] {
      assert ps[0] in ps && forall p :: p in ps[1..] ==> p in ps;
      ExpansionIsClean(x, ps[1..], env, d);
      if ps[0].Ref? {
        ExpansionIsClean(x, env(ps[0].field), env, d - 1);
        CleanConcat(x, Expansion(env(ps[0].field), env, d - 1), Expansion(ps[1..], env, d));
      } else {
        CleanConcat(x, ps[0].text, Expansion(ps[1..], env, d));
      }
    }
  }

  lemma TurnAndThen(turn: Turning, s: string, s': string, t: string, n: nat)
    requires turn(s) == Some(s') && Leads(turn, s', t, n)
    ensures Leads(turn, s, t, n + 1)
  {
  }

  /** From clean text on, the loop expands the pieces from the left, whatever comes after them. */
  lemma {:induction false} LeadsToExpansion(x: Syntax, p: string, ps: seq<Piece>, qs: seq<Piece>,
                                            env: Env, turn: Turning, d: nat) returns (m: nat)
    requires ExpandsRefs(x, env, turn) && Clean(x, p) && Tidy(x, ps) && Tidy(x, qs)
    requires Within(ps, env, d)
    ensures Leads(turn, p + Written(x, ps + qs), p + Expansion(ps, env, d) + Written(x, qs), m)
    decreases d, |ps|
  {
    if ps == [] {
      assert ps + qs == qs && p + "" == p;
      m := 0;
    } else {
      var rest := ps[1..];
      TidyParts(x, ps, qs);
      assert ps[0] in ps && Within(rest, env, d);
      var last := Expansion(rest, env, d);
      if ps[0].Text? {
        AbsorbText(x, p, ps + qs);
        m := LeadsToExpansion(x, p + ps[0].text, rest, qs, env, turn, d);
        Associates(p, ps[0].text, last);
      } else {
        var inner := env(ps[0].field);
        var first := Expansion(inner, env, d - 1);
        var k := LeadsToExpansion(x, p, inner, rest + qs, env, turn, d - 1);
        ExpansionIsClean(x, inner, env, d - 1);
        CleanConcat(x, p, first);
        var n := LeadsToExpansion(x, p + first, rest, qs, env, turn, d);
        Associates(p, first, last);
        assert Ready(x, p, ps + qs);
        LeadsOn(turn, p + Written(x, inner + (rest + qs)), p + first + Written(x, rest + qs),
                p + first + last + Written(x, qs), k, n);
        TurnAndThen(turn, p + Written(x, ps + qs), p + Written(x, inner + (rest + qs)),
                    p + first + last + Written(x, qs), k + n);
        m := k + n + 1;
      }
    }
  }

  lemma EndsIn(x: Syntax, look: Lookup, s: string, t: string, m: nat)
    requires Leads(TurnOf(x, look), s, t, m) && x.split(t).None?
    ensures Halts(x, look, s) && Rewritten(x, look, s) == t
  {
    LeadsToEnd(x, look, s, t, m);
    RewrittenIs(x, look, s, m);
  }

  lemma ReachesExpansion(x: Syntax, ps: seq<Piece>, env: Env, turn: Turning, d: nat) returns (m: nat)
    requires ExpandsRefs(x, env, turn) && Tidy(x, ps) && Within(ps, env, d)
    ensures Leads(turn, Written(x, ps), Expansion(ps, env, d), m)
  {
    var start, end := Written(x, ps), Expansion(ps, env, d);
    m := LeadsToExpansion(x, "", ps, [], env, turn, d);
    assert ps + [] == ps && "" + start == start && "" + end + "" == end;
  }

  /** Where references stop, the loop yields the template with all of them expanded. */
  lemma SubstitutionExpands(x: Syntax, ps: seq<Piece>, env: Env, look: Lookup, d: nat)
    requires Lawful(x) && Tidy(x, ps) && Describes(x, env, look) && Within(ps, env, d)
    ensures Halts(x, look, Written(x, ps)) && Rewritten(x, look, Written(x, ps)) == Expansion(ps, env, d)
  {
    TurnExpandsRefs(x, env, look);
    var m := ReachesExpansion(x, ps, env, TurnOf(x, look), d);
    ExpansionIsClean(x, ps, env, d);
    CleanHasNone(x, Expansion(ps, env, d));
    EndsIn(x, look, Written(x, ps), Expansion(ps, env, d), m);
  }

  lemma CleanHasNone(x: Syntax, s: string)
    requires Lawful(x) && Clean(x, s)
    ensures x.split(s).None?
  {
    EmptyHasNoPlaceholder(x);
    assert s + "" == s && x.split(s + "") == Prefixed(s, x.split(""));
  }

  /** The pieces with every reference replaced once. */
  function Filled(ps: seq<Piece>, look: Lookup): string {
    if ps == [] then ""
    else (if ps[0].Text? then ps[0].text else look(ps[0].field)) + Filled(ps[1..], look)
  }

  ghost predicate CleanRefs(x: Syntax, ps: seq<Piece>, look: Lookup) {
    forall p :: p in ps && p.Ref? ==> Clean(x, look(p.field))
  }

  lemma {:induction false} LeadsToFilled(x: Syntax, p: string, ps: seq<Piece>, look: Lookup, turn: Turning) returns (m: nat)
    requires FillsRefs(x, look, turn) && Clean(x, p) && Tidy(x, ps) && CleanRefs(x, ps, look)
    ensures Leads(turn, p + Written(x, ps), p + Filled(ps, look), m) && Clean(x, p + Filled(ps, look))
    decreases |ps|
  {
    if ps == [] {
      assert p + "" == p;
      m := 0;
    } else {
      TidyRest(x, ps);
      assert ps[0] in ps && CleanRefs(x, ps[1..], look);
      var next, rest := if ps[0].Text? then ps[0].text else look(ps[0].field), ps[1..];
      CleanConcat(x, p, next);
      m := LeadsToFilled(x, p + next, rest, look, turn);
      Associates(p, next, Filled(rest, look));
      if ps[0].Text? {
        AbsorbText(x, p, ps);
      } else {
        assert Ready(x, p, ps);
        TurnAndThen(turn, p + Written(x, ps), p + next + Written(x, rest), p + Filled(ps, look), m);
        m := m + 1;
      }
    }
  }

  /** Where the values asked for are clean, each reference is replaced by its value, and that is all. */
  lemma SubstitutionFills(x: Syntax, ps: seq<Piece>, look: Lookup)
    requires Lawful(x) && Tidy(x, ps) && CleanRefs(x, ps, look)
    ensures Halts(x, look, Written(x, ps)) && Rewritten(x, look, Written(x, ps)) == Filled(ps, look)
  {
    var start, end := Written(x, ps), Filled(ps, look);
    TurnFillsRefs(x, look);
    var m := LeadsToFilled(x, "", ps, look, TurnOf(x, look));
    assert "" + start == start && "" + end == end;
    CleanHasNone(x, end);
    EndsIn(x, look, start, end, m);
  }

  // ── Only finitely many fields refer to anything ───────────────────────

  function Settled(keys: set<string>, env: Env, d: nat): set<string> {
    set f | f in keys && Within(env(f), env, d)
  }

  ghost predicate OnlyThese(keys: set<string>, env: Env) {
    forall f :: f !in keys ==> env(f) == []
  }

  lemma SettledStep(keys: set<string>, env: Env, d: nat, f: string)
    requires OnlyThese(keys, env)
    ensures Within(env(f), env, d + 1)
            <==> forall p :: p in env(f) && p.Ref? && p.field in keys ==> p.field in Settled(keys, env, d)
  {
    forall p | p in env(f) && p.Ref? && p.field !in keys ensures Within(env(p.field), env, d) {
      assert env(p.field) == [];
    }
  }

  /** Once a level settles nothing new, no later level does. */
  lemma {:induction false} SettledForGood(keys: set<string>, env: Env, d: nat, e: nat)
    requires OnlyThese(keys, env) && d <= e && Settled(keys, env, d) == Settled(keys, env, d + 1)
    ensures Settled(keys, env, e) == Settled(keys, env, d)
    decreases e
  {
    if d < e {
      SettledForGood(keys, env, d, e - 1);
      forall f | f in keys ensures f in Settled(keys, env, e) <==> f in Settled(keys, env, d + 1) {
        SettledStep(keys, env, e - 1, f);
        SettledStep(keys, env, d, f);
      }
    }
  }

  lemma SettledGrows(keys: set<string>, env: Env, d: nat)
    ensures Settled(keys, env, d) <= Settled(keys, env, d + 1) <= keys
  {
    forall f | f in Settled(keys, env, d) ensures f in Settled(keys, env, d + 1) {
      WithinMore(env(f), env, d, d + 1);
    }
  }

  lemma SubsetSize(a: set<string>, b: set<string>)
    requires a <= b
    ensures |a| <= |b| && (|a| == |b| ==> a == b)
  {
    assert b == a + (b - a) && |b| == |a| + |b - a|;
  }

  /** Each level settles a new field or is the last to matter. */
  lemma {:induction false} SettledByCount(keys: set<string>, env: Env, d: nat) returns (e: nat)
    requires OnlyThese(keys, env)
    ensures |Settled(keys, env, d)| >= d || (e < d && Settled(keys, env, e) == Settled(keys, env, e + 1))
    decreases d
  {
    e := 0;
    if d > 0 {
      e := SettledByCount(keys, env, d - 1);
      SettledGrows(keys, env, d - 1);
      SubsetSize(Settled(keys, env, d - 1), Settled(keys, env, d));
      if |Settled(keys, env, d - 1)| >= d - 1 && |Settled(keys, env, d)| < d {
        e := d - 1;
      }
    }
  }

  /** Following references for as many levels as there are fields finds every end there is. */
  lemma FieldCountIsEnough(keys: set<string>, env: Env, f: string, d: nat)
    requires OnlyThese(keys, env) && Within(env(f), env, d)
    ensures Within(env(f), env, |keys|)
  {
    if f in keys {
      var n := |keys|;
      var e := SettledByCount(keys, env, n);
      assert f in Settled(keys, env, d);
      if e < n && Settled(keys, env, e) == Settled(keys, env, e + 1) {
        SettledForGood(keys, env, e, n);
        if d <= e {
          WithinMore(env(f), env, d, n);
        } else {
          SettledForGood(keys, env, e, d);
        }
      } else {
        SettledGrows(keys, env, n);
        SubsetSize(Settled(keys, env, n), keys);
      }
    } else {
      assert env(f) == [];
    }
  }

  lemma CleanTextEnds(x: Syntax, look: Lookup)
    requires Lawful(x)
    ensures EndsAfterAny(x, [], look)
  {
    EmptyHasNoPlaceholder(x);
    forall p | Clean(x, p) ensures Halts(x, look, p + Written(x, [])) {
      assert x.split(p + "") == None;
      NoPlaceholderNoChange(x, look, p + "");
    }
  }

  lemma EmptyHasNoPlaceholder(x: Syntax)
    requires WholeLaw(x)
    ensures x.split("") == None
  {
  }

  /**
   * Exactly when substitution ends, for templates and values made of clean
   * text and whole placeholders: the loop ends if and only if references,
   * followed from the template, stop within as many levels as there are
   * fields, and one for the template.
   */
  lemma HaltsIff(x: Syntax, ps: seq<Piece>, env: Env, look: Lookup, keys: set<string>)
    requires Lawful(x) && Tidy(x, ps) && Describes(x, env, look) && OnlyThese(keys, env)
    ensures Halts(x, look, Written(x, ps)) <==> Within(ps, env, |keys| + 1)
  {
    assert "" + Written(x, ps) == Written(x, ps);
    if Halts(x, look, Written(x, ps)) {
      var n: nat :| Done(x, look, Written(x, ps), n);
      DoneMeansWithin(x, "", ps, env, look, n);
      forall p | p in ps && p.Ref? ensures Within(env(p.field), env, |keys|) {
        FieldCountIsEnough(keys, env, p.field, n - 1);
      }
    }
    if Within(ps, env, |keys| + 1) {
      CleanTextEnds(x, look);
      WithinMeansHalts(x, "", ps, [], env, look, |keys| + 1);
      assert ps + [] == ps;
    }
  }

  lemma Regroup(p: string, before: string, own: string, after: string, rest: string)
    ensures p + (before + (own + after)) + rest == (p + before) + (own + (after + rest))
  {
  }

  /** A value that contains its own placeholder after clean text: the loop never ends. */
  lemma {:induction false} SelfReferenceNeverEnds(x: Syntax, p: string, f: string, rest: string,
                                                  before: string, after: string, look: Lookup, n: nat)
    requires Lawful(x) && Clean(x, p) && Clean(x, before) && Plain(x, f)
    requires look(f) == before + (x.own(f) + after)
    ensures !Done(x, look, p + (x.own(f) + rest), n)
    decreases n
  {
    assert x.split(x.own(f) + rest) == Some(Parts("", f, rest));
    assert x.split(p + (x.own(f) + rest)) == Some(Parts(p + "", f, rest));
    assert p + "" == p;
    Regroup(p, before, x.own(f), after, rest);
    if n > 0 {
      SelfReferenceNeverEnds(x, p + before, f, after + rest, before, after, look, n - 1);
    }
  }

  /** A value that is its own placeholder: one turn maps the string to itself. */
  lemma SelfReferenceStandsStill(x: Syntax, p: string, f: string, rest: string, look: Lookup)
    requires Lawful(x) && Clean(x, p) && Plain(x, f) && look(f) == x.own(f)
    ensures Step(x, look, p + (x.own(f) + rest)) == Some(p + (x.own(f) + rest))
  {
    assert x.split(x.own(f) + rest) == Some(Parts("", f, rest));
    assert x.split(p + (x.own(f) + rest)) == Some(Parts(p + "", f, rest));
    assert p + "" == p;
    Associates(p, x.own(f), rest);
  }
}
