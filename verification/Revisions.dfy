/**
 * Entity revisions: a shallow JSON diff stored with every new version, a
 * table of revisions for all entities, and reverts that append.
 */
module Revisions {
  import opened Prelude
  import opened Json

  const ROOT := "_root"

  // ── Diffs ─────────────────────────────────────────────────────────────

  function Change(prev: Value, next: Value): Value {
    Obj(map["old" := prev, "new" := next])
  }

  function DiffOf(changed: map<string, Value>, added: map<string, Value>, removed: map<string, Value>): Value {
    Obj(map["changed" := Obj(changed), "added" := Obj(added), "removed" := Obj(removed)])
  }

  /** The entries that `f` gives for the keys it accepts. */
  ghost function Collect(keys: set<string>, f: string -> Option<Value>): (m: map<string, Value>)
    ensures forall k :: k in m <==> k in keys && f(k).Some?
    ensures forall k :: k in m ==> m[k] == f(k).value
    decreases keys
  {
    if keys == {} then map[]
    else
      var key :| key in keys;
      var rest := Collect(keys - {key}, f);
      if f(key).Some? then rest[key := f(key).value] else rest
  }

  function ChangedAt(prev: map<string, Value>, next: map<string, Value>, k: string): Option<Value> {
    if k in prev && k in next && prev[k] != next[k] then Some(Change(prev[k], next[k])) else None
  }

  /** The entry of `a` under `k`, when `b` lacks the key. */
  function MissingAt(a: map<string, Value>, b: map<string, Value>, k: string): Option<Value> {
    if k in a && k !in b then Some(a[k]) else None
  }

  ghost function Changed(prev: map<string, Value>, next: map<string, Value>): map<string, Value> {
    Collect(prev.Keys, k => ChangedAt(prev, next, k))
  }

  ghost function Missing(a: map<string, Value>, b: map<string, Value>): map<string, Value> {
    Collect(a.Keys, k => MissingAt(a, b, k))
  }

  ghost function Diff(prev: Value, next: Value): Option<Value> {
    if prev == next then None
    else if prev.Obj? && next.Obj? then
      Some(DiffOf(Changed(prev.fields, next.fields), Missing(next.fields, prev.fields), Missing(prev.fields, next.fields)))
    else Some(DiffOf(map[ROOT := Change(prev, next)], map[], map[]))
  }

  /** `m` holds what `at` gives for the keys the loop has looked at. */
  ghost predicate FilledFor(m: map<string, Value>, done: set<string>, at: string -> Option<Value>) {
    && (forall k :: k in m <==> k in done && at(k).Some?)
    && (forall k :: k in m ==> m[k] == at(k).value)
  }

  /** The pass over the old keys. */
  method ScanOld(before: map<string, Value>, after: map<string, Value>)
    returns (changed: map<string, Value>, removed: map<string, Value>)
    ensures changed == Changed(before, after) && removed == Missing(before, after)
  {
    changed, removed := map[], map[];
    ghost var changedAt, removedAt := k => ChangedAt(before, after, k), k => MissingAt(before, after, k);
    var keys := before.Keys;
    while keys != {}
      invariant keys <= before.Keys
      invariant FilledFor(changed, before.Keys - keys, changedAt)
      invariant FilledFor(removed, before.Keys - keys, removedAt)
      decreases keys
    {
      var key :| key in keys;
      keys := keys - {key};
      if key in after {
        if before[key] != after[key] {
          changed := changed[key := Change(before[key], after[key])];
        }
      } else {
        removed := removed[key := before[key]];
      }
    }
    FilledIsCollected(changed, before.Keys, changedAt);
    FilledIsCollected(removed, before.Keys, removedAt);
  }

  /** The pass over the new keys. */
  method ScanNew(before: map<string, Value>, after: map<string, Value>) returns (added: map<string, Value>)
    ensures added == Missing(after, before)
  {
    added := map[];
    ghost var addedAt := k => MissingAt(after, before, k);
    var keys := after.Keys;
    while keys != {}
      invariant keys <= after.Keys
      invariant FilledFor(added, after.Keys - keys, addedAt)
      decreases keys
    {
      var key :| key in keys;
      keys := keys - {key};
      if key !in before {
        added := added[key := after[key]];
      }
    }
    FilledIsCollected(added, after.Keys, addedAt);
  }

  lemma FilledIsCollected(m: map<string, Value>, keys: set<string>, at: string -> Option<Value>)
    requires FilledFor(m, keys, at)
    ensures m == Collect(keys, at)
  {
  }

  /** `compute_diff` */
  method ComputeDiff(prev: Value, next: Value) returns (diff: Option<Value>)
    ensures diff == Diff(prev, next)
  {
    if prev == next {
      return None;
    }
    if prev.Obj? && next.Obj? {
      var changed, removed := ScanOld(prev.fields, next.fields);
      var added := ScanNew(prev.fields, next.fields);
      if changed == map[] && added == map[] && removed == map[] {
        NoPartsMeansEqual(prev.fields, next.fields);
        return None;
      }
      return Some(DiffOf(changed, added, removed));
    }
    return Some(DiffOf(map[ROOT := Change(prev, next)], map[], map[]));
  }

  /** The last check of the original, that some part is non-empty, always passes. */
  lemma NoPartsMeansEqual(a: map<string, Value>, b: map<string, Value>)
    requires Changed(a, b) == map[] && Missing(a, b) == map[] && Missing(b, a) == map[]
    ensures a == b
  {
    forall k ensures k in a <==> k in b {
      assert k in a && k !in b ==> k in Missing(a, b);
      assert k in b && k !in a ==> k in Missing(b, a);
    }
    forall k | k in a ensures a[k] == b[k] {
      assert a[k] != b[k] ==> k in Changed(a, b);
    }
  }

  // ── Reading a diff ────────────────────────────────────────────────────

  function Fields(v: Value): map<string, Value> {
    if v.Obj? then v.fields else map[]
  }

  function Part(d: Value, name: string): map<string, Value> {
    Fields(Index(d, name))
  }

  /**
   * Replays a diff in one direction: `from` and `to` name the sides of a
   * change, `gone` and `come` the parts that disappear and appear. A change
   * under `_root` replaces the whole value exactly when its near side *is*
   * the whole value; otherwise it is an ordinary key.
   */
  ghost function Replay(v: Value, d: Value, from: string, to: string, gone: string, come: string): Value {
    var changed := Part(d, "changed");
    if ROOT in changed && Index(changed[ROOT], from) == v then Index(changed[ROOT], to)
    else if !v.Obj? then v
    else Obj(Collect(v.fields.Keys + Part(d, come).Keys,
                     k => ReplayAt(v.fields, changed, Part(d, gone), Part(d, come), to, k)))
  }

  function ReplayAt(fields: map<string, Value>, changed: map<string, Value>, gone: map<string, Value>,
                    come: map<string, Value>, to: string, k: string): Option<Value> {
    if k in come then Some(come[k])
    else if k in gone || k !in fields then None
    else if k in changed then Some(Index(changed[k], to))
    else Some(fields[k])
  }

  ghost function Apply(prev: Value, d: Value): Value {
    Replay(prev, d, "old", "new", "removed", "added")
  }

  ghost function Unapply(next: Value, d: Value): Value {
    Replay(next, d, "new", "old", "added", "removed")
  }

  ghost function ApplyOption(v: Value, d: Option<Value>): Value {
    if d.None? then v else Apply(v, d.value)
  }

  ghost function UnapplyOption(v: Value, d: Option<Value>): Value {
    if d.None? then v else Unapply(v, d.value)
  }

  /** JSON values are finite: no object is one of its own fields. */
  lemma NotItsOwnField(v: Value, key: string)
    requires v.Obj? && key in v.fields
    ensures v.fields[key] != v
  {
    assert (v decreases to v.fields[key]);
  }

  /** What replaying needs to know of a diff between two objects, seen from `v`. */
  ghost predicate Leads(v: map<string, Value>, w: map<string, Value>, d: Value, from: string, to: string, gone: string, come: string) {
    var changed := Part(d, "changed");
    && Part(d, gone) == Missing(v, w) && Part(d, come) == Missing(w, v)
    && (forall k :: k in changed <==> k in v && k in w && v[k] != w[k])
    && (forall k :: k in changed ==> Index(changed[k], from) == v[k] && Index(changed[k], to) == w[k])
  }

  lemma ChangedEntries(prev: map<string, Value>, next: map<string, Value>)
    ensures var m := Changed(prev, next);
            && (forall k :: k in m <==> k in prev && k in next && prev[k] != next[k])
            && (forall k :: k in m ==> Index(m[k], "old") == prev[k] && Index(m[k], "new") == next[k])
  {
    var m := Changed(prev, next);
    forall k | k in m ensures Index(m[k], "old") == prev[k] && Index(m[k], "new") == next[k] {
      assert m[k] == ChangedAt(prev, next, k).value;
    }
  }

  lemma MissingEntries(a: map<string, Value>, b: map<string, Value>)
    ensures var m := Missing(a, b);
            && (forall k :: k in m <==> k in a && k !in b)
            && (forall k :: k in m ==> m[k] == a[k])
  {
  }

  lemma DiffLeadsBothWays(prev: map<string, Value>, next: map<string, Value>)
    requires prev != next
    ensures var d := Diff(Obj(prev), Obj(next)).value;
            && Leads(prev, next, d, "old", "new", "removed", "added")
            && Leads(next, prev, d, "new", "old", "added", "removed")
  {
    ChangedEntries(prev, next);
    PartsOf(Changed(prev, next), Missing(next, prev), Missing(prev, next));
  }

  /**
   * A diff between two objects names exactly the keys that changed, with both
   * values, those that came and those that went, with theirs, and no others.
   */
  lemma DiffIsExact(prev: map<string, Value>, next: map<string, Value>, key: string)
    requires prev != next
    ensures Diff(Obj(prev), Obj(next)).Some?
    ensures var d := Diff(Obj(prev), Obj(next)).value;
            && Get(Index(d, "changed"), key)
               == (if key in prev && key in next && prev[key] != next[key]
                   then Some(Obj(map["old" := prev[key], "new" := next[key]])) else None)
            && Get(Index(d, "added"), key) == (if key in next && key !in prev then Some(next[key]) else None)
            && Get(Index(d, "removed"), key) == (if key in prev && key !in next then Some(prev[key]) else None)
  {
  }

  lemma PartsOf(changed: map<string, Value>, added: map<string, Value>, removed: map<string, Value>)
    ensures var d := DiffOf(changed, added, removed);
            Part(d, "changed") == changed && Part(d, "added") == added && Part(d, "removed") == removed
  {
  }

  lemma ObjectReplay(v: map<string, Value>, w: map<string, Value>, d: Value, from: string, to: string, gone: string, come: string)
    requires Leads(v, w, d, from, to, gone, come)
    ensures Replay(Obj(v), d, from, to, gone, come) == Obj(w)
  {
    if ROOT in Part(d, "changed") {
      NotItsOwnField(Obj(v), ROOT);
    }
    MissingEntries(v, w);
    MissingEntries(w, v);
    var changed, lost, found := Part(d, "changed"), Part(d, gone), Part(d, come);
    var r := Collect(v.Keys + found.Keys, k => ReplayAt(v, changed, lost, found, to, k));
    assert Replay(Obj(v), d, from, to, gone, come) == Obj(r);
    assert forall k :: k in r <==> k in w;
    assert r == w;
  }

  lemma RootReplay(prev: Value, next: Value)
    ensures var d := DiffOf(map[ROOT := Change(prev, next)], map[], map[]);
            Apply(prev, d) == next && Unapply(next, d) == prev
  {
    PartsOf(map[ROOT := Change(prev, next)], map[], map[]);
  }

  /** Lossless forwards and backwards, and absent exactly when nothing changed. */
  lemma DiffIsLossless(prev: Value, next: Value)
    ensures Diff(prev, next).None? <==> prev == next
    ensures ApplyOption(prev, Diff(prev, next)) == next
    ensures UnapplyOption(next, Diff(prev, next)) == prev
  {
    if prev != next {
      if prev.Obj? && next.Obj? {
        var d := Diff(prev, next).value;
        DiffLeadsBothWays(prev.fields, next.fields);
        ObjectReplay(prev.fields, next.fields, d, "old", "new", "removed", "added");
        ObjectReplay(next.fields, prev.fields, d, "new", "old", "added", "removed");
      } else {
        RootReplay(prev, next);
      }
    }
  }

  // ── The table ─────────────────────────────────────────────────────────

  type Entity = (string, nat)

  datatype Origin = Origin(changeType: string, changedBy: string, summary: Option<string>,
                           templateId: Option<nat>, templateVersion: Option<int>)

  datatype Row = Row(entity: Entity, version: int, hash: string, snapshot: Value, diff: Option<Value>, origin: Origin)

  /** The rows of one entity, in the order they were inserted. */
  function History(rows: seq<Row>, e: Entity): seq<Row> {
    if rows == [] then []
    else
      var last := rows[|rows| - 1];
      History(rows[..|rows| - 1], e) + if last.entity == e then [last] else []
  }

  lemma HistoryAppend(rows: seq<Row>, row: Row, e: Entity)
    ensures History(rows + [row], e) == History(rows, e) + if row.entity == e then [row] else []
  {
    assert (rows + [row])[..|rows|] == rows;
  }

  lemma {:induction false} HistoryHolds(rows: seq<Row>, e: Entity)
    ensures forall r :: r in History(rows, e) <==> r in rows && r.entity == e
  {
    if rows != [] {
      var n := |rows| - 1;
      HistoryHolds(rows[..n], e);
      assert forall r :: r in rows <==> r in rows[..n] || r == rows[n];
    }
  }

  /** Row `i` has version `i + 1`, its hash, and the diff from the row before it, if there is one. */
  ghost predicate InPlace(h: seq<Row>, i: nat, hash: Value -> string)
    requires i < |h|
  {
    && h[i].version == i + 1
    && h[i].hash == hash(h[i].snapshot)
    && h[i].diff == if i == 0 then None else Diff(h[i - 1].snapshot, h[i].snapshot)
  }

  ghost predicate Sequential(h: seq<Row>, hash: Value -> string) {
    forall i :: 0 <= i < |h| ==> InPlace(h, i, hash)
  }

  lemma StaysInPlace(h: seq<Row>, row: Row, i: nat, hash: Value -> string)
    requires i < |h| && InPlace(h, i, hash)
    ensures InPlace(h + [row], i, hash)
  {
    assert (h + [row])[i] == h[i] && (i > 0 ==> (h + [row])[i - 1] == h[i - 1]);
  }

  lemma SequentialExtend(h: seq<Row>, row: Row, hash: Value -> string)
    requires Sequential(h, hash) && InPlace(h + [row], |h|, hash)
    ensures Sequential(h + [row], hash)
  {
    forall i | 0 <= i < |h| ensures InPlace(h + [row], i, hash) {
      assert InPlace(h, i, hash);
      StaysInPlace(h, row, i, hash);
    }
  }

  lemma RowIsAtItsVersion(rows: seq<Row>, row: Row, hash: Value -> string)
    requires row in rows && Sequential(History(rows, row.entity), hash)
    ensures var h := History(rows, row.entity); 1 <= row.version <= |h| && h[row.version - 1] == row
  {
    HistoryHolds(rows, row.entity);
    var h := History(rows, row.entity);
    var i :| 0 <= i < |h| && h[i] == row;
    assert InPlace(h, i, hash);
  }

  lemma VersionHasItsRow(rows: seq<Row>, e: Entity, version: int, hash: Value -> string) returns (j: nat)
    requires Sequential(History(rows, e), hash) && 1 <= version <= |History(rows, e)|
    ensures j < |rows| && rows[j].entity == e && rows[j].version == version
  {
    HistoryHolds(rows, e);
    var h := History(rows, e);
    assert InPlace(h, version - 1, hash) && h[version - 1] in h;
    j :| 0 <= j < |rows| && rows[j] == h[version - 1];
  }

  function RevertOrigin(reverted: Row, changedBy: string, summary: string): Origin {
    Origin("revert", changedBy, Some(summary), reverted.origin.templateId, reverted.origin.templateVersion)
  }

  /** `row`, appended to `h`, brings version `target` back. */
  ghost predicate Reverts(h: seq<Row>, target: int, row: Row, changedBy: string, summary: string)
    requires 1 <= target <= |h|
  {
    && row.snapshot == h[target - 1].snapshot
    && row.hash == h[target - 1].hash
    && row.origin == Origin("revert", changedBy, Some(summary), h[target - 1].origin.templateId, h[target - 1].origin.templateVersion)
    && row.diff == Diff(h[|h| - 1].snapshot, h[target - 1].snapshot)
  }

  lemma SameSnapshotReverts(h: seq<Row>, target: int, row: Row, changedBy: string, summary: string, hash: Value -> string)
    requires 1 <= target <= |h| && Sequential(h + [row], hash)
    requires row.snapshot == h[target - 1].snapshot && row.origin == RevertOrigin(h[target - 1], changedBy, summary)
    ensures Reverts(h, target, row, changedBy, summary)
  {
    assert InPlace(h + [row], |h|, hash);
    assert InPlace(h + [row], target - 1, hash);
  }

  /** `row` is the next version after `h`, with its hash and a diff that connects it to the version before. */
  ghost predicate Continues(h: seq<Row>, row: Row, hash: Value -> string) {
    && row.version == |h| + 1 && row.hash == hash(row.snapshot)
    && if h == [] then row.diff == None
       else
         && ApplyOption(h[|h| - 1].snapshot, row.diff) == row.snapshot
         && UnapplyOption(row.snapshot, row.diff) == h[|h| - 1].snapshot
         && (row.diff.None? <==> h[|h| - 1].snapshot == row.snapshot)
  }

  lemma InPlaceContinues(h: seq<Row>, row: Row, hash: Value -> string)
    requires InPlace(h + [row], |h|, hash)
    ensures Continues(h, row, hash)
  {
    if h != [] {
      assert (h + [row])[|h| - 1] == h[|h| - 1];
      DiffIsLossless(h[|h| - 1].snapshot, row.snapshot);
    }
  }

  class RevisionService {
    /** The content hash, of which only "it is a function of the snapshot" is used. */
    const hash: Value -> string
    var rows: seq<Row>

    ghost predicate Valid()
      reads this
    {
      forall e :: Sequential(History(rows, e), hash)
    }

    constructor (hash: Value -> string)
      ensures Valid() && rows == [] && this.hash == hash
    {
      this.hash := hash;
      rows := [];
    }

    /** `SELECT MAX(version)`, 0 when there is none. */
    method MaxVersion(e: Entity) returns (max: int)
      requires Valid()
      ensures max == |History(rows, e)|
    {
      max := 0;
      ghost var h := History(rows, e);
      for i := 0 to |rows|
        invariant max == |History(rows[..i], e)|
      {
        HistoryPrefix(rows, i + 1, e);
        assert rows[..i + 1][..i] == rows[..i];
        if rows[i].entity == e {
          assert History(rows[..i + 1], e)[max] == h[max] == rows[i];
          assert InPlace(h, max, hash);
          if rows[i].version > max {
            max := rows[i].version;
          }
        }
      }
      assert rows[..|rows|] == rows;
    }

    /** `get_revision` */
    method GetRevision(e: Entity, version: int) returns (found: Option<Row>)
      requires Valid()
      ensures var h := History(rows, e);
              found == if 1 <= version <= |h| then Some(h[version - 1]) else None
    {
      found := None;
      ghost var h := History(rows, e);
      for i := 0 to |rows|
        invariant forall j :: 0 <= j < i ==> !(rows[j].entity == e && rows[j].version == version)
      {
        if rows[i].entity == e && rows[i].version == version {
          RowIsAtItsVersion(rows, rows[i], hash);
          return Some(rows[i]);
        }
      }
      if 1 <= version <= |h| {
        var j := VersionHasItsRow(rows, e, version, hash);
      }
    }

    method CreateRevision(e: Entity, snapshot: Value, origin: Origin) returns (revision: Row)
      requires Valid()
      modifies this
      ensures Valid()
      ensures rows == old(rows) + [revision]
      ensures revision.entity == e && revision.snapshot == snapshot && revision.origin == origin
      ensures Continues(History(old(rows), e), revision, hash)
      ensures forall other :: History(rows, other)
                == History(old(rows), other) + if other == e then [revision] else []
    {
      var maxVersion := MaxVersion(e);
      var nextVersion := maxVersion + 1;
      var diff: Option<Value> := None;
      if nextVersion > 1 {
        var latest := GetRevision(e, nextVersion - 1);
        if latest.Some? {
          diff := ComputeDiff(latest.value.snapshot, snapshot);
        }
      }
      revision := Row(e, nextVersion, hash(snapshot), snapshot, diff, origin);
      ghost var h := History(rows, e);
      assert InPlace(h + [revision], |h|, hash);
      SequentialExtend(h, revision, hash);
      InPlaceContinues(h, revision, hash);
      forall other ensures History(rows + [revision], other) == History(rows, other) + if other == e then [revision] else [] {
        HistoryAppend(rows, revision, other);
      }
      ghost var before := rows;
      rows := rows + [revision];
      forall other ensures Sequential(History(rows, other), hash) {
        assert Sequential(History(before, other), hash);
        assert History(rows, other) == if other == e then h + [revision] else History(before, other);
      }
    }

    /** `revert_to_version`: nothing is undone, the earlier snapshot becomes the newest version. */
    method RevertToVersion(e: Entity, target: int, changedBy: string, summary: string) returns (revision: Option<Row>)
      requires Valid()
      modifies this
      ensures Valid()
      ensures var h := History(old(rows), e);
              if 1 <= target <= |h| then
                && revision.Some? && History(rows, e) == h + [revision.value]
                && Reverts(h, target, revision.value, changedBy, summary)
              else revision.None? && rows == old(rows)
      ensures forall other :: other != e ==> History(rows, other) == History(old(rows), other)
    {
      var found := GetRevision(e, target);
      if found.None? {
        return None;
      }
      ghost var h := History(rows, e);
      var created := CreateRevision(e, found.value.snapshot, RevertOrigin(found.value, changedBy, summary));
      SameSnapshotReverts(h, target, created, changedBy, summary, hash);
      revision := Some(created);
    }
  }

  lemma {:induction false} HistoryPrefix(rows: seq<Row>, i: nat, e: Entity)
    requires i <= |rows|
    ensures |History(rows[..i], e)| <= |History(rows, e)|
    ensures History(rows[..i], e) == History(rows, e)[..|History(rows[..i], e)|]
    decreases |rows| - i
  {
    if i == |rows| {
      assert rows[..i] == rows;
    } else {
      HistoryPrefix(rows, i + 1, e);
      assert rows[..i + 1][..i] == rows[..i];
    }
  }

  // ── Replaying a history ───────────────────────────────────────────────

  /** Version `n` (counted from 0) from the first snapshot and the stored diffs alone. */
  ghost function Forwards(first: Value, diffs: seq<Option<Value>>, n: nat): Value
    requires n < |diffs|
  {
    if n == 0 then first else ApplyOption(Forwards(first, diffs, n - 1), diffs[n])
  }

  /** Version `n` from the latest snapshot and the stored diffs alone. */
  ghost function Backwards(latest: Value, diffs: seq<Option<Value>>, n: nat): Value
    requires n < |diffs|
    decreases |diffs| - n
  {
    if n == |diffs| - 1 then latest else UnapplyOption(Backwards(latest, diffs, n + 1), diffs[n + 1])
  }

  function DiffsOf(h: seq<Row>): (d: seq<Option<Value>>)
    ensures |d| == |h|
  {
    seq(|h|, i requires 0 <= i < |h| => h[i].diff)
  }

  /** A stored diff leads from each snapshot to the next and back. */
  lemma StoredDiffConnects(h: seq<Row>, hash: Value -> string, n: nat)
    requires Sequential(h, hash) && n + 1 < |h|
    ensures ApplyOption(h[n].snapshot, DiffsOf(h)[n + 1]) == h[n + 1].snapshot
    ensures UnapplyOption(h[n + 1].snapshot, DiffsOf(h)[n + 1]) == h[n].snapshot
  {
    assert InPlace(h, n + 1, hash);
    DiffIsLossless(h[n].snapshot, h[n + 1].snapshot);
  }

  /** Every version of a sequential history, reverts included, is recovered from either end. */
  lemma {:induction false} HistoryReplaysForwards(h: seq<Row>, hash: Value -> string, n: nat)
    requires Sequential(h, hash) && n < |h|
    ensures Forwards(h[0].snapshot, DiffsOf(h), n) == h[n].snapshot
  {
    if n > 0 {
      HistoryReplaysForwards(h, hash, n - 1);
      StoredDiffConnects(h, hash, n - 1);
    }
  }

  lemma {:induction false} HistoryReplaysBackwards(h: seq<Row>, hash: Value -> string, n: nat)
    requires Sequential(h, hash) && n < |h|
    ensures Backwards(h[|h| - 1].snapshot, DiffsOf(h), n) == h[n].snapshot
    decreases |h| - n
  {
    if n < |h| - 1 {
      HistoryReplaysBackwards(h, hash, n + 1);
      StoredDiffConnects(h, hash, n);
    }
  }

  /** A real key called `_root` is told apart from a replaced root, in both directions. */
  lemma RootKeyIsAKey(a: Value, b: Value, rest: map<string, Value>)
    requires a != b
    ensures var prev, next := Obj(rest[ROOT := a]), Obj(rest[ROOT := b]);
            && Diff(prev, next) == Some(DiffOf(map[ROOT := Change(a, b)], map[], map[]))
            && Diff(a, b).Some?
            && Apply(prev, Diff(prev, next).value) == next
            && (!(a.Obj? && b.Obj?) ==> Diff(a, b) == Diff(prev, next) && Apply(a, Diff(prev, next).value) == b)
  {
    var before, after := rest[ROOT := a], rest[ROOT := b];
    assert before[ROOT] != after[ROOT];
    OnlyRootChanges(before, after, a, b);
    DiffIsLossless(Obj(before), Obj(after));
    RootReplay(a, b);
  }

  lemma OnlyRootChanges(before: map<string, Value>, after: map<string, Value>, a: Value, b: Value)
    requires a != b && before.Keys == after.Keys && ROOT in before && before[ROOT] == a && after[ROOT] == b
    requires forall k :: k in before && k != ROOT ==> before[k] == after[k]
    ensures Changed(before, after) == map[ROOT := Change(a, b)]
    ensures Missing(before, after) == map[] && Missing(after, before) == map[]
  {
  }
}
