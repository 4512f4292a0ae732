/**
 The change log of one entity: an append-only sequence of rows, each a snapshot or a patch, with the
 hash of the state it records. SHA-256 is the constructor `Sha256`.
 */
module History {
  import opened Wrappers
  import opened Arithmetic
  import opened Canonical

  datatype OpKind = Replace | Add | Remove

  datatype PatchOp = PatchOp(op: OpKind, path: string, value: Tree)

  datatype Hash = Sha256(text: Tree)

  datatype Row = Row(version: int, isSnapshot: bool, state: Tree, diff: seq<PatchOp>, hash: Hash)

  datatype Config = Config(snapshotInterval: Positive, maxChainDepth: Positive)

  // The serialised aggregate is an object, never null.
  type State = t: Tree | t != Null witness Object([])

  function ComputePatch(prev: Tree, next: Tree): seq<PatchOp> {
    if prev == next then [] else [PatchOp(Replace, "/", next)]
  }

  // The first replacement of the root, if any, gives the new state.
  function ApplyPatch(state: Tree, patch: seq<PatchOp>): Tree {
    if patch == [] then state
    else if patch[0].op == Replace && patch[0].path == "/" then patch[0].value
    else ApplyPatch(state, patch[1..])
  }

  /** A patch gives the value of its first replacement of the root, and changes nothing without one. */
  lemma {:induction false} FirstRootReplacementApplies(state: Tree, patch: seq<PatchOp>)
    ensures (forall i :: 0 <= i < |patch| ==> !(patch[i].op == Replace && patch[i].path == "/")) ==>
              ApplyPatch(state, patch) == state
    ensures forall i :: 0 <= i < |patch| && patch[i].op == Replace && patch[i].path == "/"
                        && (forall j :: 0 <= j < i ==> !(patch[j].op == Replace && patch[j].path == "/")) ==>
              ApplyPatch(state, patch) == patch[i].value
    decreases |patch|
  {
    if patch != [] {
      var rest := patch[1..];
      FirstRootReplacementApplies(state, rest);
      if !(patch[0].op == Replace && patch[0].path == "/") {
        assert forall i :: 0 < i < |patch| ==> patch[i] == rest[i - 1];
      }
    }
  }

  lemma PatchRoundTrip(prev: Tree, next: Tree)
    ensures ApplyPatch(prev, ComputePatch(prev, next)) == next
  {
  }

  function ApplyRow(state: Tree, row: Row): Tree {
    if row.isSnapshot then row.state else ApplyPatch(state, row.diff)
  }

  function Replay(rows: seq<Row>): Tree {
    if rows == [] then Null else ApplyRow(Replay(rows[..|rows| - 1]), rows[|rows| - 1])
  }

  // The rows of versions up to v, which come in ascending order.
  function UpTo(rows: seq<Row>, v: int): seq<Row> {
    if rows == [] then []
    else UpTo(rows[..|rows| - 1], v) + if rows[|rows| - 1].version <= v then [rows[|rows| - 1]] else []
  }

  function Materialize(rows: seq<Row>, v: int): Option<Tree> {
    var upTo := UpTo(rows, v);
    if upTo == [] then None else Some(Replay(upTo))
  }

  function DiffRows(rows: seq<Row>): nat {
    if rows == [] then 0 else DiffRows(rows[..|rows| - 1]) + if rows[|rows| - 1].isSnapshot then 0 else 1
  }

  predicate IsTruthyState(t: Option<Tree>) {
    t.Some? && t.value != Null
  }

  // The row an append writes after `rows` for the state `next`.
  function NextRow(rows: seq<Row>, cfg: Config, next: State): Row {
    var version := if rows == [] then 1 else rows[|rows| - 1].version + 1;
    var prev := Materialize(rows, version - 1);
    var isSnapshot :=
      || version == 1 || (version - 1) % cfg.snapshotInterval == 0
      || !IsTruthyState(prev) || DiffRows(rows) >= cfg.maxChainDepth;
    Row(version, isSnapshot, if isSnapshot then next else Null,
        if isSnapshot then [] else ComputePatch(prev.value, next), Sha256(CanonicalText(next)))
  }

  class ChangeLog {
    var rows: seq<Row>

    constructor ()
      ensures rows == []
    {
      rows := [];
    }

    method FindUpTo(version: int) returns (found: seq<Row>)
      ensures found == UpTo(rows, version)
    {
      found := [];
      for i := 0 to |rows|
        invariant found == UpTo(rows[..i], version)
      {
        assert rows[..i + 1][..i] == rows[..i];
        if rows[i].version <= version {
          found := found + [rows[i]];
        }
      }
      assert rows[..|rows|] == rows;
    }

    method MaterializeVersion(version: int) returns (r: Option<Tree>)
      ensures r == Materialize(rows, version)
    {
      var found := FindUpTo(version);
      if found == [] { return None; }
      var state: Tree := Null;
      for i := 0 to |found|
        invariant state == Replay(found[..i])
      {
        assert found[..i + 1][..i] == found[..i];
        if found[i].isSnapshot {
          state := found[i].state;
        } else {
          state := ApplyPatch(state, found[i].diff);
        }
      }
      assert found[..|found|] == found;
      r := Some(state);
    }

    method CountDiffRows() returns (n: nat)
      ensures n == DiffRows(rows)
    {
      n := 0;
      for i := 0 to |rows|
        invariant n == DiffRows(rows[..i])
      {
        assert rows[..i + 1][..i] == rows[..i];
        if !rows[i].isSnapshot {
          n := n + 1;
        }
      }
      assert rows[..|rows|] == rows;
    }

    /** Records the aggregate's state; without an aggregate nothing is written. */
    method Append(cfg: Config, aggregate: Option<State>) returns (row: Option<Row>)
      modifies this
      ensures aggregate == None ==> row == None && rows == old(rows)
      ensures aggregate.Some? ==>
                row == Some(NextRow(old(rows), cfg, aggregate.value)) && rows == old(rows) + [row.value]
    {
      if aggregate == None { return None; }
      var newState := aggregate.value;
      var nextVersion := if rows == [] then 1 else rows[|rows| - 1].version + 1;
      var isSnapshot := nextVersion == 1 || (nextVersion - 1) % cfg.snapshotInterval == 0;
      var diff: seq<PatchOp> := [];
      if !isSnapshot {
        var prev := MaterializeVersion(nextVersion - 1);
        if !IsTruthyState(prev) {
          isSnapshot := true;
        } else {
          var chainDepth := CountDiffRows();
          if chainDepth >= cfg.maxChainDepth {
            isSnapshot := true;
          } else {
            diff := ComputePatch(prev.value, newState);
          }
        }
      }
      var hash := Sha256(CanonicalText(newState));
      var written := Row(nextVersion, isSnapshot, if isSnapshot then newState else Null, diff, hash);
      rows := rows + [written];
      row := Some(written);
    }
  }

  // ---------------------------------------------------------------- whole histories

  datatype Change = Change(cfg: Config, state: State)

  // The log after a sequence of appends, each with the configuration of its time.
  function LogOf(changes: seq<Change>): seq<Row> {
    if changes == [] then [] else
    var before := LogOf(changes[..|changes| - 1]);
    var c := changes[|changes| - 1];
    before + [NextRow(before, c.cfg, c.state)]
  }

  lemma {:induction false} LogShape(changes: seq<Change>)
    ensures var rows := LogOf(changes);
            |rows| == |changes| && forall i :: 0 <= i < |rows| ==> rows[i].version == i + 1
    decreases |changes|
  {
    if changes != [] {
      LogShape(changes[..|changes| - 1]);
    }
  }

  /** Appending never touches what is already there. */
  lemma {:induction false} LogPrefix(changes: seq<Change>, n: nat)
    requires n <= |changes|
    ensures |LogOf(changes)| == |changes| && LogOf(changes)[..n] == LogOf(changes[..n])
    decreases |changes|
  {
    LogShape(changes);
    if n == |changes| {
      assert changes[..n] == changes;
    } else {
      var front := changes[..|changes| - 1];
      LogPrefix(front, n);
      assert front[..n] == changes[..n];
    }
  }

  lemma {:induction false} UpToIsPrefix(rows: seq<Row>, v: int)
    requires forall i :: 0 <= i < |rows| ==> rows[i].version == i + 1
    ensures UpTo(rows, v) == rows[..if v < 0 then 0 else if v > |rows| then |rows| else v]
    decreases |rows|
  {
    if rows != [] {
      UpToIsPrefix(rows[..|rows| - 1], v);
    }
  }

  // Whatever the rows so far replay to, the next one makes it the state recorded.
  lemma {:induction false} NextRowRecords(rows: seq<Row>, cfg: Config, next: State)
    requires forall i :: 0 <= i < |rows| ==> rows[i].version == i + 1
    ensures Replay(rows + [NextRow(rows, cfg, next)]) == next
  {
    var row := NextRow(rows, cfg, next);
    ReplayAppend(rows, row);
    if rows != [] {
      LastVersionIsReplay(rows);
      PatchRoundTrip(Replay(rows), next);
    }
  }

  lemma {:induction false} ReplayAppend(rows: seq<Row>, row: Row)
    ensures Replay(rows + [row]) == ApplyRow(Replay(rows), row)
  {
    assert (rows + [row])[..|rows|] == rows;
  }

  lemma {:induction false} LastVersionIsReplay(rows: seq<Row>)
    requires rows != [] && forall i :: 0 <= i < |rows| ==> rows[i].version == i + 1
    ensures Materialize(rows, |rows|) == Some(Replay(rows))
  {
    UpToIsPrefix(rows, |rows|);
    assert rows[..|rows|] == rows;
  }

  lemma {:induction false} ReplayIsLast(changes: seq<Change>)
    requires changes != []
    ensures Replay(LogOf(changes)) == changes[|changes| - 1].state
  {
    var n := |changes| - 1;
    LogShape(changes[..n]);
    NextRowRecords(LogOf(changes[..n]), changes[n].cfg, changes[n].state);
  }

  /**
   After any appends, under any configurations, version v materializes to the state recorded by append
   v, whatever was appended later; its canonical text is the one behind the row's hash.
   */
  lemma {:induction false} EveryVersionMaterializes(changes: seq<Change>, v: int)
    requires 1 <= v <= |changes|
    ensures var rows := LogOf(changes);
            && |rows| == |changes| && rows[v - 1].version == v
            && Materialize(rows, v) == Some(changes[v - 1].state)
            && rows[v - 1].hash == Sha256(CanonicalText(changes[v - 1].state))
  {
    VersionAt(changes, v);
    VersionMaterializes(changes, v);
    HashAt(changes, v - 1);
  }

  lemma {:induction false} VersionAt(changes: seq<Change>, v: int)
    requires 1 <= v <= |changes|
    ensures |LogOf(changes)| == |changes| && LogOf(changes)[v - 1].version == v
  {
    LogShape(changes);
  }

  lemma {:induction false} HashAt(changes: seq<Change>, i: nat)
    requires i < |changes|
    ensures |LogOf(changes)| == |changes| && LogOf(changes)[i].hash == Sha256(CanonicalText(changes[i].state))
  {
    RowAt(changes, i);
  }

  lemma {:induction false} VersionMaterializes(changes: seq<Change>, v: int)
    requires 1 <= v <= |changes|
    ensures |LogOf(changes)| == |changes| && Materialize(LogOf(changes), v) == Some(changes[v - 1].state)
  {
    LogShape(changes);
    MaterializeIsReplay(LogOf(changes), v);
    LogPrefix(changes, v);
    ReplayIsLast(changes[..v]);
    assert changes[..v][v - 1] == changes[v - 1];
  }

  lemma {:induction false} MaterializeIsReplay(rows: seq<Row>, v: int)
    requires 1 <= v <= |rows| && forall i :: 0 <= i < |rows| ==> rows[i].version == i + 1
    ensures Materialize(rows, v) == Some(Replay(rows[..v]))
  {
    UpToIsPrefix(rows, v);
  }

  /**
   Two rows carry the same hash exactly when what is copied of their states into the text differs at most in
   the order of keys; for states copied whole, when the states do.
   */
  lemma {:induction false} HashesTellStatesApart(changes: seq<Change>, v: int, w: int)
    requires 1 <= v <= |changes| && 1 <= w <= |changes|
    requires WellFormed(changes[v - 1].state) && WellFormed(changes[w - 1].state)
    ensures |LogOf(changes)| == |changes|
    ensures var t, u := changes[v - 1].state, changes[w - 1].state;
            var same := LogOf(changes)[v - 1].hash == LogOf(changes)[w - 1].hash;
            && (same <==> Same(Strip(t), Strip(u)))
            && (CopiedWhole(t) && CopiedWhole(u) ==> (same <==> Same(t, u)))
  {
    EveryVersionMaterializes(changes, v);
    EveryVersionMaterializes(changes, w);
    var t, u := changes[v - 1].state, changes[w - 1].state;
    CanonicalTextExactly(t, u);
    StripIsIdleExactly(t);
    StripIsIdleExactly(u);
  }

  lemma {:induction false} RowAt(changes: seq<Change>, i: nat)
    requires i < |changes|
    ensures |LogOf(changes)| == |changes|
    ensures LogOf(changes)[i] == NextRow(LogOf(changes[..i]), changes[i].cfg, changes[i].state)
  {
    LogPrefix(changes, i + 1);
    var first := changes[..i + 1];
    assert first[..i] == changes[..i];
    LogShape(changes[..i]);
    assert LogOf(first)[i] == LogOf(changes)[..i + 1][i];
  }

  // ---------------------------------------------------------------- snapshots and chain depth

  predicate SameConfig(changes: seq<Change>, cfg: Config) {
    forall c :: c in changes ==> c.cfg == cfg
  }

  /** Among any `interval` versions in a row there is a snapshot: the last one due at or before v. */
  lemma {:induction false} SnapshotsAreDense(changes: seq<Change>, cfg: Config, v: int)
    requires SameConfig(changes, cfg) && 1 <= v <= |changes|
    ensures |LogOf(changes)| == |changes|
    ensures var due := v - (v - 1) % cfg.snapshotInterval;
            v - cfg.snapshotInterval < due <= v && 1 <= due && LogOf(changes)[due - 1].isSnapshot
  {
    LastMultiple(v - 1, cfg.snapshotInterval);
    var due := v - (v - 1) % cfg.snapshotInterval;
    RowAt(changes, due - 1);
    assert changes[due - 1] in changes;
    LogShape(changes[..due - 1]);
  }

  // The places of the patches in a log.
  function Patches(rows: seq<Row>): set<nat> {
    set i | 0 <= i < |rows| && !rows[i].isSnapshot
  }

  lemma {:induction false} DiffRowsCounts(rows: seq<Row>)
    ensures DiffRows(rows) == |Patches(rows)|
    decreases |rows|
  {
    if rows != [] {
      var n := |rows| - 1;
      DiffRowsCounts(rows[..n]);
      assert Patches(rows) == Patches(rows[..n]) + if rows[n].isSnapshot then {} else {n};
    }
  }

  lemma {:induction false} DiffRowsAppend(rows: seq<Row>, row: Row)
    ensures DiffRows(rows + [row]) == DiffRows(rows) + if row.isSnapshot then 0 else 1
  {
    assert (rows + [row])[..|rows|] == rows;
  }

  lemma {:induction false} DiffRowsGrow(changes: seq<Change>, n: nat)
    requires n <= |changes|
    ensures DiffRows(LogOf(changes[..n])) <= DiffRows(LogOf(changes))
    decreases |changes|
  {
    if n < |changes| {
      var front := changes[..|changes| - 1];
      assert front[..n] == changes[..n];
      DiffRowsGrow(front, n);
      DiffRowsAppend(LogOf(front), NextRow(LogOf(front), changes[|changes| - 1].cfg, changes[|changes| - 1].state));
    } else {
      assert changes[..n] == changes;
    }
  }

  /** The patches of a log never number more than the maximum depth. */
  lemma {:induction false} PatchesAreBounded(changes: seq<Change>, cfg: Config)
    requires SameConfig(changes, cfg)
    ensures |Patches(LogOf(changes))| <= cfg.maxChainDepth
    decreases |changes|
  {
    DiffRowsCounts(LogOf(changes));
    if changes != [] {
      var front := changes[..|changes| - 1];
      PatchesAreBounded(front, cfg);
      DiffRowsCounts(LogOf(front));
      var last := changes[|changes| - 1];
      assert last in changes;
      DiffRowsAppend(LogOf(front), NextRow(LogOf(front), last.cfg, last.state));
    }
  }

  /**
   Past version 1, append v writes a patch exactly when no periodic snapshot is due and fewer patches
   than the maximum depth exist; so once the maximum is reached every row is a snapshot.
   */
  lemma {:induction false} PatchExactly(changes: seq<Change>, v: int)
    requires 1 <= v <= |changes|
    ensures |LogOf(changes)| == |changes|
    ensures var cfg := changes[v - 1].cfg;
            !LogOf(changes)[v - 1].isSnapshot <==>
            v > 1 && (v - 1) % cfg.snapshotInterval != 0 && |Patches(LogOf(changes[..v - 1]))| < cfg.maxChainDepth
  {
    DiffRowsCounts(LogOf(changes[..v - 1]));
    RowAt(changes, v - 1);
    AppendIsPatchExactly(changes[..v - 1], changes[v - 1].cfg, changes[v - 1].state);
  }

  lemma {:induction false} AppendIsPatchExactly(before: seq<Change>, cfg: Config, next: State)
    ensures !NextRow(LogOf(before), cfg, next).isSnapshot <==>
            before != [] && |before| % cfg.snapshotInterval != 0 && DiffRows(LogOf(before)) < cfg.maxChainDepth
  {
    LogShape(before);
    if before != [] {
      ReplayIsLast(before);
    }
    NextIsPatchExactly(LogOf(before), cfg, next);
  }

  lemma {:induction false} NextIsPatchExactly(rows: seq<Row>, cfg: Config, next: State)
    requires forall i :: 0 <= i < |rows| ==> rows[i].version == i + 1
    requires rows != [] ==> Replay(rows) != Null
    ensures !NextRow(rows, cfg, next).isSnapshot <==>
            rows != [] && |rows| % cfg.snapshotInterval != 0 && DiffRows(rows) < cfg.maxChainDepth
  {
    UpToIsPrefix(rows, |rows|);
    assert rows[..|rows|] == rows;
  }

  lemma {:induction false} AfterMaxDepthOnlySnapshots(changes: seq<Change>, cfg: Config, n: nat, v: int)
    requires SameConfig(changes, cfg) && n < v <= |changes|
    requires |Patches(LogOf(changes[..n]))| >= cfg.maxChainDepth
    ensures |LogOf(changes)| == |changes| && LogOf(changes)[v - 1].isSnapshot
  {
    DiffRowsCounts(LogOf(changes[..n]));
    DiffRowsCounts(LogOf(changes[..v - 1]));
    var before := changes[..v - 1];
    assert before[..n] == changes[..n];
    DiffRowsGrow(before, n);
    assert changes[v - 1] in changes;
    PatchExactly(changes, v);
  }
}
