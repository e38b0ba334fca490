/** The reference-counted tables as a store that its statements change row by row, with the triggers
    that count references and collect local rows as the statements' own steps
    (janus-vfs/migrations/202605201500_initial.sql, and the register functions of
    janus-vfs/src/chunk/mod.rs, blob/mod.rs, vfs/entity.rs and vfs/commit.rs). */
module RefStore {
  import opened Wrappers
  import opened Bags
  import opened RefTables

  datatype DbError = PrimaryKey | ForeignKey | NoSuchRow | OnlyLocalToSynced

  class Store {
    var rows: Rows
    var holders: Holders
    /** The `object` table's unique remote locations. */
    var located: map<nat, nat>
    /** The chunks in `change_log`. */
    var log: set<Node>
    /** The rows after the last committed transaction: what caches may have seen. */
    ghost var base: Rows
    ghost var rank: Ranks
    ghost var bound: nat

    ghost predicate Exact()
      reads this
    {
      Counted(rows, holders, multiset{}) && Ordered(rows, located, rank, bound)
    }

    /** Between statements: counts are exact, and the log covers every chunk changed since the last commit. */
    ghost predicate Valid()
      reads this
    {
      Exact() && ChunksLogged(base, rows, log)
    }

    /** No transaction is open. */
    ghost predicate Committed()
      reads this
    {
      log == {} && base == rows
    }

    constructor ()
      ensures Valid() && Committed() && rows == map[] && holders == map[] && located == map[]
    {
      hide Counted;
      EmptyCounted();
      rows, holders, located, log, base, rank, bound := map[], map[], map[], {}, map[], map[], 0;
    }

    // ---------- triggers ----------

    /** `SET ref_count = ref_count + 1` */
    method Increment(n: Node, ghost extra: multiset<Node>)
      requires Counted(rows, holders, extra) && Ordered(rows, located, rank, bound) && n in rows
      modifies this`rows
      ensures Counted(rows, holders, extra + multiset{n}) && Ordered(rows, located, rank, bound)
      ensures rows == WithCount(old(rows), n, old(rows)[n].count + 1)
    {
      hide Counted, Ordered;
      IncrementCounts(rows, holders, extra, n);
      rows := rows[n := rows[n].(count := rows[n].count + 1)];
      SameRowsOrdered(old(rows), rows, located, rank, bound);
    }

    /** `SET ref_count = ref_count - 1`, and the collecting trigger behind it. That the count stays a
        natural number is the column's check: it never fires. */
    method Decrement(n: Node, ghost extra: multiset<Node>)
      requires Counted(rows, holders, extra + multiset{n}) && Ordered(rows, located, rank, bound) && n in rank
      modifies this`rows, this`log
      ensures Counted(rows, holders, extra) && Ordered(rows, located, rank, bound)
      ensures Swept(old(rows), rows) && rows.Keys <= old(rows).Keys
      ensures ChunksLogged(old(rows), rows, log) && old(log) <= log
      decreases rank[n], 1, 0
    {
      hide Counted, Ordered, ChunksLogged;
      DecrementCounts(rows, holders, extra, n);
      RecountLogged(rows, n, rows[n].count - 1, log);
      rows := WithCount(rows, n, rows[n].count - 1);
      SameRowsOrdered(old(rows), rows, located, rank, bound);
      if rows[n].count == 0 && rows[n].mode.Local? {
        ghost var before, beforeLog := rows, log;
        CollectRow(n, extra);
        ChunksLoggedStep(old(rows), before, beforeLog, rows, log);
      }
    }

    /** `DELETE` of a local row at zero: its reference rows go with it and give their counts back. */
    method CollectRow(n: Node, ghost extra: multiset<Node>)
      requires Counted(rows, holders, extra) && Ordered(rows, located, rank, bound)
      requires n in rows && n in rank && rows[n].count == 0 && rows[n].mode.Local?
      modifies this`rows, this`log
      ensures Counted(rows, holders, extra) && Ordered(rows, located, rank, bound)
      ensures Swept(old(rows) - {n}, rows) && n !in rows
      ensures ChunksLogged(old(rows), rows, log) && old(log) <= log
      decreases rank[n], 0, 2
    {
      hide Counted, Ordered, Swept, WithCount, Out, ChunksLogged, LogOf;
      var refs := rows[n].refs;
      RanksBelow(rows, located, rank, bound, n);
      DeletedOrdered(rows, located, rank, bound, n);
      DeleteCounts(rows, holders, extra, n);
      rows := rows - {n};
      log := log + LogOf(n);
      DeleteLogged(old(rows), n, log);
      ghost var before, beforeLog := rows, log;
      GiveBack(refs, extra, rank[n]);
      ChunksLoggedStep(old(rows), before, beforeLog, rows, log);
    }

    /** The count of every reference of a deleted row is given back. */
    method GiveBack(refs: seq<Node>, ghost extra: multiset<Node>, ghost below: nat)
      requires Counted(rows, holders, extra + multiset(refs)) && Ordered(rows, located, rank, bound)
      requires forall t :: t in refs ==> t in rank && rank[t] < below
      modifies this`rows, this`log
      ensures Counted(rows, holders, extra) && Ordered(rows, located, rank, bound)
      ensures Swept(old(rows), rows) && rows.Keys <= old(rows).Keys
      ensures ChunksLogged(old(rows), rows, log) && old(log) <= log
      decreases below, 0, 1
    {
      hide Counted, Ordered, Swept, ChunksLogged;
      SweptReflexive(rows);
      ChunksLoggedStart(rows, log);
      assert refs[0..] == refs;
      for i := 0 to |refs|
        invariant Counted(rows, holders, extra + multiset(refs[i..])) && Ordered(rows, located, rank, bound)
        invariant Swept(old(rows), rows) && rows.Keys <= old(rows).Keys
        invariant ChunksLogged(old(rows), rows, log) && old(log) <= log
      {
        ghost var before, beforeLog := rows, log;
        TakeNext(extra, refs, i);
        Decrement(refs[i], extra + multiset(refs[i + 1..]));
        SweptTransitive(old(rows), before, rows);
        ChunksLoggedStep(old(rows), before, beforeLog, rows, log);
      }
      assert extra + multiset(refs[|refs|..]) == extra;
    }

    // ---------- rows that hold a reference ----------

    /** `INSERT` into vfs, head, temp_file_chunks, sync_job or sync_job_queue. */
    method InsertHolder(h: Holder, n: Node) returns (r: Result<(), DbError>)
      requires Valid()
      modifies this`rows, this`holders
      ensures Valid()
      ensures r.Ok? <==> old(h !in holders && n in rows)
      ensures r.Ok? ==> holders == old(holders)[h := n] && rows == WithCount(old(rows), n, old(rows)[n].count + 1)
      ensures r.Err? ==> rows == old(rows) && holders == old(holders)
      ensures ChunksLogged(old(rows), rows, log)
    {
      hide Counted, ChunksLogged;
      ChunksLoggedStart(rows, log);
      if h in holders {
        return Err(PrimaryKey);
      }
      if n !in rows {
        return Err(ForeignKey);
      }
      RecountLogged(rows, n, rows[n].count + 1, log);
      Increment(n, multiset{});
      HoldCounts(rows, holders, multiset{}, h, n);
      holders := holders[h := n];
      ChunksLoggedStep(base, old(rows), old(log), rows, log);
      return Ok(());
    }

    /** `DELETE` of one holding row. */
    method DeleteHolder(h: Holder)
      requires Valid()
      modifies this`rows, this`holders, this`log
      ensures Valid() && holders == old(holders) - {h} && (old(h !in holders) ==> rows == old(rows))
      ensures ChunksLogged(old(rows), rows, log) && old(log) <= log
      ensures Swept(old(rows), rows) && CollectedExactly(old(rows), rows, holders)
    {
      hide Counted, Ordered, Swept, CollectedExactly, ChunksLogged;
      ChunksLoggedStart(rows, log);
      SweptReflexive(rows);
      if h in holders {
        var n := holders[h];
        ReleaseCounts(rows, holders, multiset{}, h);
        CountedIsClosed(rows, holders, multiset{});
        OrderedRank(rows, located, rank, bound, n);
        holders := holders - {h};
        Decrement(n, multiset{});
      }
      ChunksLoggedStep(base, old(rows), old(log), rows, log);
      SweptCollectsExactly(old(rows), rows, holders, located, rank, bound);
    }

    /** `DELETE` of several holding rows: `DELETE FROM vfs`, a file handle's chunks, a cleared queue. */
    method DeleteHolders(hs: set<Holder>)
      requires Valid()
      modifies this`rows, this`holders, this`log
      ensures Valid() && holders == old(holders) - hs
      ensures ChunksLogged(old(rows), rows, log) && old(log) <= log
      ensures Swept(old(rows), rows) && CollectedExactly(old(rows), rows, holders)
    {
      hide Counted, CollectedExactly, ChunksLogged;
      var rest := hs;
      ChunksLoggedStart(rows, log);
      while rest != {}
        invariant Valid() && rest <= hs
        invariant ChunksLogged(old(rows), rows, log) && old(log) <= log
        invariant holders == old(holders) - (hs - rest)
        invariant Swept(old(rows), rows)
        decreases |rest|
      {
        ghost var before, beforeLog := rows, log;
        var h :| h in rest;
        DeleteHolder(h);
        SweptTransitive(old(rows), before, rows);
        ChunksLoggedStep(old(rows), before, beforeLog, rows, log);
        rest := rest - {h};
      }
      SweptCollectsExactly(old(rows), rows, holders, located, rank, bound);
    }

    /** `UPDATE` of a holding row's reference: the new target is counted before the old one is given back. */
    method RepointHolder(h: Holder, n: Node) returns (r: Result<(), DbError>)
      requires Valid()
      modifies this`rows, this`holders, this`log
      ensures Valid()
      ensures ChunksLogged(old(rows), rows, log) && old(log) <= log
      ensures r.Ok? <==> old(h in holders && n in rows)
      ensures r.Err? ==> rows == old(rows) && holders == old(holders)
      ensures r.Ok? ==> holders == old(holders)[h := n]
      ensures r.Ok? && old(holders)[h] == n ==> rows == old(rows)
      ensures r.Ok? && old(holders)[h] != n ==>
        Swept(WithCount(old(rows), n, old(rows)[n].count + 1), rows)
        && CollectedExactly(WithCount(old(rows), n, old(rows)[n].count + 1), rows, holders)
    {
      hide Counted, Ordered, Swept, ChunksLogged, CollectedExactly;
      ChunksLoggedStart(rows, log);
      if h !in holders {
        return Err(NoSuchRow);
      }
      if n !in rows {
        return Err(ForeignKey);
      }
      var was := holders[h];
      if was != n {
        CountedIsClosed(rows, holders, multiset{});
        OrderedRank(rows, located, rank, bound, was);
        RecountLogged(rows, n, rows[n].count + 1, log);
        Increment(n, multiset{});
        ghost var counted, countedLog := rows, log;
        SwapHolder(rows, holders, h, n);
        holders := holders[h := n];
        Decrement(was, multiset{});
        ChunksLoggedStep(old(rows), counted, countedLog, rows, log);
        SweptCollectsExactly(counted, rows, holders, located, rank, bound);
      } else {
        assert holders[h := n] == holders;
      }
      ChunksLoggedStep(base, old(rows), old(log), rows, log);
      return Ok(());
    }

    // ---------- counted rows ----------

    /** `INSERT` of a row and of its reference rows. Any missing target aborts the transaction. */
    method InsertRow(n: Node, mode: Mode, refs: seq<Node>) returns (r: Result<(), DbError>)
      requires Valid() && !n.table.Object? && !mode.Untracked?
      requires forall t :: t in refs ==> !t.table.Object?
      modifies this`rows, this`log, this`rank, this`bound
      ensures Valid()
      ensures ChunksLogged(old(rows), rows, log) && old(log) <= log
      ensures r.Ok? <==> old(n !in rows && forall t :: t in Out(Row(0, mode, refs)) ==> t in rows)
      ensures r.Err? ==> rows == old(rows)
      ensures r.Ok? ==> n in rows && rows[n] == Row(0, mode, refs)
      ensures r.Ok? ==> rows.Keys == old(rows).Keys + {n}
      ensures r.Ok? ==> OnlyMoreCounted(old(rows), rows)
    {
      hide Counted, Ordered, Out, ChunksLogged, LogOf;
      ChunksLoggedStart(rows, log);
      if n in rows {
        return Err(PrimaryKey);
      }
      OutIsRefs(Row(0, mode, refs));
      if mode.Synced? && Node(Object, mode.remote) !in rows {
        return Err(ForeignKey);
      }
      if i :| 0 <= i < |refs| && refs[i] !in rows {
        return Err(ForeignKey);
      }
      NewRow(n);
      log := log + LogOf(n);
      forall t | t in refs ensures t in rank && rank[t] < rank[n] {
        OrderedRank(old(rows), located, old(rank), old(bound), t);
      }
      if mode.Synced? {
        OutSyncs(rows[n], mode.remote);
        Link(n, rows[n].(mode := mode), Node(Object, mode.remote));
      }
      LinkAll(n, refs);
      InsertLogged(old(rows), rows, n, log);
      ChunksLoggedStep(base, old(rows), old(log), rows, log);
      return Ok(());
    }

    /** The reference rows, one `INSERT` each. */
    method LinkAll(n: Node, refs: seq<Node>)
      requires Exact() && n in rows && rows[n].refs == [] && !rows[n].mode.Untracked?
      requires forall t :: t in refs ==> t in rows && t != n && !t.table.Object?
      requires n in rank && forall t :: t in refs ==> t in rank && rank[t] < rank[n]
      modifies this`rows
      ensures Exact() && rows.Keys == old(rows).Keys
      ensures rows[n] == old(rows)[n].(refs := refs)
      ensures OnlyMoreCounted(old(rows) - {n}, rows)
    {
      hide Counted, Ordered, Out;
      assert refs[..0] == [];
      for i := 0 to |refs|
        invariant Exact()
        invariant rows.Keys == old(rows).Keys && rows[n] == old(rows)[n].(refs := refs[..i])
        invariant OnlyMoreCounted(old(rows) - {n}, rows)
      {
        assert refs[..i + 1] == refs[..i] + [refs[i]];
        OutAppends(rows[n], refs[i]);
        Link(n, rows[n].(refs := refs[..i + 1]), refs[i]);
      }
      assert refs[..|refs|] == refs;
    }

    /** The bare row, before its reference rows. */
    method NewRow(n: Node)
      requires Exact() && n !in rows && !n.table.Object?
      modifies this`rows, this`rank, this`bound
      ensures Exact() && rows == old(rows)[n := Row(0, Local, [])]
      ensures rank == old(rank)[n := old(bound)] && bound == old(bound) + 1
    {
      hide Counted, Ordered;
      InsertCounts(rows, holders, multiset{}, n, Local);
      CountedIsClosed(rows, holders, multiset{});
      NewRowOrdered(rows, located, rank, bound, n);
      rows := rows[n := Row(0, Local, [])];
      rank, bound := rank[n := bound], bound + 1;
    }

    /** One more reference of the row `n`, and the trigger that counts it. */
    method Link(n: Node, r: Row, t: Node)
      requires Exact() && n in rows && t in rows && t != n
      requires forall u :: u in r.refs ==> u in rows[n].refs || (u == t && !t.table.Object? && rank[t] < rank[n])
      requires r.count == rows[n].count && multiset(Out(r)) == multiset(Out(rows[n])) + multiset{t}
      requires r.mode.Untracked? <==> rows[n].mode.Untracked?
      modifies this`rows
      ensures Exact()
      ensures rows == WithCount(old(rows), t, old(rows)[t].count + 1)[n := r]
    {
      hide Counted, Ordered, Out;
      Increment(t, multiset{});
      LinkKeepsOrder(rows, located, rank, bound, n, r, t);
      assert multiset{} + multiset{t} == multiset{t};
      RelinkCounts(rows, holders, multiset{}, n, r, t);
      rows := rows[n := r];
    }

    /** `SET mode = 'S', object_id = ?`: only a local row may change, and only to synced. */
    method MarkSynced(n: Node, remote: nat) returns (r: Result<(), DbError>)
      requires Valid() && !n.table.Object?
      modifies this`rows, this`log
      ensures Valid()
      ensures ChunksLogged(old(rows), rows, log) && old(log) <= log
      ensures r.Ok? <==> old(n in rows && Node(Object, remote) in rows
                             && (rows[n].mode.Local? || rows[n].mode == Synced(remote)))
      ensures r.Err? ==> rows == old(rows)
      ensures r.Ok? ==> n in rows && rows[n] == old(rows)[n].(mode := Synced(remote))
      ensures r.Ok? ==> rows.Keys == old(rows).Keys
      ensures r.Ok? ==> forall m :: m in rows && m != n ==>
                rows[m].mode == old(rows)[m].mode && rows[m].refs == old(rows)[m].refs && rows[m].count >= old(rows)[m].count
    {
      hide Counted, Ordered, ChunksLogged, LogOf, Out;
      ChunksLoggedStart(rows, log);
      if n !in rows {
        return Err(NoSuchRow);
      }
      TrackedMode(rows, located, rank, bound, n);
      var o := Node(Object, remote);
      if o !in rows {
        return Err(ForeignKey);
      }
      if rows[n].mode.Synced? {
        return if rows[n].mode.remote == remote then Ok(()) else Err(OnlyLocalToSynced);
      }
      log := log + LogOf(n);
      OutSyncs(rows[n], remote);
      Link(n, rows[n].(mode := Synced(remote)), o);
      SyncLogged(old(rows), rows, n, log);
      ChunksLoggedStep(base, old(rows), old(log), rows, log);
      return Ok(());
    }

    /** `create_or_mark_object` */
    method CreateObject(location: nat, unused: nat) returns (id: nat, isNew: bool)
      requires Valid() && Node(Object, unused) !in rows
      modifies this`rows, this`located, this`rank, this`bound
      ensures Valid()
      ensures isNew <==> location !in old(located)
      ensures ChunksLogged(old(rows), rows, log)
      ensures !isNew ==> rows == old(rows) && located == old(located) && id == located[location]
      ensures isNew ==> id == unused && located == old(located)[location := id]
                        && rows == old(rows)[Node(Object, id) := Row(0, Untracked, [])]
    {
      hide Counted;
      ReplaceLoggedObject(rows, Node(Object, unused), log);
      hide ChunksLogged;
      if location in located {
        return located[location], false;
      }
      id, isNew := unused, true;
      InsertCounts(rows, holders, multiset{}, Node(Object, id), Untracked);
      rows := rows[Node(Object, id) := Row(0, Untracked, [])];
      rank, bound := rank[Node(Object, id) := bound], bound + 1;
      located := located[location := id];
      ChunksLoggedStep(base, old(rows), log, rows, log);
    }

    /** The end of a transaction: the caches have been told of what is in the log. */
    method ClearLog()
      requires Valid()
      modifies this`log, this`base
      ensures Valid() && Committed()
    {
      hide Counted, Ordered;
      log, base := {}, rows;
    }

    /** What is kept of a chunk cache when a transaction commits: its answers fit the new rows. */
    method CommitCache(cache: map<Node, bool>) returns (kept: map<Node, bool>)
      requires Valid() && forall n :: n in cache ==> n.table.Chunk? && (cache[n] <==> n in base)
      modifies this`log, this`base
      ensures Valid() && base == rows && kept.Keys == cache.Keys - old(log)
      ensures forall n :: n in kept ==> kept[n] == cache[n] && (kept[n] <==> n in rows)
    {
      hide Counted, Ordered, ChunksLogged;
      kept := cache - log;
      ChunkCacheStaysRight(base, rows, log, cache);
      ClearLog();
    }
  }

  lemma InsertLogged(before: Rows, after: Rows, n: Node, log: set<Node>)
    requires n !in before && after.Keys == before.Keys + {n} && LogOf(n) <= log
    requires forall m :: m in before ==> m in after && after[m].mode == before[m].mode
    ensures ChunksLogged(before, after, log)
  {
  }

  lemma SyncLogged(before: Rows, after: Rows, n: Node, log: set<Node>)
    requires after.Keys == before.Keys && LogOf(n) <= log
    requires forall m :: m in before && m != n ==> after[m].mode == before[m].mode
    ensures ChunksLogged(before, after, log)
  {
  }

  lemma ReplaceLoggedObject(rows: Rows, o: Node, log: set<Node>)
    requires o.table.Object? && o !in rows
    ensures ChunksLogged(rows, rows, log) && ChunksLogged(rows, rows[o := Row(0, Untracked, [])], log)
  {
  }

  /** Every row of `before` is still there, unchanged but for a count that may have grown. */
  ghost predicate OnlyMoreCounted(before: Rows, after: Rows) {
    forall m :: m in before ==>
      m in after && after[m].mode == before[m].mode && after[m].refs == before[m].refs && before[m].count <= after[m].count
  }

  lemma DeletedOrdered(rows: Rows, located: map<nat, nat>, rank: Ranks, bound: nat, n: Node)
    requires Ordered(rows, located, rank, bound) && n in rows && rows[n].mode.Local?
    ensures Ordered(rows - {n}, located, rank, bound)
  {
    SameRowsOrdered(rows, rows - {n}, located, rank, bound);
  }

  lemma RanksBelow(rows: Rows, located: map<nat, nat>, rank: Ranks, bound: nat, n: Node)
    requires Ordered(rows, located, rank, bound) && n in rows
    ensures forall t :: t in rows[n].refs ==> t in rank && rank[t] < rank[n]
    ensures rows[n].mode.Local? ==> Out(rows[n]) == rows[n].refs
  {
  }

  lemma OrderedRank(rows: Rows, located: map<nat, nat>, rank: Ranks, bound: nat, n: Node)
    requires Ordered(rows, located, rank, bound) && n in rows
    ensures n in rank && rank[n] < bound
  {
  }

  lemma NewRowOrdered(rows: Rows, located: map<nat, nat>, rank: Ranks, bound: nat, n: Node)
    requires Ordered(rows, located, rank, bound) && n !in rows && !n.table.Object?
    requires forall m, t :: m in rows && t in Out(rows[m]) ==> t in rows
    ensures Ordered(rows[n := Row(0, Local, [])], located, rank[n := bound], bound + 1)
  {
    assert forall m, t :: m in rows && t in rows[m].refs ==> t in Out(rows[m]);
  }

  lemma EmptyCounted()
    ensures Counted(map[], map[], multiset{})
  {
    assert Edges(map[]) == map[] && Held(map[]) == map[];
  }

  lemma TrackedMode(rows: Rows, located: map<nat, nat>, rank: Ranks, bound: nat, n: Node)
    requires Ordered(rows, located, rank, bound) && n in rows && !n.table.Object?
    ensures rows[n].mode.Local? || rows[n].mode.Synced?
  {
  }

  lemma OutIsRefs(r: Row)
    ensures forall t :: t in Out(r) <==> t in r.refs || (r.mode.Synced? && t == Node(Object, r.mode.remote))
  {
  }

  lemma OutSyncs(r: Row, remote: nat)
    requires r.mode.Local?
    ensures multiset(Out(r.(mode := Synced(remote)))) == multiset(Out(r)) + multiset{Node(Object, remote)}
  {
  }

  lemma OutAppends(r: Row, t: Node)
    ensures multiset(Out(r.(refs := r.refs + [t]))) == multiset(Out(r)) + multiset{t}
  {
  }

  lemma SwapHolder(rows: Rows, holders: Holders, h: Holder, n: Node)
    requires h in holders && Counted(rows, holders, multiset{} + multiset{n})
    ensures Counted(rows, holders[h := n], multiset{} + multiset{holders[h]})
  {
    hide Counted;
    var x, y := multiset{n}, multiset{holders[h]};
    assert multiset{} + x == x && multiset{} + y == y && x + y == y + x;
    ReleaseCounts(rows, holders, x, h);
    HoldCounts(rows, holders - {h}, y, h, n);
    assert (holders - {h})[h := n] == holders[h := n];
  }

  lemma TakeNext(extra: multiset<Node>, refs: seq<Node>, i: nat)
    requires i < |refs|
    ensures extra + multiset(refs[i..]) == extra + multiset(refs[i + 1..]) + multiset{refs[i]}
  {
    assert refs[i..] == [refs[i]] + refs[i + 1..];
  }

  lemma LinkKeepsOrder(rows: Rows, located: map<nat, nat>, rank: Ranks, bound: nat, n: Node, r: Row, t: Node)
    requires Ordered(rows, located, rank, bound) && n in rows && t in rows
    requires forall u :: u in r.refs ==> u in rows[n].refs || (u == t && !t.table.Object? && rank[t] < rank[n])
    requires r.mode.Untracked? <==> rows[n].mode.Untracked?
    ensures Ordered(rows[n := r], located, rank, bound)
  {
  }
}
