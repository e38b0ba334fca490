/** Pushing local rows: a job queues every pushable row, rounds of uploads drain the queue, failed attempts
    are retried, and local transactions run in between (janus-vfs/src/sync/push.rs 67-330). A transaction
    that fails is rolled back, so its failure is modelled before it begins. */
module Push {
  import opened Wrappers
  import opened Bags
  import opened RefTables
  import opened RefStore

  /** The columns of a `sync_job_queue` row beside the item. */
  datatype Job = Job(size: nat, pending: bool)

  type Queue = map<Node, Job>

  /** A local transaction's statements on the counted tables; none touches the job or its queue. */
  datatype LocalOp =
    | Hold(h: Holder, n: Node)
    | Release(h: Holder)
    | Repoint(h: Holder, n: Node)
    | Register(n: Node, refs: seq<Node>)

  predicate Ordinary(h: Holder) {
    !h.QueueRow? && !h.JobRow?
  }

  /** What goes wrong in a round: the transaction that fills its upload, or something behind it. */
  datatype Fault = NoFault | FillFails | UploadFails

  /** The remote storage: what an empty upload has room for, the location an attempt's upload gives an item,
      and what goes wrong in an attempt's rounds. */
  datatype Storage = Storage(budget: nat, locate: (Node, nat) -> nat, fault: (nat, nat) -> Fault)

  /** Nothing goes wrong in the first `rounds` rounds of an attempt. */
  predicate NoFaults(storage: Storage, attempt: nat, rounds: nat) {
    forall k: nat :: k < rounds ==> storage.fault(attempt, k).NoFault?
  }

  /** Something goes wrong in some round of the attempt. */
  ghost predicate Faulty(storage: Storage, attempt: nat) {
    exists k: nat :: !storage.fault(attempt, k).NoFault?
  }

  ghost predicate LocatesAt(storage: Storage, homes: Node -> nat) {
    OwnHomes(homes) && forall n, attempt :: storage.locate(n, attempt) == homes(n)
  }

  datatype PushError = AttemptFailed | TooManyErrors | HeadEntryNotFound

  /** The queue's rows hold their items, nothing else has the form of a queue row, and there is a job. */
  ghost predicate QueueHeld(queue: Queue, holders: Holders) {
    && (forall n :: n in queue ==> QueueRow(n) in holders && holders[QueueRow(n)] == n && !n.table.Object?)
    && (forall h :: h in holders && h.QueueRow? ==> h.item in queue)
    && (queue != map[] ==> JobRow in holders)
  }

  /** The queued items are there and stored as they were. */
  ghost predicate SameModes(queue: Queue, before: Rows, now: Rows) {
    forall n :: n in queue ==> n in before && n in now && now[n].mode == before[n].mode
  }

  ghost predicate AllLocal(items: set<Node>, rows: Rows) {
    forall n :: n in items ==> n in rows && rows[n].mode.Local?
  }

  /** Every item of the job is queued, or has been synced; none is lost. */
  ghost predicate Accounted(job: set<Node>, queue: Queue, rows: Rows) {
    && queue.Keys <= job
    && forall n :: n in job && n !in queue ==> n in rows && rows[n].mode.Synced?
  }

  /** The holding rows without the queue rows of what is no longer queued. */
  function Unqueued(holders: Holders, queue: Queue): Holders {
    map h | h in holders && (h.QueueRow? ==> h.item in queue) :: holders[h]
  }

  lemma HeldQueue(queue: Queue, holders: Holders)
    requires QueueHeld(queue, holders)
    ensures Unqueued(holders, queue) == holders
  {
  }

  lemma UnqueueOne(queue: Queue, holders: Holders, n: Node)
    requires QueueHeld(queue, holders)
    ensures holders - {QueueRow(n)} == Unqueued(holders, queue - {n})
  {
  }

  lemma UnqueueMore(holders: Holders, queue: Queue, fewer: Queue)
    requires fewer.Keys <= queue.Keys
    ensures Unqueued(Unqueued(holders, queue), fewer) == Unqueued(holders, fewer)
  {
  }

  /** The item's row is synced with the object of the location. */
  predicate SyncedAt(rows: Rows, located: map<nat, nat>, n: Node, location: nat) {
    location in located && n in rows && rows[n].mode == Synced(located[location])
  }

  /** `n` became synced with the object `id`, and then went what nothing refers to any more. */
  ghost predicate Uploaded(n: Node, id: nat, before: Rows, after: Rows, holders: Holders) {
    exists marked: Rows :: Marked(n, id, before, marked) && Swept(marked, after) && CollectedExactly(marked, after, holders)
  }

  ghost predicate Marked(n: Node, id: nat, before: Rows, marked: Rows) {
    && marked.Keys == before.Keys + {Node(Object, id)}
    && forall m :: m in before ==>
         && marked[m].refs == before[m].refs && before[m].count <= marked[m].count
         && marked[m].mode == if m == n then Synced(id) else before[m].mode
  }

  /** What one local statement comes to. What the tables refuse changes nothing. */
  ghost predicate Performed(op: LocalOp, rows: Rows, holders: Holders, rows': Rows, holders': Holders) {
    match op
    case Hold(h, n) =>
      if Ordinary(h) && h !in holders && n in rows
      then holders' == holders[h := n] && rows' == WithCount(rows, n, rows[n].count + 1)
      else holders' == holders && rows' == rows
    case Release(h) =>
      if Ordinary(h) && h in holders
      then holders' == holders - {h} && Swept(rows, rows') && CollectedExactly(rows, rows', holders')
      else holders' == holders && rows' == rows
    case Repoint(h, n) =>
      if Ordinary(h) && h in holders && n in rows && holders[h] != n
      then
        && holders' == holders[h := n] && Swept(WithCount(rows, n, rows[n].count + 1), rows')
        && CollectedExactly(WithCount(rows, n, rows[n].count + 1), rows', holders')
      else holders' == holders && rows' == rows
    case Register(n, refs) =>
      && holders' == holders
      && if !n.table.Object? && n !in rows && (forall t :: t in refs ==> !t.table.Object? && t in rows)
         then rows'.Keys == rows.Keys + {n} && rows'[n] == Row(0, Local, refs) && OnlyMoreCounted(rows, rows')
         else rows' == rows
  }

  /** What several come to, one after the other. */
  ghost predicate AllPerformed(ops: seq<LocalOp>, rows: Rows, holders: Holders, rows': Rows, holders': Holders)
    decreases |ops|
  {
    if ops == [] then rows' == rows && holders' == holders
    else
      var init, last := ops[..|ops| - 1], ops[|ops| - 1];
      exists r, h :: AllPerformed(init, rows, holders, r, h) && Performed(last, r, h, rows', holders')
  }

  lemma OneMorePerformed(ops: seq<LocalOp>, i: nat, rows: Rows, holders: Holders, r: Rows, h: Holders, rows': Rows,
                         holders': Holders)
    requires i < |ops| && AllPerformed(ops[..i], rows, holders, r, h) && Performed(ops[i], r, h, rows', holders')
    ensures AllPerformed(ops[..i + 1], rows, holders, rows', holders')
  {
    hide Performed;
    assert ops[..i + 1][..i] == ops[..i];
  }

  function Pushable(rows: Rows): set<Node> {
    set n | n in rows && !n.table.Object? && rows[n].mode.Local? && rows[n].count > 0
  }

  // ---------- what changes keep ----------

  lemma QueuedIsThere(queue: Queue, rows: Rows, holders: Holders)
    requires QueueHeld(queue, holders) && Counted(rows, holders, multiset{})
    ensures SameModes(queue, rows, rows)
  {
    CountedIsClosed(rows, holders, multiset{});
    hide Counted;
    forall n | n in queue ensures n in rows {
      assert holders[QueueRow(n)] == n;
    }
  }

  /** The queue's rows pin their items: no collection takes one away. */
  lemma SweepKeepsModes(queue: Queue, before: Rows, after: Rows, holders: Holders)
    requires Swept(before, after) && QueueHeld(queue, holders) && Counted(after, holders, multiset{})
    ensures SameModes(queue, before, after)
  {
    QueuedIsThere(queue, after, holders);
    hide Counted, QueueHeld;
  }

  lemma SweepKeepsSynced(job: set<Node>, queue: Queue, before: Rows, after: Rows)
    requires Accounted(job, queue, before) && Swept(before, after)
    ensures Accounted(job, queue, after)
  {
  }

  lemma ModesTransitive(queue: Queue, a: Rows, b: Rows, c: Rows)
    requires SameModes(queue, a, b) && SameModes(queue, b, c)
    ensures SameModes(queue, a, c)
  {
  }

  lemma HoldKeeps(job: set<Node>, queue: Queue, rows: Rows, holders: Holders, h: Holder, n: Node, rows': Rows,
                  holders': Holders)
    requires QueueHeld(queue, holders) && SameModes(queue, rows, rows) && Accounted(job, queue, rows) && Ordinary(h)
    requires (rows' == rows && holders' == holders)
             || (h !in holders && n in rows && holders' == holders[h := n] && rows' == WithCount(rows, n, rows[n].count + 1))
    ensures QueueHeld(queue, holders') && SameModes(queue, rows, rows') && Accounted(job, queue, rows')
    ensures SameSynced(rows, rows')
  {
  }

  lemma ReleaseKeeps(queue: Queue, holders: Holders, h: Holder)
    requires QueueHeld(queue, holders) && Ordinary(h)
    ensures QueueHeld(queue, holders - {h})
  {
  }

  lemma RepointKeeps(job: set<Node>, queue: Queue, rows: Rows, holders: Holders, h: Holder, n: Node, rows': Rows,
                     holders': Holders, done: bool)
    requires QueueHeld(queue, holders) && SameModes(queue, rows, rows) && Accounted(job, queue, rows) && Ordinary(h)
    requires Counted(rows', holders', multiset{})
    requires !done ==> rows' == rows && holders' == holders
    requires done ==> h in holders && n in rows && holders' == holders[h := n]
    requires done && holders[h] == n ==> rows' == rows
    requires done && holders[h] != n ==> Swept(WithCount(rows, n, rows[n].count + 1), rows')
    ensures QueueHeld(queue, holders') && SameModes(queue, rows, rows') && Accounted(job, queue, rows')
    ensures SameSynced(rows, rows')
  {
    hide Counted, Swept;
    if done && holders[h] != n {
      var more := WithCount(rows, n, rows[n].count + 1);
      assert SameModes(queue, rows, more) && Accounted(job, queue, more) && SameSynced(rows, more);
      assert QueueHeld(queue, holders');
      hide QueueHeld, SameModes, Accounted, WithCount, SameSynced;
      SweptSameSynced(more, rows');
      SyncedTransitive(rows, more, rows');
      SweepKeepsModes(queue, more, rows', holders');
      SweepKeepsSynced(job, queue, more, rows');
      ModesTransitive(queue, rows, more, rows');
    }
  }

  lemma RegisterKeeps(job: set<Node>, queue: Queue, rows: Rows, rows': Rows, n: Node)
    requires SameModes(queue, rows, rows) && Accounted(job, queue, rows) && OnlyMoreCounted(rows, rows')
    requires n !in rows && rows'.Keys == rows.Keys + {n} && rows'[n].mode.Local?
    ensures SameModes(queue, rows, rows') && Accounted(job, queue, rows') && SameSynced(rows, rows')
  {
  }

  // ---------- choosing the next item ----------

  function Fitting(queue: Queue, max: Option<nat>): set<Node> {
    set n | n in queue && !queue[n].pending && (max.Some? ==> queue[n].size <= max.value)
  }

  predicate Largest(queue: Queue, items: set<Node>, n: Node) {
    n in items && n in queue && forall m :: m in items && m in queue ==> queue[m].size <= queue[n].size
  }

  lemma {:induction false} LargestExists(queue: Queue, items: set<Node>)
    requires items != {} && items <= queue.Keys
    ensures exists n :: Largest(queue, items, n)
    decreases |items|
  {
    var n :| n in items;
    if items == {n} {
      assert Largest(queue, items, n);
    } else {
      assert items - {n} == {} ==> items == {n};
      LargestExists(queue, items - {n});
      var m :| Largest(queue, items - {n}, m);
      assert Largest(queue, items, if queue[n].size <= queue[m].size then m else n);
    }
  }

  /** `next_sync_item`. Which of several largest items comes first is up to the database. */
  type Chooser = (Queue, Option<nat>) -> Option<Node>

  ghost predicate Chooses(choose: Chooser, queue: Queue, max: Option<nat>) {
    var n := choose(queue, max);
    (n.None? ==> Fitting(queue, max) == {}) && (n.Some? ==> Largest(queue, Fitting(queue, max), n.value))
  }

  ghost predicate ChoosesLargest(choose: Chooser) {
    forall queue, max :: Chooses(choose, queue, max)
  }

  ghost function PickLargest(queue: Queue, max: Option<nat>): (r: Option<Node>)
    ensures r.None? ==> Fitting(queue, max) == {}
    ensures r.Some? ==> Largest(queue, Fitting(queue, max), r.value)
  {
    if Fitting(queue, max) == {} then None
    else
      LargestExists(queue, Fitting(queue, max));
      var n :| Largest(queue, Fitting(queue, max), n);
      Some(n)
  }

  lemma ChooserExists() returns (choose: Chooser)
    ensures ChoosesLargest(choose)
  {
    hide Largest, Fitting;
    choose := (queue, max) => PickLargest(queue, max);
  }

  /** What one take makes of the queue: a local item is marked pending and returned; one that turns out to
      be synced leaves the queue, and nothing is returned. */
  ghost predicate Takes(choose: Chooser, before: Queue, rows: Rows, max: Option<nat>, after: Queue, r: Option<Node>) {
    match choose(before, max)
    case None => r.None? && after == before
    case Some(n) =>
      n in before && n in rows &&
      if rows[n].mode.Local? then r == Some(n) && after == before[n := Job(before[n].size, true)]
      else rows[n].mode.Synced? && r.None? && after == before - {n}
  }

  function Without(queue: Queue, n: Option<Node>): Queue {
    if n.Some? then queue - {n.value} else queue
  }

  /** The queue without the item a first take finds in `space` and the one a second take finds in any. */
  function AfterTakes(choose: Chooser, queue: Queue, space: nat): Queue {
    var rest := Without(queue, choose(queue, Some(space)));
    Without(rest, choose(rest, None))
  }

  /** Both takes of an upload that has room for `space` would find synced items, the first if anything
      fits, and something else is waiting. */
  ghost predicate GivesUp(choose: Chooser, queue: Queue, rows: Rows, space: nat) {
    var first := choose(queue, Some(space));
    var second := choose(Without(queue, first), None);
    && (first.Some? ==> SyncedRow(rows, first.value))
    && second.Some? && SyncedRow(rows, second.value)
    && AfterTakes(choose, queue, space) != map[]
  }

  function AllWaiting(queue: Queue): (r: Queue)
    ensures r.Keys == queue.Keys
  {
    map n | n in queue :: queue[n].(pending := false)
  }

  ghost predicate NothingPending(queue: Queue) {
    forall n :: n in queue ==> !queue[n].pending
  }

  lemma FirstTake(choose: Chooser, queue: Queue, rows: Rows, space: nat, mid: Queue, r: Option<Node>)
    requires Takes(choose, queue, rows, Some(space), mid, r)
    ensures r.Some? ==> !GivesUp(choose, queue, rows, space)
    ensures r.None? ==> mid == Without(queue, choose(queue, Some(space)))
  {
  }

  /** An upload stays empty over a queue that is not exactly when both of its takes find synced items. */
  lemma SecondTake(choose: Chooser, queue: Queue, rows: Rows, space: nat, mid: Queue, rows': Rows, after: Queue, r: Option<Node>)
    requires ChoosesLargest(choose) && NothingPending(queue) && SameModes(mid, rows, rows')
    requires Takes(choose, queue, rows, Some(space), mid, None) && Takes(choose, mid, rows', None, after, r)
    ensures r.None? && after != map[] <==> GivesUp(choose, queue, rows, space)
    ensures r.None? ==> after == AfterTakes(choose, queue, space)
  {
    assert Chooses(choose, mid, None);
    if n :| n in mid {
      assert choose(mid, None).None? ==> n in Fitting(mid, None);
    }
  }

  /** A queue whose items are all local is never given up. */
  lemma LocalNeverGivesUp(choose: Chooser, queue: Queue, rows: Rows, space: nat)
    requires ChoosesLargest(choose) && GivesUp(choose, queue, rows, space)
    ensures exists n :: n in queue && SyncedRow(rows, n)
  {
    var rest := Without(queue, choose(queue, Some(space)));
    assert Chooses(choose, rest, None);
    assert choose(rest, None).value in queue;
  }

  /** Two synced items that are larger than all others end every attempt, whatever else is waiting. */
  lemma LargerSyncedItemsHide(choose: Chooser, queue: Queue, rows: Rows, space: nat, x: Node, y: Node)
    requires ChoosesLargest(choose) && NothingPending(queue)
    requires x != y && x in queue && y in queue && SyncedRow(rows, x) && SyncedRow(rows, y)
    requires queue[x].size <= space && queue[y].size <= space
    requires forall n :: n in queue && n != x && n != y ==> queue[n].size < queue[x].size && queue[n].size < queue[y].size
    ensures GivesUp(choose, queue, rows, space) <==> queue.Keys != {x, y}
    ensures AfterTakes(choose, queue, space) == queue - {x, y}
  {
    assert Chooses(choose, queue, Some(space)) && x in Fitting(queue, Some(space)) && y in Fitting(queue, Some(space));
    var first := choose(queue, Some(space)).value;
    assert first == x || first == y;
    var other := if first == x then y else x;
    var rest := queue - {first};
    assert Chooses(choose, rest, None) && other in Fitting(rest, None);
    assert choose(rest, None) == Some(other);
    assert rest - {other} == queue - {x, y};
    if n :| n in queue && n != x && n != y {
      assert n in queue - {x, y};
    }
    assert queue.Keys != {x, y} ==> exists n :: n in queue && n != x && n != y;
  }

  /** The largest fitting item was taken from the queue because it was synced already. */
  ghost predicate FoundSynced(before: Queue, after: Queue, rows: Rows, max: Option<nat>) {
    exists n ::
      && Largest(before, Fitting(before, max), n) && n in before && !before[n].pending
      && after == before - {n} && n in rows && !rows[n].mode.Local?
  }

  lemma UnqueueKeeps(job: set<Node>, queue: Queue, holders: Holders, rows: Rows, n: Node)
    requires QueueHeld(queue, holders) && Accounted(job, queue, rows) && n in rows && rows[n].mode.Synced?
    ensures QueueHeld(queue - {n}, holders - {QueueRow(n)}) && Accounted(job, queue - {n}, rows)
  {
  }

  lemma MarkingKeeps(job: set<Node>, queue: Queue, holders: Holders, rows: Rows, n: Node, size: nat, pending: bool)
    requires QueueHeld(queue, holders) && Accounted(job, queue, rows) && n in queue
    ensures QueueHeld(queue[n := Job(size, pending)], holders) && Accounted(job, queue[n := Job(size, pending)], rows)
  {
  }

  /** Items whose rows are marked pending and local: ready to be uploaded. */
  ghost predicate Prepared(picked: seq<Node>, queue: Queue, rows: Rows) {
    && (forall i :: 0 <= i < |picked| ==>
          picked[i] in queue && queue[picked[i]].pending && picked[i] in rows && rows[picked[i]].mode.Local?)
    && (forall i, j :: 0 <= i < j < |picked| ==> picked[i] != picked[j])
  }

  /** The pending rows are exactly the prepared ones. */
  ghost predicate Picked(picked: seq<Node>, queue: Queue, rows: Rows) {
    Prepared(picked, queue, rows) && forall n :: n in queue && queue[n].pending ==> n in picked
  }

  /** Whatever left the queue was synced before. */
  ghost predicate OnlySyncedLeft(before: Queue, queue: Queue, rows: Rows) {
    queue.Keys <= before.Keys && forall n :: n in before && n !in queue ==> n in rows && !rows[n].mode.Local?
  }

  lemma PickMore(picked: seq<Node>, queue: Queue, rows: Rows, n: Node, size: nat)
    requires Picked(picked, queue, rows) && n in queue && !queue[n].pending && n in rows && rows[n].mode.Local?
    ensures Picked(picked + [n], queue[n := Job(size, true)], rows)
    ensures Waiting(queue[n := Job(size, true)]) == Waiting(queue) - {n} && n in Waiting(queue)
  {
  }

  lemma PickedKept(picked: seq<Node>, queue: Queue, rows: Rows, after: Queue, rows': Rows, max: Option<nat>)
    requires Picked(picked, queue, rows) && FoundSynced(queue, after, rows, max) && SameModes(after, rows, rows')
    ensures Picked(picked, after, rows')
    ensures after.Keys < queue.Keys && exists n :: n in Waiting(queue) && Waiting(after) == Waiting(queue) - {n}
  {
    var n :| n in queue && !queue[n].pending && after == queue - {n} && n in rows && !rows[n].mode.Local?;
    assert Waiting(after) == Waiting(queue) - {n} && n in Waiting(queue);
    assert n in queue.Keys && n !in after.Keys;
    forall i | 0 <= i < |picked| ensures picked[i] in after && picked[i] in rows' && rows'[picked[i]].mode.Local? {
    }
  }

  lemma LeftMore(before: Queue, rows: Rows, queue: Queue, now: Rows, after: Queue, max: Option<nat>)
    requires OnlySyncedLeft(before, queue, rows) && SameModes(queue, rows, now) && FoundSynced(queue, after, now, max)
    ensures OnlySyncedLeft(before, after, rows)
  {
  }

  lemma FewerModes(queue: Queue, after: Queue, a: Rows, b: Rows)
    requires SameModes(queue, a, b) && after.Keys <= queue.Keys
    ensures SameModes(after, a, b)
  {
  }

  function Waiting(queue: Queue): set<Node> {
    set n | n in queue && !queue[n].pending
  }

  class PushTask {
    const store: Store
    const choose: Chooser
    const storage: Storage
    /** Where the items belong, if the storage gives each of them a location of its own. */
    ghost const homes: Node -> nat
    var queue: Queue
    /** The rows that the running job queued when it was created. */
    ghost var job: set<Node>

    ghost predicate Valid()
      reads this, store
    {
      && store.Valid() && QueueHeld(queue, store.holders) && Accounted(job, queue, store.rows)
      && ChoosesLargest(choose)
    }

    constructor (store: Store, choose: Chooser, storage: Storage, ghost homes: Node -> nat)
      requires store.Valid() && (forall h :: h in store.holders ==> !h.QueueRow?) && ChoosesLargest(choose)
      ensures Valid() && this.store == store && this.choose == choose && this.storage == storage && this.homes == homes
      ensures queue == map[] && job == {}
    {
      this.store, this.choose, this.storage, this.homes := store, choose, storage, homes;
      queue, job := map[], {};
    }

    /** If uploads put every item at its own location, the object rows fit the synced items. */
    ghost predicate Homed()
      reads this, store
    {
      LocatesAt(storage, homes) ==> AtHome(homes, store.rows, store.located)
    }

    // ---------- local transactions ----------

    /** Any local transactions. What is queued stays queued, present and stored as it was. */
    method LocalActivity(ops: seq<LocalOp>)
      requires Valid()
      modifies store`rows, store`holders, store`log, store`base, store`rank, store`bound
      ensures Valid() && SameModes(queue, old(store.rows), store.rows) && SameSynced(old(store.rows), store.rows)
      ensures AllPerformed(ops, old(store.rows), old(store.holders), store.rows, store.holders)
      ensures old(store.Committed()) ==> store.Committed()
    {
      hide Counted, Ordered, QueueHeld, SameModes, Accounted, SameSynced, Performed;
      QueuedIsThere(queue, store.rows, store.holders);
      SyncedReflexive(store.rows);
      assert ops[..0] == [];
      for i := 0 to |ops|
        invariant Valid() && SameModes(queue, old(store.rows), store.rows) && SameSynced(old(store.rows), store.rows)
        invariant AllPerformed(ops[..i], old(store.rows), old(store.holders), store.rows, store.holders)
        invariant old(store.Committed()) ==> store.Committed()
      {
        ghost var before, holders := store.rows, store.holders;
        LocalStatement(ops[i]);
        OneMorePerformed(ops, i, old(store.rows), old(store.holders), before, holders, store.rows, store.holders);
        store.ClearLog();
        ModesTransitive(queue, old(store.rows), before, store.rows);
        SyncedTransitive(old(store.rows), before, store.rows);
      }
      assert ops[..|ops|] == ops;
    }

    method LocalStatement(op: LocalOp)
      requires Valid()
      modifies store`rows, store`holders, store`log, store`rank, store`bound
      ensures Valid() && SameModes(queue, old(store.rows), store.rows) && SameSynced(old(store.rows), store.rows)
      ensures Performed(op, old(store.rows), old(store.holders), store.rows, store.holders)
    {
      hide Counted, Ordered, Swept, CollectedExactly, QueueHeld, SameModes, Accounted, OnlyMoreCounted, SameSynced;
      ghost var rows, holders := store.rows, store.holders;
      QueuedIsThere(queue, rows, holders);
      SyncedReflexive(rows);
      match op {
        case Hold(h, n) =>
          if Ordinary(h) {
            var done := store.InsertHolder(h, n);
            HoldKeeps(job, queue, rows, holders, h, n, store.rows, store.holders);
          }
        case Release(h) =>
          if Ordinary(h) {
            store.DeleteHolder(h);
            ReleaseKeeps(queue, holders, h);
            SweepKeepsModes(queue, rows, store.rows, store.holders);
            SweepKeepsSynced(job, queue, rows, store.rows);
            SweptSameSynced(rows, store.rows);
          }
        case Repoint(h, n) =>
          if Ordinary(h) {
            var done := store.RepointHolder(h, n);
            RepointKeeps(job, queue, rows, holders, h, n, store.rows, store.holders, done.Ok?);
          }
        case Register(n, refs) =>
          if !n.table.Object? && forall t :: t in refs ==> !t.table.Object? {
            var done := store.InsertRow(n, Local, refs);
            if done.Ok? { RegisterKeeps(job, queue, rows, store.rows, n); }
          }
      }
    }

    // ---------- one round ----------

    /** `next_queue_item`: the largest waiting item that fits is marked pending. One that turns out to be
        synced already leaves the queue, and nothing is returned although others may be waiting. */
    method NextQueueItem(max: Option<nat>) returns (r: Option<Node>)
      requires Valid()
      modifies this`queue, store`rows, store`holders, store`log
      ensures Valid() && SameModes(queue, old(store.rows), store.rows)
      ensures SameSynced(old(store.rows), store.rows)
      ensures Takes(choose, old(queue), old(store.rows), max, queue, r)
      ensures r.Some? ==> Largest(old(queue), Fitting(old(queue), max), r.value)
      ensures r.Some? ==>
        r.value in Fitting(old(queue), max) && queue == old(queue)[r.value := Job(old(queue)[r.value].size, true)]
      ensures r.Some? ==> store.rows == old(store.rows) && r.value in store.rows && store.rows[r.value].mode.Local?
      ensures r.None? ==> (Fitting(old(queue), max) == {} && queue == old(queue) && store.rows == old(store.rows))
                          || FoundSynced(old(queue), queue, old(store.rows), max)
      ensures Swept(old(store.rows), store.rows) && store.holders == Unqueued(old(store.holders), queue)
    {
      hide SameSynced, Counted, Ordered, QueueHeld, SameModes, Accounted, Swept, CollectedExactly, Unqueued;
      QueuedIsThere(queue, store.rows, store.holders);
      HeldQueue(queue, store.holders);
      SweptReflexive(store.rows);
      SyncedReflexive(store.rows);
      assert Chooses(choose, queue, max);
      hide ChoosesLargest;
      var chosen := choose(queue, max);
      if chosen.None? { return None; }
      var n := chosen.value;
      ghost var before, rows := queue, store.rows;
      QueuedRow(queue, rows, store.holders, n);
      QueuedMode(rows, store.located, store.rank, store.bound, n);
      MarkingKeeps(job, queue, store.holders, rows, n, queue[n].size, true);
      HeldQueue(queue[n := Job(queue[n].size, true)], store.holders);
      queue := queue[n := Job(queue[n].size, true)];
      if store.rows[n].mode.Local? {
        SameKeysSameModes(before, queue, rows, rows);
        return Some(n);
      }
      RemoveQueued(n);
      assert before - {n} == queue;
      return None;
    }

    /** `remove_sync_job_*` */
    method RemoveQueued(n: Node)
      requires Valid() && n in store.rows && store.rows[n].mode.Synced?
      modifies this`queue, store`rows, store`holders, store`log
      ensures SameSynced(old(store.rows), store.rows)
      ensures Valid() && queue == old(queue) - {n} && SameModes(queue, old(store.rows), store.rows)
      ensures Swept(old(store.rows), store.rows) && store.holders == Unqueued(old(store.holders), queue)
    {
      hide SameSynced, Counted, Ordered, QueueHeld, SameModes, Accounted, Swept, CollectedExactly, Unqueued;
      UnqueueOne(queue, store.holders, n);
      UnqueueKeeps(job, queue, store.holders, store.rows, n);
      store.DeleteHolder(QueueRow(n));
      queue := queue - {n};
      SweepKeepsModes(queue, old(store.rows), store.rows, store.holders);
      SweepKeepsSynced(job, queue, old(store.rows), store.rows);
      SweptSameSynced(old(store.rows), store.rows);
    }

    /** Filling one upload. What an item takes of its room is up to the uploader. It stays empty over a
        queue that is not exactly when both takes find synced items. */
    method Fill() returns (picked: seq<Node>)
      requires Valid() && Picked([], queue, store.rows)
      modifies this`queue, store`rows, store`holders, store`log
      ensures Valid() && SameModes(queue, old(store.rows), store.rows) && Picked(picked, queue, store.rows)
      ensures SameSynced(old(store.rows), store.rows)
      ensures OnlySyncedLeft(old(queue), queue, old(store.rows))
      ensures picked == [] && queue != map[] <==> GivesUp(choose, old(queue), old(store.rows), storage.budget)
      ensures GivesUp(choose, old(queue), old(store.rows), storage.budget) ==>
        queue == AfterTakes(choose, old(queue), storage.budget)
      ensures Swept(old(store.rows), store.rows) && store.holders == Unqueued(old(store.holders), queue)
    {
      hide SameSynced, Counted, Ordered, QueueHeld, SameModes, Accounted, Picked, OnlySyncedLeft, Fitting, Waiting;
      hide ChoosesLargest, Takes, GivesUp, AfterTakes, Swept, Unqueued;
      ghost var before, rows, holders := queue, store.rows, store.holders;
      QueuedIsThere(queue, rows, store.holders);
      HeldQueue(queue, holders);
      SweptReflexive(rows);
      SyncedReflexive(rows);
      NothingLeft(queue, rows);
      NonePicked(queue, rows);
      picked := [];
      var space, full := storage.budget, false;
      while !full
        invariant Valid() && SameModes(queue, rows, store.rows) && Picked(picked, queue, store.rows)
        invariant OnlySyncedLeft(before, queue, rows) && SameSynced(rows, store.rows)
        invariant full ==> picked != []
        invariant picked == [] ==> queue == before && store.rows == rows && space == storage.budget
        invariant picked != [] ==> !GivesUp(choose, before, rows, storage.budget)
        invariant Swept(rows, store.rows) && store.holders == Unqueued(holders, queue)
        decreases |Waiting(queue)|
      {
        ghost var was, now := queue, store.rows;
        var item := TakeNext(Some(space), picked, before, rows);
        SyncedTransitive(rows, now, store.rows);
        SweptTransitive(rows, now, store.rows);
        UnqueueMore(holders, was, queue);
        if picked == [] { FirstTake(choose, before, rows, storage.budget, queue, item); }
        if item.Some? {
          picked := picked + [item.value];
          space, full := *, *;
        } else {
          if picked == [] {
            was, now := queue, store.rows;
            item := TakeNext(None, picked, before, rows);
            SyncedTransitive(rows, now, store.rows);
            SweptTransitive(rows, now, store.rows);
            UnqueueMore(holders, was, queue);
            SecondTake(choose, before, rows, storage.budget, was, now, queue, item);
            if item.Some? {
              picked := picked + [item.value];
            }
          }
          return;
        }
      }
    }

    /** `next_queue_item`, with what it means for the upload that is being filled. */
    method TakeNext(max: Option<nat>, ghost picked: seq<Node>, ghost before: Queue, ghost rows: Rows) returns (r: Option<Node>)
      requires Valid() && SameModes(queue, rows, store.rows) && Picked(picked, queue, store.rows)
      requires OnlySyncedLeft(before, queue, rows)
      modifies this`queue, store`rows, store`holders, store`log
      ensures Valid() && SameModes(queue, rows, store.rows) && OnlySyncedLeft(before, queue, rows)
      ensures SameSynced(old(store.rows), store.rows)
      ensures Takes(choose, old(queue), old(store.rows), max, queue, r)
      ensures r.Some? ==> Picked(picked + [r.value], queue, store.rows) && |Waiting(queue)| < |Waiting(old(queue))|
      ensures r.None? ==> Picked(picked, queue, store.rows)
      ensures Swept(old(store.rows), store.rows) && store.holders == Unqueued(old(store.holders), queue)
      ensures queue.Keys <= old(queue).Keys
    {
      hide SameSynced, Counted, Ordered, QueueHeld, SameModes, Accounted, Picked, OnlySyncedLeft, FoundSynced;
      hide Fitting, Waiting, Swept, Unqueued;
      hide ChoosesLargest, Takes;
      ghost var was, now := queue, store.rows;
      r := NextQueueItem(max);
      if r.Some? {
        FittingWaits(was, max, r.value);
        PickMore(picked, was, now, r.value, was[r.value].size);
        SameKeysSameModes(was, queue, rows, now);
        SameKeysLeft(before, was, queue, rows);
      } else if Fitting(was, max) == {} && queue == was && store.rows == now {
      } else {
        PickedKept(picked, was, now, queue, store.rows, max);
        LeftMore(before, rows, was, now, queue, max);
        FewerModes(was, queue, rows, now);
        ModesTransitive(queue, rows, now, store.rows);
      }
    }

    /** `process_chunk`, `process_blob`, `process_entity` and `process_commit`: the uploaded item becomes
        synced and leaves the queue. */
    method ProcessItem(n: Node, location: nat)
      requires Valid() && n in queue && n in store.rows && store.rows[n].mode.Local?
      modifies this`queue, store
      ensures Valid() && queue == old(queue) - {n} && SameModes(queue, old(store.rows), store.rows)
      ensures SyncedAt(store.rows, store.located, n, location) && store.holders == Unqueued(old(store.holders), queue)
      ensures store.located == old(store.located)[location := store.located[location]]
      ensures location in old(store.located) ==> store.located == old(store.located)
      ensures location !in old(store.located) ==> Node(Object, store.located[location]) !in old(store.rows)
      ensures Uploaded(n, store.located[location], old(store.rows), store.rows, store.holders)
      ensures SameSynced(old(store.rows) - {n}, store.rows - {n})
    {
      hide Counted, Ordered, QueueHeld, SameModes, Accounted, Swept, CollectedExactly, Unqueued, Marked, SameSynced;
      ghost var rows := store.rows;
      QueuedIsThere(queue, rows, store.holders);
      QueuedRow(queue, rows, store.holders, n);
      FreshObject(rows);
      var unused :| Node(Object, unused) !in store.rows;
      var id, isNew := store.CreateObject(location, unused);
      CreateKeeps(job, queue, rows, store.rows, Node(Object, unused), isNew, n);
      LocatedIsThere(store.rows, store.located, store.rank, store.bound, location);
      ghost var created := store.rows;
      var synced := store.MarkSynced(n, id);
      assert synced.Ok?;
      SyncKeeps(job, queue, rows, created, store.rows, n);
      ghost var marked := store.rows;
      ItemMarked(rows, created, marked, n, id, isNew);
      UnqueueKeeps(job, queue, store.holders, store.rows, n);
      UnqueueOne(queue, store.holders, n);
      store.DeleteHolder(QueueRow(n));
      queue := queue - {n};
      SweepKeepsSynced(job, queue, marked, store.rows);
      SweepKeepsModes(queue, marked, store.rows, store.holders);
      ModesTransitive(queue, rows, marked, store.rows);
      SyncedStays(marked, store.rows, n);
      assert Uploaded(n, id, rows, store.rows, store.holders);
      OthersSynced(n, id, rows, marked, store.rows);
    }

    /** The second transaction of a round: `locations` are where the upload has put the items. */
    method ProcessAll(picked: seq<Node>, locations: seq<nat>)
      requires Valid() && Picked(picked, queue, store.rows) && |locations| == |picked|
      modifies this`queue, store
      ensures Valid() && SameModes(queue, old(store.rows), store.rows) && Picked([], queue, store.rows)
      ensures queue == old(queue) - Among(picked) && (picked != [] ==> queue.Keys < old(queue).Keys)
      ensures store.holders == Unqueued(old(store.holders), queue)
      ensures AllSyncedAt(picked, locations, store.rows, store.located)
      ensures OnlyLocated(old(store.located), store.located, locations)
      ensures SameSynced(old(store.rows) - Among(picked), store.rows - Among(picked))
      ensures OwnHomes(homes) && (forall i :: 0 <= i < |picked| ==> locations[i] == homes(picked[i])) &&
              AtHome(homes, old(store.rows), old(store.located)) ==>
                AtHome(homes, store.rows, store.located)
    {
      hide Counted, Ordered, QueueHeld, SameModes, Accounted, Picked, AtHome, OwnHomes, SyncedRow, Unqueued, SameSynced;
      hide AllSyncedAt, OnlyLocated, Uploaded;
      QueuedIsThere(queue, store.rows, store.holders);
      HeldQueue(queue, store.holders);
      NoneSyncedAt(store.rows, store.located);
      assert picked[..0] == [] && locations[..0] == [];
      ghost var homed := OwnHomes(homes) && (forall i :: 0 <= i < |picked| ==> locations[i] == homes(picked[i]))
                         && AtHome(homes, store.rows, store.located);
      for i := 0 to |picked|
        invariant Valid() && SameModes(queue, old(store.rows), store.rows) && Picked(picked[i..], queue, store.rows)
        invariant queue == old(queue) - Among(picked[..i]) && (i > 0 ==> queue.Keys < old(queue).Keys)
        invariant store.holders == Unqueued(old(store.holders), queue)
        invariant AllSyncedAt(picked[..i], locations[..i], store.rows, store.located)
        invariant OnlyLocated(old(store.located), store.located, locations[..i])
        invariant SameSynced(old(store.rows) - Among(picked[..i]), store.rows - Among(picked[..i]))
        invariant homed ==> AtHome(homes, store.rows, store.located)
      {
        ghost var was, rows, located := queue, store.rows, store.located;
        NextPicked(picked, i, queue, store.rows);
        QueuedIsThere(queue, store.rows, store.holders);
        QueuedRow(queue, store.rows, store.holders, picked[i]);
        PickedOnce(picked, i, old(queue), queue);
        ProcessItem(picked[i], locations[i]);
        UnqueueMore(old(store.holders), was, queue);
        MoreSyncedAt(picked, locations, i, rows, located, store.rows, store.located);
        MoreLocated(old(store.located), located, store.located, locations, i);
        OneMoreSynced(picked, i, old(store.rows), rows, store.rows);
        OthersSame(picked[i], rows, store.rows);
        PickedRest(picked, i, was, rows, queue, store.rows);
        FewerModes(was, queue, old(store.rows), rows);
        ModesTransitive(queue, old(store.rows), rows, store.rows);
        if homed { OneMoreAtHome(homes, picked[i], rows, located, store.rows, store.located); }
      }
      assert picked[|picked|..] == [] && picked[..|picked|] == picked && locations[..|picked|] == locations;
    }

    // ---------- attempts ----------

    /** `reset_pending_job_items` */
    method ResetPending()
      requires Valid()
      modifies this`queue
      ensures Valid() && queue == AllWaiting(old(queue)) && Picked([], queue, store.rows)
    {
      hide Counted, Ordered, ChoosesLargest;
      queue := AllWaiting(queue);
    }

    /** `_process_queue`: rounds until an upload stays empty, or an error, which is one of the storage's
        faults. On a normal return the queue is empty, or the last upload found synced items, which no one
        but another sync can have made. */
    method ProcessQueueOnce(attempt: nat) returns (r: Result<(), PushError>, ghost rounds: nat)
      requires Valid()
      modifies this`queue, store
      ensures Valid() && queue.Keys <= old(queue).Keys && SameModes(queue, old(store.rows), store.rows)
      ensures (old(Homed()) ==> Homed()) && (old(store.Committed()) ==> store.Committed())
      ensures Placed(storage, attempt, old(queue), old(store.rows), queue, store.rows, store.located)
      ensures NoFaults(storage, attempt, rounds) && (r.Err? ==> !storage.fault(attempt, rounds).NoFault?)
      ensures r.Ok? ==> !storage.fault(attempt, rounds).FillFails?
      ensures r.Ok? ==> queue == map[] || GivenUp(choose, old(queue).Keys, old(store.rows), storage.budget, queue)
      ensures r.Ok? && GivesUp(choose, AllWaiting(old(queue)), old(store.rows), storage.budget) ==>
                queue != map[] && queue == AfterTakes(choose, AllWaiting(old(queue)), storage.budget)
      ensures r.Ok? && AllLocal(old(queue).Keys, old(store.rows)) ==> queue == map[]
    {
      hide Counted, Ordered, QueueHeld, SameModes, Accounted, Picked, OnlySyncedLeft, Swept, Unqueued, Placed;
      hide ChoosesLargest, GivesUp, GivenUp, AfterTakes, AllLocal, ChunksLogged, NothingPending, AllWaiting;
      hide SameSynced, AtHome, LocatesAt, OwnHomes, AllSyncedAt, OnlyLocated, Among;
      ghost var homed := Homed();
      ghost var before, rows := queue, store.rows;
      QueuedIsThere(queue, rows, store.holders);
      ResetPending();
      SameKeysSameModes(before, queue, rows, rows);
      PlacedNone(storage, attempt, before, rows, queue, rows, store.located);
      ghost var reset := queue;
      var round := 0;
      while true
        invariant Valid() && queue.Keys <= before.Keys && SameModes(queue, rows, store.rows)
        invariant Picked([], queue, store.rows) && NoFaults(storage, attempt, round)
        invariant (homed ==> Homed()) && (old(store.Committed()) ==> store.Committed())
        invariant Placed(storage, attempt, before, rows, queue, store.rows, store.located)
        invariant round == 0 ==> queue == reset && store.rows == rows
        invariant round != 0 ==> !GivesUp(choose, reset, rows, storage.budget)
        decreases |queue|
      {
        ghost var was, now := queue, store.rows;
        NonePicked(was, now);
        var done := Round(attempt, round, before, rows);
        if done.Err? { return Err(done.error), round; }
        SameGivesUp(choose, was, rows, now, storage.budget);
        if done.value {
          LastRound(choose, before.Keys, rows, storage.budget, was, queue);
          return Ok(()), round;
        }
        FewerKeys(queue, was);
        round := round + 1;
      }
    }

    /** One round. Where it ends the attempt, the upload has stayed empty. */
    method Round(attempt: nat, round: nat, ghost before: Queue, ghost rows: Rows) returns (r: Result<bool, PushError>)
      requires Valid() && Picked([], queue, store.rows) && queue.Keys <= before.Keys
      requires SameModes(queue, rows, store.rows)
      requires Placed(storage, attempt, before, rows, queue, store.rows, store.located)
      modifies this`queue, store
      ensures Valid() && queue.Keys <= before.Keys && SameModes(queue, rows, store.rows) && (old(Homed()) ==> Homed())
      ensures old(store.Committed()) ==> store.Committed()
      ensures Placed(storage, attempt, before, rows, queue, store.rows, store.located)
      ensures r.Err? ==> r.error == AttemptFailed && !storage.fault(attempt, round).NoFault?
      ensures r.Ok? ==> !storage.fault(attempt, round).FillFails?
      ensures r.Ok? && r.value ==>
        || queue == map[]
        || (GivesUp(choose, old(queue), old(store.rows), storage.budget)
            && queue == AfterTakes(choose, old(queue), storage.budget))
      ensures r.Ok? && GivesUp(choose, old(queue), old(store.rows), storage.budget) ==> r.value && queue != map[]
      ensures r.Ok? && !r.value ==>
        storage.fault(attempt, round).NoFault? && Picked([], queue, store.rows) && queue.Keys < old(queue).Keys
    {
      hide Counted, Ordered, QueueHeld, SameModes, Accounted, Picked, OnlySyncedLeft, Swept, Unqueued, Placed;
      hide ChoosesLargest, GivesUp, AfterTakes, ChunksLogged;
      hide SameSynced, AtHome, LocatesAt, OwnHomes, AllSyncedAt, OnlyLocated, Among;
      if storage.fault(attempt, round).FillFails? { return Err(AttemptFailed); }
      ghost var was, now, located := queue, store.rows, store.located;
      var picked := Fill();
      LeftFewer(was, queue, now);
      PlacedByFill(storage, attempt, before, rows, was, now, queue, store.rows, located);
      FewerModes(was, queue, rows, now);
      ModesTransitive(queue, rows, now, store.rows);
      HomedStays(storage, homes, now, store.rows, located);
      store.ClearLog();
      if picked == [] { return Ok(true); }
      ghost var filled := queue;
      now := store.rows;
      var processed := Upload(picked, attempt, round);
      if processed {
        PlacedByUpload(storage, attempt, before, rows, filled, now, located, picked, queue, store.rows, store.located);
      } else {
        NothingLeft(queue, now);
        PlacedByFill(storage, attempt, before, rows, filled, now, queue, store.rows, located);
      }
      FewerModes(filled, queue, rows, now);
      ModesTransitive(queue, rows, now, store.rows);
      if !processed { return Err(AttemptFailed); }
      return Ok(false);
    }

    /** The rest of a round: the upload, the transaction that processes it, and local activity around them. */
    method Upload(picked: seq<Node>, attempt: nat, round: nat) returns (processed: bool)
      requires Valid() && Picked(picked, queue, store.rows) && picked != []
      modifies this`queue, store
      ensures Valid() && SameModes(queue, old(store.rows), store.rows) && (old(Homed()) ==> Homed())
      ensures old(store.Committed()) ==> store.Committed()
      ensures processed <==> !storage.fault(attempt, round).UploadFails?
      ensures processed ==> Picked([], queue, store.rows) && queue.Keys < old(queue).Keys
      ensures processed ==> queue == old(queue) - Among(picked)
      ensures processed ==> OnlyLocated(old(store.located), store.located, Locations(storage, attempt, picked))
      ensures processed ==> AllSyncedAt(picked, Locations(storage, attempt, picked), store.rows, store.located)
      ensures processed ==> SameSynced(old(store.rows) - Among(picked), store.rows - Among(picked))
      ensures !processed ==> queue == old(queue) && store.located == old(store.located)
      ensures !processed ==> SameSynced(old(store.rows), store.rows)
    {
      hide Counted, Ordered, QueueHeld, SameModes, Accounted, Picked, SameSynced, AtHome, LocatesAt, OwnHomes;
      hide ChoosesLargest, AllSyncedAt, OnlyLocated, Unqueued, AllPerformed, Among;
      ghost var rows, filled, gone := store.rows, queue, Among(picked);
      var ops: seq<LocalOp> := *;
      LocalActivity(ops);
      PickedStays(picked, queue, rows, store.rows);
      HomedStays(storage, homes, rows, store.rows, store.located);
      if storage.fault(attempt, round).UploadFails? { return false; }
      ghost var now := store.rows;
      var locations := Locations(storage, attempt, picked);
      LocatedHome(storage, homes, picked, attempt);
      ProcessAll(picked, locations);
      SameSyncedExcept(rows, now, gone);
      SyncedTransitive(rows - gone, now - gone, store.rows - gone);
      store.ClearLog();
      FewerModes(filled, queue, rows, now);
      ModesTransitive(queue, rows, now, store.rows);
      ops := *;
      now := store.rows;
      LocalActivity(ops);
      PickedStays([], queue, now, store.rows);
      ModesTransitive(queue, rows, now, store.rows);
      HomedStays(storage, homes, now, store.rows, store.located);
      SameSyncedExcept(now, store.rows, gone);
      SyncedTransitive(rows - gone, now - gone, store.rows - gone);
      StillSyncedAt(picked, locations, now, store.rows, store.located);
      return true;
    }

    /** `process_queue`: attempts until one succeeds or there were too many. */
    method ProcessQueue(maxAttempts: nat) returns (r: Result<(), PushError>)
      requires Valid() && AllLocal(queue.Keys, store.rows) && maxAttempts > 0
      modifies this`queue, store
      ensures Valid() && (r.Ok? ==> queue == map[]) && (old(Homed()) ==> Homed())
      ensures old(store.Committed()) ==> store.Committed()
      ensures r.Err? ==> r.error == TooManyErrors && forall a: nat :: a < maxAttempts ==> Faulty(storage, a)
      ensures r.Ok? ==> exists a: nat :: a < maxAttempts && !storage.fault(a, 0).FillFails?
    {
      hide Counted, Ordered, QueueHeld, SameModes, Accounted, AllLocal, AtHome, LocatesAt, SameSynced, Placed, Faulty;
      ghost var homed := Homed();
      var attempt := 0;
      while true
        invariant Valid() && AllLocal(queue.Keys, store.rows) && attempt < maxAttempts
        invariant old(store.Committed()) ==> store.Committed()
        invariant forall a: nat :: a < attempt ==> Faulty(storage, a)
        invariant homed ==> Homed()
        decreases maxAttempts - attempt
      {
        ghost var was, rows := queue, store.rows;
        var tried, rounds := ProcessQueueOnce(attempt);
        if tried.Ok? {
          FirstFilled(storage, attempt, rounds);
          return Ok(());
        }
        IsFaulty(storage, attempt, rounds);
        LocalStays(was, rows, queue, store.rows);
        attempt := attempt + 1;
        if attempt >= maxAttempts { return Err(TooManyErrors); }
        var ops: seq<LocalOp> := *;
        ghost var now := store.rows;
        LocalActivity(ops);
        LocalStays(queue, now, queue, store.rows);
        HomedStays(storage, homes, now, store.rows, store.located);
      }
    }

    // ---------- the job ----------

    /** `clear_sync_job`, whose trigger deletes the queue's rows with the job's. */
    method ClearJob()
      requires Valid()
      modifies this`queue, this`job, store`rows, store`holders, store`log
      ensures Valid() && queue == map[] && job == {} && store.holders == Unqueued(old(store.holders), map[]) - {JobRow}
      ensures Swept(old(store.rows), store.rows) && CollectedExactly(old(store.rows), store.rows, store.holders)
      ensures old(JobRow !in store.holders) ==> store.rows == old(store.rows) && store.holders == old(store.holders)
    {
      hide Counted, Ordered, Swept, CollectedExactly, Unqueued;
      SweptReflexive(store.rows);
      NoneQueued(queue, store.holders);
      if JobRow in store.holders {
        store.DeleteHolders({JobRow} + set n | n in queue :: QueueRow(n));
        NoQueueRows(queue, old(store.holders), store.holders);
      }
      SweptCollectsExactly(old(store.rows), store.rows, store.holders, store.located, store.rank, store.bound);
      queue, job := map[], {};
    }

    /** `create_sync_job` and `create_new_queue`: everything local that is referred to is queued. */
    method CreateJob(head: string) returns (r: Result<nat, PushError>)
      requires Valid() && queue == map[] && job == {} && JobRow !in store.holders
      modifies this`queue, this`job, store`rows, store`holders
      ensures Valid() && SameSynced(old(store.rows), store.rows)
      ensures r.Ok? <==> old(HeadRow(head) in store.holders)
      ensures r.Err? ==> queue == map[] && job == {} && store.rows == old(store.rows) && store.holders == old(store.holders)
      ensures r.Ok? ==> job == queue.Keys == Pushable(old(store.rows)) && r.value == |queue|
      ensures r.Ok? ==> forall n :: n in queue <==>
        n in old(store.rows) && !n.table.Object? && old(store.rows)[n].mode.Local? && old(store.rows)[n].count > 0
      ensures r.Ok? ==> NothingPending(queue) && AllLocal(queue.Keys, store.rows)
      ensures r.Ok? ==> OnlyMoreCounted(old(store.rows), store.rows) && store.rows.Keys == old(store.rows).Keys
      ensures r.Ok? ==> Unqueued(store.holders, map[]) == old(store.holders)[JobRow := old(store.holders)[HeadRow(head)]]
      ensures r.Err? ==> r.error == HeadEntryNotFound
    {
      hide Counted, Ordered, Pushable, QueueHeld, Accounted, Queueing, SameSynced, Unqueued, OnlyMoreCounted;
      SyncedReflexive(store.rows);
      HeldQueue(queue, store.holders);
      if HeadRow(head) !in store.holders { return Err(HeadEntryNotFound); }
      var commit := store.holders[HeadRow(head)];
      HeldIsCounted(store.rows, store.holders, HeadRow(head));
      ghost var rows := store.rows;
      var started := store.InsertHolder(JobRow, commit);
      assert started.Ok?;
      CountSameSynced(rows, commit, store.rows);
      JobKeeps(rows, old(store.holders), store.rows, store.holders, commit);
      HeldQueue(queue, store.holders);
      ghost var held := store.holders;
      var items := Pushable(store.rows);
      WhatIsPushable(rows);
      var rest := items;
      while rest != {}
        invariant Valid() && SameSynced(rows, store.rows) && rest <= items && JobRow in store.holders
        invariant Queueing(items, rest, queue, job, store.rows) && NothingPending(queue)
        invariant OnlyMoreCounted(rows, store.rows) && store.rows.Keys == rows.Keys
        invariant Unqueued(store.holders, map[]) == held
        decreases |rest|
      {
        var n :| n in rest;
        var size: nat := *;
        ghost var now := store.rows;
        ghost var holders := store.holders;
        Enqueue(n, size, items, rest);
        SyncedTransitive(rows, now, store.rows);
        CountedTransitive(rows, now, store.rows);
        QueuedOne(holders, n);
        rest := rest - {n};
      }
      QueueingDone(items, queue, job, store.rows);
      return Ok(|queue|);
    }

    /** `enqueue_sync_job_item` */
    method Enqueue(n: Node, size: nat, ghost items: set<Node>, ghost rest: set<Node>)
      requires Valid() && JobRow in store.holders && rest <= items && n in rest
      requires Queueing(items, rest, queue, job, store.rows)
      modifies this`queue, this`job, store`rows, store`holders
      ensures SameSynced(old(store.rows), store.rows)
      ensures Valid() && JobRow in store.holders && Queueing(items, rest - {n}, queue, job, store.rows)
      ensures queue == old(queue)[n := Job(size, false)] && store.holders == old(store.holders)[QueueRow(n) := n]
      ensures OnlyMoreCounted(old(store.rows), store.rows) && store.rows.Keys == old(store.rows).Keys
    {
      hide Counted, Ordered, QueueHeld, Accounted, Queueing, SameSynced;
      ghost var rows, holders := store.rows, store.holders;
      QueueingItem(items, rest, queue, job, rows, n, holders);
      var added := store.InsertHolder(QueueRow(n), n);
      assert added.Ok?;
      CountSameSynced(rows, n, store.rows);
      QueueMore(items, rest, queue, job, rows, n, size, store.rows);
      EnqueueKeeps(queue, holders, store.holders, n, size);
      queue := queue[n := Job(size, false)];
      job := job + {n};
    }

    /** `run`. `queued` is what the job queued; on success all of it is synced. */
    method Run(head: string, maxAttempts: nat) returns (r: Result<(), PushError>, ghost queued: set<Node>)
      requires Valid() && maxAttempts > 0
      modifies this, store
      ensures Valid() && queue == map[] && JobRow !in store.holders && store.Committed()
      ensures r.Ok? ==> forall n :: n in queued ==> n in store.rows && store.rows[n].mode.Synced?
      ensures old(JobRow !in store.holders && HeadRow(head) in store.holders) ==> forall n :: n in queued <==>
        n in old(store.rows) && !n.table.Object? && old(store.rows)[n].mode.Local? && old(store.rows)[n].count > 0
      ensures old(Homed()) ==> Homed()
      ensures r == Err(HeadEntryNotFound) ==> HeadRow(head) !in old(store.holders) && queued == {}
      ensures r.Ok? && HeadRow(head) !in old(store.holders) ==> queued == {}
      ensures old(JobRow !in store.holders && HeadRow(head) !in store.holders) ==> (r.Err? <==> exists n ::
        n in old(store.rows) && !n.table.Object? && old(store.rows)[n].mode.Local? && old(store.rows)[n].count > 0)
      ensures r.Err? && r.error != HeadEntryNotFound ==>
        r.error == TooManyErrors && forall a: nat :: a < maxAttempts ==> Faulty(storage, a)
    {
      hide Counted, Ordered, QueueHeld, SameModes, Accounted, AllLocal, Swept, Pushable, AtHome, LocatesAt;
      hide SameSynced, Faulty;
      hide NothingPending, OnlyMoreCounted;
      queued := {};
      WhatIsPushable(store.rows);
      StopJob();
      if Pushable(store.rows) == {} { return Ok(()), {}; }
      ghost var rows := store.rows;
      var created := CreateJob(head);
      HomedStays(storage, homes, rows, store.rows, store.located);
      if created.Err? { return Err(created.error), {}; }
      store.ClearLog();
      queued := job;
      var processed := ProcessQueue(maxAttempts);
      r := processed;
      rows := store.rows;
      assert processed.Ok? ==> forall n :: n in queued ==> n in rows && rows[n].mode.Synced? by {
        AllSynced(job, queue, rows);
      }
      StopJob();
      StillSynced(queued, rows, store.rows);
    }

    /** A transaction that clears the job. */
    method StopJob()
      requires Valid()
      modifies this`queue, this`job, store`rows, store`holders, store`log, store`base
      ensures Valid() && queue == map[] && job == {} && Swept(old(store.rows), store.rows) && store.Committed()
      ensures store.holders == Unqueued(old(store.holders), map[]) - {JobRow}
      ensures old(JobRow !in store.holders) ==> store.rows == old(store.rows) && store.holders == old(store.holders)
      ensures old(Homed()) ==> Homed()
    {
      hide Counted, Ordered, QueueHeld, Accounted, Swept, AtHome, LocatesAt, SameSynced;
      ghost var rows := store.rows;
      ClearJob();
      store.ClearLog();
      SweptSameSynced(rows, store.rows);
      HomedStays(storage, homes, rows, store.rows, store.located);
    }
  }

  lemma FirstFilled(storage: Storage, attempt: nat, rounds: nat)
    requires NoFaults(storage, attempt, rounds) && !storage.fault(attempt, rounds).FillFails?
    ensures !storage.fault(attempt, 0).FillFails?
  {
  }

  lemma IsFaulty(storage: Storage, attempt: nat, rounds: nat)
    requires !storage.fault(attempt, rounds).NoFault?
    ensures Faulty(storage, attempt)
  {
  }

  lemma SyncedReflexive(rows: Rows)
    ensures SameSynced(rows, rows)
  {
  }

  lemma CountSameSynced(rows: Rows, n: Node, rows': Rows)
    requires n in rows && rows' == WithCount(rows, n, rows[n].count + 1)
    ensures SameSynced(rows, rows') && OnlyMoreCounted(rows, rows')
  {
  }

  lemma HomedStays(storage: Storage, homes: Node -> nat, before: Rows, after: Rows, located: map<nat, nat>)
    requires SameSynced(before, after)
    ensures (LocatesAt(storage, homes) ==> AtHome(homes, before, located)) ==>
              LocatesAt(storage, homes) ==> AtHome(homes, after, located)
  {
    hide AtHome, SameSynced, LocatesAt;
    if AtHome(homes, before, located) { AtHomeSame(homes, before, after, located); }
  }

  /** Where an attempt's upload puts the items. */
  function Locations(storage: Storage, attempt: nat, picked: seq<Node>): seq<nat> {
    seq<nat>(|picked|, i requires 0 <= i < |picked| => storage.locate(picked[i], attempt))
  }

  lemma LocatedHome(storage: Storage, homes: Node -> nat, picked: seq<Node>, attempt: nat)
    ensures var locations := Locations(storage, attempt, picked); |locations| == |picked| && (LocatesAt(storage, homes) ==>
              OwnHomes(homes) && forall i :: 0 <= i < |picked| ==> locations[i] == homes(picked[i]))
  {
  }

  lemma LocalStays(was: Queue, rows: Rows, queue: Queue, now: Rows)
    requires AllLocal(was.Keys, rows) && queue.Keys <= was.Keys && SameModes(queue, rows, now)
    ensures AllLocal(queue.Keys, now)
  {
  }

  lemma WhatIsPushable(rows: Rows)
    ensures forall n :: n in Pushable(rows) <==> n in rows && !n.table.Object? && rows[n].mode.Local? && rows[n].count > 0
    ensures Pushable(rows) == {} <==>
            !exists n :: n in rows && !n.table.Object? && rows[n].mode.Local? && rows[n].count > 0
  {
    assert Pushable(rows) != {} <==> exists n :: n in Pushable(rows);
  }

  lemma NoneQueued(queue: Queue, holders: Holders)
    requires QueueHeld(queue, holders)
    ensures Unqueued(holders, map[]) - {JobRow} == holders - ({JobRow} + set n | n in queue :: QueueRow(n))
    ensures JobRow !in holders ==> Unqueued(holders, map[]) - {JobRow} == holders
  {
    var gone := set n | n in queue :: QueueRow(n);
    forall h | h in holders && h.QueueRow? ensures h in gone {
      assert h == QueueRow(h.item);
    }
  }

  lemma NoQueueRows(queue: Queue, before: Holders, after: Holders)
    requires QueueHeld(queue, before) && after == before - ({JobRow} + set n | n in queue :: QueueRow(n))
    ensures QueueHeld(map[], after) && JobRow !in after
  {
    var gone := set n | n in queue :: QueueRow(n);
    forall h | h in before && h.QueueRow? ensures h in gone {
      assert h == QueueRow(h.item);
    }
  }

  lemma HeldIsCounted(rows: Rows, holders: Holders, h: Holder)
    requires Counted(rows, holders, multiset{}) && h in holders
    ensures holders[h] in rows && rows[holders[h]].count > 0
  {
    CountedIsClosed(rows, holders, multiset{});
    BagMember(Held(holders), holders[h]);
    assert holders[h] in Held(holders)[h];
    assert holders[h] in Refs(rows, holders, multiset{});
  }

  lemma JobKeeps(rows: Rows, holders: Holders, rows': Rows, holders': Holders, commit: Node)
    requires QueueHeld(map[], holders) && commit in rows && rows[commit].count > 0
    requires holders' == holders[JobRow := commit] && rows' == WithCount(rows, commit, rows[commit].count + 1)
    ensures QueueHeld(map[], holders') && Accounted({}, map[], rows') && Pushable(rows') == Pushable(rows)
    ensures Queueing(Pushable(rows), Pushable(rows), map[], {}, rows')
  {
  }

  /** While the queue is being filled: `rest` is still to come, and all items are local. */
  ghost predicate Queueing(items: set<Node>, rest: set<Node>, queue: Queue, job: set<Node>, rows: Rows) {
    job == queue.Keys == items - rest && (forall n :: n in items ==> n in rows && rows[n].mode.Local? && !n.table.Object?)
  }

  lemma QueueingItem(items: set<Node>, rest: set<Node>, queue: Queue, job: set<Node>, rows: Rows, n: Node, holders: Holders)
    requires Queueing(items, rest, queue, job, rows) && n in rest && rest <= items && QueueHeld(queue, holders)
    ensures n in rows && QueueRow(n) !in holders
  {
  }

  lemma QueuedOne(holders: Holders, n: Node)
    ensures Unqueued(holders[QueueRow(n) := n], map[]) == Unqueued(holders, map[])
  {
  }

  lemma CountedTransitive(a: Rows, b: Rows, c: Rows)
    requires OnlyMoreCounted(a, b) && OnlyMoreCounted(b, c)
    ensures OnlyMoreCounted(a, c)
  {
  }

  lemma QueueMore(items: set<Node>, rest: set<Node>, queue: Queue, job: set<Node>, rows: Rows, n: Node, size: nat,
                  rows': Rows)
    requires Queueing(items, rest, queue, job, rows) && n in rest && rest <= items && n in rows
    requires rows' == WithCount(rows, n, rows[n].count + 1)
    ensures Queueing(items, rest - {n}, queue[n := Job(size, false)], job + {n}, rows')
    ensures Accounted(job + {n}, queue[n := Job(size, false)], rows') && !n.table.Object?
  {
    assert items - (rest - {n}) == (items - rest) + {n};
  }

  lemma EnqueueKeeps(queue: Queue, holders: Holders, holders': Holders, n: Node, size: nat)
    requires QueueHeld(queue, holders) && holders' == holders[QueueRow(n) := n] && JobRow in holders && !n.table.Object?
    ensures QueueHeld(queue[n := Job(size, false)], holders')
  {
  }

  lemma QueueingDone(items: set<Node>, queue: Queue, job: set<Node>, rows: Rows)
    requires Queueing(items, {}, queue, job, rows)
    ensures job == queue.Keys == items && AllLocal(queue.Keys, rows)
  {
  }

  lemma AllSynced(job: set<Node>, queue: Queue, rows: Rows)
    requires Accounted(job, queue, rows)
    ensures queue == map[] ==> forall n :: n in job ==> n in rows && rows[n].mode.Synced?
  {
  }

  lemma StillSynced(items: set<Node>, before: Rows, after: Rows)
    requires Swept(before, after)
    ensures (forall n :: n in items ==> n in before && before[n].mode.Synced?) ==>
              forall n :: n in items ==> n in after && after[n].mode.Synced?
  {
  }

  lemma CreateKeeps(job: set<Node>, queue: Queue, rows: Rows, rows': Rows, o: Node, isNew: bool, n: Node)
    requires SameModes(queue, rows, rows) && Accounted(job, queue, rows) && o !in rows && n in queue
    requires rows' == if isNew then rows[o := Row(0, Untracked, [])] else rows
    ensures SameModes(queue, rows, rows') && Accounted(job, queue, rows') && n in rows' && rows'[n].mode == rows[n].mode
  {
  }

  lemma LocatedIsThere(rows: Rows, located: map<nat, nat>, rank: Ranks, bound: nat, l: nat)
    requires Ordered(rows, located, rank, bound)
    ensures l in located ==> Node(Object, located[l]) in rows
  {
  }

  lemma SyncKeeps(job: set<Node>, queue: Queue, first: Rows, rows: Rows, rows': Rows, n: Node)
    requires SameModes(queue, first, rows) && Accounted(job, queue, rows) && n in queue
    requires rows'.Keys == rows.Keys && rows'[n].mode.Synced?
    requires forall m :: m in rows' && m != n ==> rows'[m].mode == rows[m].mode
    ensures SameModes(queue - {n}, first, rows') && Accounted(job, queue, rows')
  {
  }

  function Among(items: seq<Node>): set<Node> {
    set n | n in items
  }

  /** The items' rows are synced with the objects of their locations. */
  ghost predicate AllSyncedAt(picked: seq<Node>, locations: seq<nat>, rows: Rows, located: map<nat, nat>) {
    |picked| == |locations| && forall i :: 0 <= i < |picked| ==>
      !picked[i].table.Object? && SyncedAt(rows, located, picked[i], locations[i])
  }

  /** Objects stay, and new ones are at the given locations. */
  ghost predicate OnlyLocated(before: map<nat, nat>, after: map<nat, nat>, locations: seq<nat>) {
    && (forall l :: l in before ==> l in after && after[l] == before[l])
    && (forall l :: l in after ==> l in before || l in locations)
  }

  lemma NoneSyncedAt(rows: Rows, located: map<nat, nat>)
    ensures AllSyncedAt([], [], rows, located) && OnlyLocated(located, located, [])
    ensures SameSynced(rows - Among([]), rows - Among([]))
  {
  }

  lemma StillSyncedAt(picked: seq<Node>, locations: seq<nat>, before: Rows, after: Rows, located: map<nat, nat>)
    requires AllSyncedAt(picked, locations, before, located) && SameSynced(before, after)
    ensures AllSyncedAt(picked, locations, after, located)
  {
    forall i | 0 <= i < |picked| ensures SyncedAt(after, located, picked[i], locations[i]) {
      assert SyncedRow(before, picked[i]) && SyncedRow(after, picked[i]);
    }
  }

  lemma SameSyncedExcept(before: Rows, after: Rows, gone: set<Node>)
    requires SameSynced(before, after)
    ensures SameSynced(before - gone, after - gone)
  {
    forall n: Node | !n.table.Object?
      ensures SyncedRow(after - gone, n) <==> SyncedRow(before - gone, n)
      ensures SyncedRow(before - gone, n) ==> (after - gone)[n].mode == (before - gone)[n].mode
    {
      assert SyncedRow(after, n) <==> SyncedRow(before, n);
    }
  }

  /** What was local and has left the queue is synced with the objects that the attempt's uploads have made. */
  ghost predicate Placed(storage: Storage, attempt: nat, first: Queue, before: Rows, queue: Queue, rows: Rows,
                         located: map<nat, nat>) {
    forall n :: n in first && n !in queue && n in before && before[n].mode.Local? ==>
      !n.table.Object? && SyncedAt(rows, located, n, storage.locate(n, attempt))
  }

  lemma PlacedByFill(storage: Storage, attempt: nat, first: Queue, before: Rows, was: Queue, now: Rows, queue: Queue,
                     rows: Rows, located: map<nat, nat>)
    requires Placed(storage, attempt, first, before, was, now, located) && SameSynced(now, rows)
    requires OnlySyncedLeft(was, queue, now) && SameModes(was, before, now)
    ensures Placed(storage, attempt, first, before, queue, rows, located)
  {
    forall n | n in first && n !in queue && n in before && before[n].mode.Local?
      ensures !n.table.Object? && SyncedAt(rows, located, n, storage.locate(n, attempt))
    {
      assert n !in was;
      assert SyncedRow(now, n) && SyncedRow(rows, n);
    }
  }

  lemma PlacedByUpload(storage: Storage, attempt: nat, first: Queue, before: Rows, was: Queue, now: Rows,
                       located: map<nat, nat>, picked: seq<Node>, queue: Queue, rows: Rows, located': map<nat, nat>)
    requires Placed(storage, attempt, first, before, was, now, located) && queue == was - Among(picked)
    requires OnlyLocated(located, located', Locations(storage, attempt, picked))
    requires AllSyncedAt(picked, Locations(storage, attempt, picked), rows, located')
    requires SameSynced(now - Among(picked), rows - Among(picked))
    ensures Placed(storage, attempt, first, before, queue, rows, located')
  {
    forall n | n in first && n !in queue && n in before && before[n].mode.Local?
      ensures !n.table.Object? && SyncedAt(rows, located', n, storage.locate(n, attempt))
    {
      if n in picked {
        var i :| 0 <= i < |picked| && picked[i] == n;
        assert SyncedAt(rows, located', picked[i], Locations(storage, attempt, picked)[i]);
      } else {
        assert n !in was;
        assert SyncedRow(now - Among(picked), n) && SyncedRow(rows - Among(picked), n);
      }
    }
  }

  lemma PlacedNone(storage: Storage, attempt: nat, first: Queue, before: Rows, queue: Queue, rows: Rows, located: map<nat, nat>)
    requires queue.Keys == first.Keys
    ensures Placed(storage, attempt, first, before, queue, rows, located)
  {
  }

  lemma MoreSyncedAt(picked: seq<Node>, locations: seq<nat>, i: nat, rows: Rows, located: map<nat, nat>, rows': Rows,
                     located': map<nat, nat>)
    requires i < |picked| == |locations| && AllSyncedAt(picked[..i], locations[..i], rows, located)
    requires picked[i] !in picked[..i] && SameSynced(rows - {picked[i]}, rows' - {picked[i]})
    requires !picked[i].table.Object?
    requires SyncedAt(rows', located', picked[i], locations[i])
    requires located' == located[locations[i] := located'[locations[i]]]
    requires locations[i] in located ==> located' == located
    ensures AllSyncedAt(picked[..i + 1], locations[..i + 1], rows', located') && SyncedRow(rows', picked[i])
  {
    var n := picked[i];
    forall k | 0 <= k < i ensures SyncedAt(rows', located', picked[k], locations[k]) && !picked[k].table.Object? {
      assert picked[..i][k] == picked[k] && locations[..i][k] == locations[k];
      assert SyncedRow(rows - {n}, picked[k]) && SyncedRow(rows' - {n}, picked[k]);
    }
  }

  lemma MoreLocated(first: map<nat, nat>, located: map<nat, nat>, located': map<nat, nat>, locations: seq<nat>, i: nat)
    requires i < |locations| && OnlyLocated(first, located, locations[..i]) && locations[i] in located'
    requires located' == located[locations[i] := located'[locations[i]]]
    requires locations[i] in located ==> located' == located
    ensures OnlyLocated(first, located', locations[..i + 1])
  {
  }

  lemma PickedOnce(picked: seq<Node>, i: nat, first: Queue, queue: Queue)
    requires i < |picked| && queue == first - Among(picked[..i]) && picked[i] in queue
    ensures picked[i] !in picked[..i] && queue - {picked[i]} == first - Among(picked[..i + 1])
  {
    assert picked[..i + 1] == picked[..i] + [picked[i]];
  }

  lemma OneMoreSynced(picked: seq<Node>, i: nat, first: Rows, rows: Rows, rows': Rows)
    requires i < |picked| && SameSynced(rows - {picked[i]}, rows' - {picked[i]})
    requires SameSynced(first - Among(picked[..i]), rows - Among(picked[..i]))
    ensures SameSynced(first - Among(picked[..i + 1]), rows' - Among(picked[..i + 1]))
  {
    assert picked[..i + 1] == picked[..i] + [picked[i]];
    var done, more := Among(picked[..i]), Among(picked[..i + 1]);
    forall n: Node | !n.table.Object?
      ensures SyncedRow(rows' - more, n) <==> SyncedRow(first - more, n)
      ensures SyncedRow(first - more, n) ==> (rows' - more)[n].mode == (first - more)[n].mode
    {
      assert SyncedRow(rows - done, n) <==> SyncedRow(first - done, n);
      assert SyncedRow(rows' - {picked[i]}, n) <==> SyncedRow(rows - {picked[i]}, n);
    }
  }

  lemma OthersSame(n: Node, rows: Rows, rows': Rows)
    requires SameSynced(rows - {n}, rows' - {n})
    ensures forall m :: m != n && !m.table.Object? ==> (SyncedRow(rows', m) <==> SyncedRow(rows, m))
  {
    forall m | m != n && !m.table.Object? ensures SyncedRow(rows', m) <==> SyncedRow(rows, m) {
      assert SyncedRow(rows' - {n}, m) <==> SyncedRow(rows - {n}, m);
    }
  }

  lemma ItemMarked(rows: Rows, created: Rows, marked: Rows, n: Node, id: nat, isNew: bool)
    requires n in rows && Node(Object, id) in created
    requires isNew ==> Node(Object, id) !in rows && created == rows[Node(Object, id) := Row(0, Untracked, [])]
    requires !isNew ==> created == rows
    requires n in marked && marked[n] == created[n].(mode := Synced(id)) && marked.Keys == created.Keys
    requires forall m :: m in marked && m != n ==>
               marked[m].mode == created[m].mode && marked[m].refs == created[m].refs && marked[m].count >= created[m].count
    ensures Marked(n, id, rows, marked)
  {
  }

  lemma OthersSynced(n: Node, id: nat, before: Rows, marked: Rows, after: Rows)
    requires Marked(n, id, before, marked) && Swept(marked, after)
    ensures SameSynced(before - {n}, after - {n})
  {
  }

  lemma SyncedStays(before: Rows, after: Rows, n: Node)
    requires Swept(before, after) && n in before && before[n].mode.Synced?
    ensures n in after && after[n].mode == before[n].mode
  {
  }

  lemma NextPicked(picked: seq<Node>, i: nat, queue: Queue, rows: Rows)
    requires i < |picked| && Picked(picked[i..], queue, rows)
    ensures picked[i] in queue && picked[i] in rows && rows[picked[i]].mode.Local?
  {
    assert picked[i..][0] == picked[i];
  }

  lemma PickedRest(picked: seq<Node>, i: nat, queue: Queue, rows: Rows, after: Queue, rows': Rows)
    requires i < |picked| && Picked(picked[i..], queue, rows) && after == queue - {picked[i]}
    requires SameModes(after, rows, rows')
    ensures Picked(picked[i + 1..], after, rows') && after.Keys < queue.Keys
  {
    var a, b := picked[i..], picked[i + 1..];
    assert a[0] == picked[i];
    forall k | 0 <= k < |b| ensures b[k] == a[k + 1] && b[k] != picked[i] {
    }
    assert picked[i] in queue.Keys && picked[i] !in after.Keys;
  }

  lemma PickedStays(picked: seq<Node>, queue: Queue, rows: Rows, rows': Rows)
    requires Picked(picked, queue, rows) && SameModes(queue, rows, rows')
    ensures Picked(picked, queue, rows')
  {
  }

  lemma FewerKeys(a: Queue, b: Queue)
    ensures a.Keys <= b.Keys ==> |a| <= |b|
    ensures a.Keys < b.Keys ==> |a| < |b|
  {
    if a.Keys <= b.Keys {
      assert b.Keys == a.Keys + (b.Keys - a.Keys);
    }
  }

  /** `left` is what some part of the items came to after both takes found synced ones. */
  ghost predicate GivenUp(choose: Chooser, items: set<Node>, rows: Rows, space: nat, left: Queue) {
    exists last: Queue ::
      && last.Keys <= items && NothingPending(last)
      && GivesUp(choose, last, rows, space) && left == AfterTakes(choose, last, space)
  }

  lemma NonePicked(queue: Queue, rows: Rows)
    requires Picked([], queue, rows)
    ensures NothingPending(queue)
  {
  }

  lemma SameGivesUp(choose: Chooser, queue: Queue, a: Rows, b: Rows, space: nat)
    requires SameModes(queue, a, b) && ChoosesLargest(choose)
    ensures GivesUp(choose, queue, a, space) <==> GivesUp(choose, queue, b, space)
  {
    var rest := Without(queue, choose(queue, Some(space)));
    assert Chooses(choose, queue, Some(space)) && Chooses(choose, rest, None);
  }

  lemma LastRound(choose: Chooser, items: set<Node>, rows: Rows, space: nat, last: Queue, left: Queue)
    requires ChoosesLargest(choose) && last.Keys <= items && NothingPending(last)
    requires left == map[] || (GivesUp(choose, last, rows, space) && left == AfterTakes(choose, last, space))
    ensures left == map[] || GivenUp(choose, items, rows, space, left)
    ensures AllLocal(items, rows) ==> left == map[]
  {
    hide GivesUp, AfterTakes, ChoosesLargest;
    if left != map[] {
      LocalNeverGivesUp(choose, last, rows, space);
    }
  }

  lemma NothingLeft(queue: Queue, rows: Rows)
    ensures OnlySyncedLeft(queue, queue, rows)
  {
  }

  lemma LeftFewer(before: Queue, queue: Queue, rows: Rows)
    requires OnlySyncedLeft(before, queue, rows)
    ensures queue.Keys <= before.Keys
  {
  }

  lemma FittingWaits(queue: Queue, max: Option<nat>, n: Node)
    requires n in Fitting(queue, max)
    ensures n in queue && !queue[n].pending && n in Waiting(queue)
  {
  }

  lemma SameKeysSameModes(before: Queue, queue: Queue, a: Rows, b: Rows)
    requires SameModes(before, a, b) && queue.Keys == before.Keys
    ensures SameModes(queue, a, b)
  {
  }

  lemma SameKeysLeft(first: Queue, before: Queue, queue: Queue, rows: Rows)
    requires OnlySyncedLeft(first, before, rows) && queue.Keys == before.Keys
    ensures OnlySyncedLeft(first, queue, rows)
  {
  }

  lemma QueuedRow(queue: Queue, rows: Rows, holders: Holders, n: Node)
    requires QueueHeld(queue, holders) && SameModes(queue, rows, rows) && n in queue
    ensures n in rows && !n.table.Object? && n in queue
  {
  }

  lemma QueuedMode(rows: Rows, located: map<nat, nat>, rank: Ranks, bound: nat, n: Node)
    requires Ordered(rows, located, rank, bound) && n in rows && !n.table.Object?
    ensures rows[n].mode.Local? || rows[n].mode.Synced?
  {
  }
}
