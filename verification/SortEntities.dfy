/** The order in which a pull registers entities: directories after the listed directories they
    contain, found with a memoised, budgeted depth (janus-vfs/src/vfs/entity.rs 737-816). Whether the
    directories form a cycle is not assumed: a key here need not be a hash of what it lists. */
module SortEntities {
  import opened Wrappers

  const MAX_DEPTH: nat := 1024

  type Key = nat

  datatype Listing = Listing(key: Key, children: seq<Key>)

  /** A remote entity object; `dir` is what loading a directory shows. */
  datatype Remote = Remote(id: nat, dir: Option<Listing>)

  datatype SyncError = MaxDepthExceeded

  type Dirs = map<Key, seq<Key>>

  // ---------- chains of directories ----------

  predicate Lists(dirs: Dirs, k: Key, c: Key) {
    k in dirs && c in dirs && c in dirs[k]
  }

  /** Listed directories, each in the body of the one before. */
  ghost predicate Chain(dirs: Dirs, p: seq<Key>) {
    && p != [] && (forall i :: 0 <= i < |p| ==> p[i] in dirs)
    && (forall i, j :: 0 <= i && j == i + 1 < |p| ==> Lists(dirs, p[i], p[j]))
  }

  ghost predicate ChainFrom(dirs: Dirs, k: Key, n: nat) {
    exists p :: Chain(dirs, p) && p[0] == k && |p| == n
  }

  /** The longest chain below `k` has `d` steps. */
  ghost predicate Longest(dirs: Dirs, k: Key, d: nat) {
    ChainFrom(dirs, k, d + 1) && forall p :: Chain(dirs, p) && p[0] == k ==> |p| <= d + 1
  }

  ghost predicate SomeChain(dirs: Dirs, n: nat) {
    exists k :: ChainFrom(dirs, k, n)
  }

  lemma ChainExtends(dirs: Dirs, k: Key, c: Key, n: nat)
    requires Lists(dirs, k, c) && ChainFrom(dirs, c, n)
    ensures ChainFrom(dirs, k, n + 1)
  {
    var p :| Chain(dirs, p) && p[0] == c && |p| == n;
    var q := [k] + p;
    assert forall i, j :: 0 <= i && j == i + 1 < |q| ==> Lists(dirs, q[i], q[j]) by {
      forall i, j | 0 <= i && j == i + 1 < |q| ensures Lists(dirs, q[i], q[j]) {
        if i > 0 { assert q[i] == p[i - 1] && q[j] == p[i]; }
      }
    }
    assert Chain(dirs, q);
  }

  lemma ChainTail(dirs: Dirs, p: seq<Key>)
    requires Chain(dirs, p) && |p| > 1
    ensures Lists(dirs, p[0], p[1]) && Chain(dirs, p[1..])
  {
    var q := p[1..];
    forall i, j | 0 <= i && j == i + 1 < |q| ensures Lists(dirs, q[i], q[j]) {
      assert q[i] == p[j] && q[j] == p[j + 1];
    }
  }

  lemma ChainAlone(dirs: Dirs, k: Key)
    requires k in dirs
    ensures ChainFrom(dirs, k, 1)
  {
    assert Chain(dirs, [k]);
  }

  lemma LongestUnique(dirs: Dirs, k: Key, a: nat, b: nat)
    requires Longest(dirs, k, a) && Longest(dirs, k, b)
    ensures a == b
  {
    var p :| Chain(dirs, p) && p[0] == k && |p| == a + 1;
    var q :| Chain(dirs, q) && q[0] == k && |q| == b + 1;
  }

  /** The depth of a directory is above those of its children. */
  lemma LongestRises(dirs: Dirs, k: Key, c: Key, a: nat, b: nat)
    requires Lists(dirs, k, c) && Longest(dirs, k, a) && Longest(dirs, c, b)
    ensures b < a
  {
    ChainExtends(dirs, k, c, b + 1);
    var p :| Chain(dirs, p) && p[0] == k && |p| == b + 2;
  }

  /** Where the depths of all children are known, the depth is one more than the largest. */
  lemma LongestFromChildren(dirs: Dirs, k: Key, memo: map<Key, nat>, d: nat)
    requires k in dirs && forall c :: Lists(dirs, k, c) ==> c in memo && Longest(dirs, c, memo[c]) && memo[c] < d
    requires d == 0 || exists c :: Lists(dirs, k, c) && c in memo && memo[c] + 1 == d
    ensures Longest(dirs, k, d)
  {
    ChainAlone(dirs, k);
    if d > 0 {
      var c :| Lists(dirs, k, c) && c in memo && memo[c] + 1 == d;
      ChainExtends(dirs, k, c, d);
    }
    forall p | Chain(dirs, p) && p[0] == k ensures |p| <= d + 1 {
      if |p| > 1 {
        ChainTail(dirs, p);
        assert Longest(dirs, p[1], memo[p[1]]);
      }
    }
  }

  // ---------- the memoised depth ----------

  ghost predicate MemoRight(dirs: Dirs, memo: map<Key, nat>) {
    forall k :: k in memo ==> k in dirs && Longest(dirs, k, memo[k])
  }

  class Depths {
    const dirs: Dirs
    var memo: map<Key, nat>

    constructor (dirs: Dirs)
      ensures this.dirs == dirs && memo == map[]
    {
      this.dirs, memo := dirs, map[];
    }

    /** `depth`. An error says that a chain of more than `budget` directories starts here; without one
        the result is the longest chain below, which is then remembered. */
    method Depth(key: Key, budget: nat) returns (r: Result<nat, SyncError>)
      requires key in dirs && MemoRight(dirs, memo)
      modifies this`memo
      ensures MemoRight(dirs, memo) && old(memo).Keys <= memo.Keys
      ensures r.Ok? ==> key in memo && memo[key] == r.value
      ensures r.Err? ==> ChainFrom(dirs, key, budget + 1)
      decreases budget
    {
      hide Longest, ChainFrom;
      if key in memo {
        return Ok(memo[key]);
      }
      if budget == 0 {
        ChainAlone(dirs, key);
        return Err(MaxDepthExceeded);
      }
      var d, children := 0, dirs[key];
      for i := 0 to |children|
        invariant MemoRight(dirs, memo) && old(memo).Keys <= memo.Keys
        invariant forall j :: 0 <= j < i && children[j] in dirs ==> children[j] in memo && memo[children[j]] < d
        invariant d == 0 || exists j :: 0 <= j < i && children[j] in dirs && children[j] in memo && memo[children[j]] + 1 == d
      {
        var c := children[i];
        if c in dirs {
          ghost var before := memo;
          var below := Depth(c, budget - 1);
          if below.Err? {
            ChainExtends(dirs, key, c, budget);
            return below;
          }
          MemoKept(dirs, before, memo);
          d := if below.value + 1 > d then below.value + 1 else d;
        }
      }
      LongestFromChildren(dirs, key, memo, d);
      memo := memo[key := d];
      return Ok(d);
    }

    /** All depths up front, in whatever order the map lists its keys. */
    method Precompute() returns (r: Result<(), SyncError>)
      requires MemoRight(dirs, memo)
      modifies this`memo
      ensures MemoRight(dirs, memo)
      ensures r.Ok? ==> memo.Keys == dirs.Keys
      ensures r.Err? ==> SomeChain(dirs, MAX_DEPTH + 1)
    {
      hide Longest, ChainFrom;
      var rest := dirs.Keys;
      while rest != {}
        invariant rest <= dirs.Keys && MemoRight(dirs, memo)
        invariant forall k :: k in dirs && k !in rest ==> k in memo
        decreases |rest|
      {
        var k :| k in rest;
        var found := Depth(k, MAX_DEPTH);
        if found.Err? { return Err(found.error); }
        rest := rest - {k};
      }
      return Ok(());
    }
  }

  lemma MemoKept(dirs: Dirs, before: map<Key, nat>, after: map<Key, nat>)
    requires MemoRight(dirs, before) && MemoRight(dirs, after) && before.Keys <= after.Keys
    ensures forall k :: k in before ==> after[k] == before[k]
  {
    hide Longest;
    forall k | k in before ensures after[k] == before[k] {
      LongestUnique(dirs, k, before[k], after[k]);
    }
  }

  /** Closed walks repeat, so a cycle has chains of every length. */
  lemma {:induction false} CycleChains(dirs: Dirs, p: seq<Key>, n: nat)
    requires Chain(dirs, p) && |p| > 1 && p[0] == p[|p| - 1]
    ensures exists m :: m > n && ChainFrom(dirs, p[0], m)
    decreases n
  {
    if n == 0 {
      assert ChainFrom(dirs, p[0], |p|);
    } else {
      CycleChains(dirs, p, n - 1);
      var m :| m > n - 1 && ChainFrom(dirs, p[0], m);
      PrependPath(dirs, p, m);
      assert ChainFrom(dirs, p[0], |p| - 1 + m);
    }
  }

  lemma {:induction false} PrependPath(dirs: Dirs, p: seq<Key>, m: nat)
    requires Chain(dirs, p) && ChainFrom(dirs, p[|p| - 1], m)
    ensures ChainFrom(dirs, p[0], |p| - 1 + m)
    decreases |p|
  {
    if |p| > 1 {
      ChainTail(dirs, p);
      PrependPath(dirs, p[1..], m);
      ChainExtends(dirs, p[0], p[1], |p| - 2 + m);
    }
  }

  /** A directory on a cycle has no depth, so with a cycle the precomputation cannot succeed. */
  lemma CycleHasNoDepth(dirs: Dirs, p: seq<Key>, d: nat)
    requires Chain(dirs, p) && |p| > 1 && p[0] == p[|p| - 1]
    ensures !Longest(dirs, p[0], d)
  {
    CycleChains(dirs, p, d + 1);
    var m: nat :| m > d + 1 && ChainFrom(dirs, p[0], m);
    var q :| Chain(dirs, q) && q[0] == p[0] && |q| == m;
  }

  // ---------- the sort ----------

  /** The sort key: 0 for what is not a directory, else one more than the depth. */
  function Rank(o: Remote, depths: map<Key, nat>): nat {
    if o.dir.Some? && o.dir.value.key in depths then depths[o.dir.value.key] + 1 else 0
  }

  predicate Ascending(s: seq<Remote>, depths: map<Key, nat>) {
    forall i, j :: 0 <= i < j < |s| ==> Rank(s[i], depths) <= Rank(s[j], depths)
  }

  /** Where `sort_by_key` puts an element into a sorted prefix: behind its equals. */
  function Place(s: seq<Remote>, o: Remote, depths: map<Key, nat>): (n: nat)
    ensures n <= |s|
    ensures forall i :: n <= i < |s| ==> Rank(o, depths) < Rank(s[i], depths)
    ensures n > 0 ==> Rank(s[n - 1], depths) <= Rank(o, depths)
  {
    if s == [] then 0
    else if Rank(s[|s| - 1], depths) <= Rank(o, depths) then |s|
    else Place(s[..|s| - 1], o, depths)
  }

  /** The elements of one rank, in their order. */
  function OfRank(s: seq<Remote>, depths: map<Key, nat>, n: nat): seq<Remote> {
    if s == [] then []
    else (if Rank(s[0], depths) == n then [s[0]] else []) + OfRank(s[1..], depths, n)
  }

  lemma {:induction false} OfRankConcat(a: seq<Remote>, b: seq<Remote>, depths: map<Key, nat>, n: nat)
    ensures OfRank(a + b, depths, n) == OfRank(a, depths, n) + OfRank(b, depths, n)
    decreases |a|
  {
    if a == [] {
      assert a + b == b;
    } else {
      assert (a + b)[1..] == a[1..] + b;
      OfRankConcat(a[1..], b, depths, n);
    }
  }

  lemma {:induction false} OfOtherRank(s: seq<Remote>, depths: map<Key, nat>, n: nat)
    requires forall i :: 0 <= i < |s| ==> Rank(s[i], depths) != n
    ensures OfRank(s, depths, n) == []
    decreases |s|
  {
    if s != [] { OfOtherRank(s[1..], depths, n); }
  }

  function Placed(s: seq<Remote>, o: Remote, depths: map<Key, nat>): seq<Remote> {
    var at := Place(s, o, depths);
    s[..at] + [o] + s[at..]
  }

  lemma {:induction false} PlaceSplits(s: seq<Remote>, o: Remote, depths: map<Key, nat>)
    requires Ascending(s, depths)
    ensures forall i :: 0 <= i < Place(s, o, depths) ==> Rank(s[i], depths) <= Rank(o, depths)
  {
    hide Rank;
    var at := Place(s, o, depths);
    if at > 0 {
      var last := at - 1;
      assert Rank(s[last], depths) <= Rank(o, depths);
    }
  }

  lemma PlacedAscends(s: seq<Remote>, o: Remote, depths: map<Key, nat>)
    requires Ascending(s, depths)
    ensures Ascending(Placed(s, o, depths), depths)
  {
    hide Rank, Place;
    PlaceSplits(s, o, depths);
    var at, t := Place(s, o, depths), Placed(s, o, depths);
    forall i, j | 0 <= i < j < |t| ensures Rank(t[i], depths) <= Rank(t[j], depths) {
      var x, y := t[i], t[j];
      assert x == if i < at then s[i] else if i == at then o else s[i - 1];
      assert y == if j < at then s[j] else if j == at then o else s[j - 1];
    }
  }

  lemma PlacedKeepsAll(s: seq<Remote>, o: Remote, depths: map<Key, nat>)
    ensures multiset(Placed(s, o, depths)) == multiset(s) + multiset{o}
  {
    var at := Place(s, o, depths);
    hide Place;
    assert s == s[..at] + s[at..];
  }

  lemma PlacedKeepsRanks(s: seq<Remote>, o: Remote, depths: map<Key, nat>, n: nat)
    ensures OfRank(Placed(s, o, depths), depths, n) == OfRank(s + [o], depths, n)
  {
    hide Place, OfRank, Rank;
    var at := Place(s, o, depths);
    var a, b := s[..at], s[at..];
    assert s == a + b && Placed(s, o, depths) == a + [o] + b;
    if Rank(o, depths) == n {
      OfOtherRank(b, depths, n);
    } else {
      OfOtherRank([o], depths, n);
    }
    RanksSwap(a, [o], b, depths, n);
  }

  /** Two stretches of which one has nothing of the rank may change places. */
  lemma RanksSwap(a: seq<Remote>, b: seq<Remote>, c: seq<Remote>, depths: map<Key, nat>, n: nat)
    requires OfRank(b, depths, n) == [] || OfRank(c, depths, n) == []
    ensures OfRank(a + b + c, depths, n) == OfRank(a + c + b, depths, n)
  {
    hide OfRank;
    OfRankConcat(a + b, c, depths, n);
    OfRankConcat(a, b, depths, n);
    OfRankConcat(a + c, b, depths, n);
    OfRankConcat(a, c, depths, n);
    EmptySwaps(OfRank(a, depths, n), OfRank(b, depths, n), OfRank(c, depths, n));
  }

  lemma EmptySwaps(x: seq<Remote>, y: seq<Remote>, z: seq<Remote>)
    requires y == [] || z == []
    ensures x + y + z == x + z + y
  {
  }

  /** `sort_by_key`, which is stable. */
  method SortByRank(objects: seq<Remote>, depths: map<Key, nat>) returns (r: seq<Remote>)
    ensures multiset(r) == multiset(objects) && Ascending(r, depths)
    ensures forall n: nat :: OfRank(r, depths, n) == OfRank(objects, depths, n)
  {
    hide Ascending, OfRank, Placed;
    r := [];
    EmptySorted(depths);
    for i := 0 to |objects|
      invariant multiset(r) == multiset(objects[..i]) && Ascending(r, depths)
      invariant forall n: nat :: OfRank(r, depths, n) == OfRank(objects[..i], depths, n)
    {
      assert objects[..i + 1] == objects[..i] + [objects[i]];
      PlacedAscends(r, objects[i], depths);
      PlacedKeepsAll(r, objects[i], depths);
      forall n: nat ensures OfRank(Placed(r, objects[i], depths), depths, n) == OfRank(objects[..i + 1], depths, n) {
        PlacedKeepsRanks(r, objects[i], depths, n);
        OfRankConcat(r, [objects[i]], depths, n);
        OfRankConcat(objects[..i], [objects[i]], depths, n);
      }
      r := Placed(r, objects[i], depths);
    }
    assert objects[..|objects|] == objects;
  }

  lemma EmptySorted(depths: map<Key, nat>)
    ensures Ascending([], depths)
  {
  }

  // ---------- the whole ----------

  /** Object ids are unique, and a key determines its directory's body. */
  ghost predicate WellListed(objects: seq<Remote>) {
    forall i, j :: 0 <= i < |objects| && 0 <= j < |objects| && objects[i].dir.Some? && objects[j].dir.Some?
                   && objects[i].dir.value.key == objects[j].dir.value.key ==>
      objects[i].dir == objects[j].dir
  }

  /** The bodies of the directories among `objects`, as the first loop collects them. */
  function DirsIn(objects: seq<Remote>): Dirs {
    if objects == [] then map[]
    else
      var (dirs, o) := (DirsIn(objects[..|objects| - 1]), objects[|objects| - 1]);
      if o.dir.Some? then dirs[o.dir.value.key := o.dir.value.children] else dirs
  }

  lemma {:induction false} DirsInHolds(objects: seq<Remote>, o: Remote)
    requires WellListed(objects) && o in objects && o.dir.Some?
    ensures o.dir.value.key in DirsIn(objects) && DirsIn(objects)[o.dir.value.key] == o.dir.value.children
    decreases |objects|
  {
    var init, last := objects[..|objects| - 1], objects[|objects| - 1];
    assert objects == init + [last];
    var i :| 0 <= i < |objects| && objects[i] == o;
    if o != last {
      DirsInHolds(init, o);
      assert last.dir.Some? && last.dir.value.key == o.dir.value.key ==> last.dir == o.dir;
    }
  }

  /** Every body comes from one of the objects. */
  lemma {:induction false} DirsInFrom(objects: seq<Remote>, k: Key)
    requires k in DirsIn(objects)
    ensures exists i :: 0 <= i < |objects| && objects[i].dir == Some(Listing(k, DirsIn(objects)[k]))
    decreases |objects|
  {
    var init, last := objects[..|objects| - 1], objects[|objects| - 1];
    assert objects == init + [last];
    if last.dir.Some? && last.dir.value.key == k {
      assert objects[|objects| - 1].dir == Some(Listing(k, DirsIn(objects)[k]));
    } else {
      DirsInFrom(init, k);
      var i :| 0 <= i < |init| && init[i].dir == Some(Listing(k, DirsIn(init)[k]));
      assert objects[i] == init[i];
    }
  }

  /** Entities that are not directories come first, and a directory after every listed directory in its body. */
  ghost predicate ChildrenFirst(s: seq<Remote>) {
    && (forall i, j :: 0 <= i < j < |s| && s[j].dir.None? ==> s[i].dir.None?)
    && (forall i, j :: 0 <= i < |s| && 0 <= j < |s| && InBodyOf(s[i], s[j]) ==> i < j)
  }

  predicate InBodyOf(c: Remote, o: Remote) {
    c.dir.Some? && o.dir.Some? && c.dir.value.key in o.dir.value.children
  }

  lemma AscendingIsChildrenFirst(objects: seq<Remote>, depths: map<Key, nat>, s: seq<Remote>)
    requires WellListed(objects) && MemoRight(DirsIn(objects), depths) && depths.Keys == DirsIn(objects).Keys
    requires multiset(s) == multiset(objects) && Ascending(s, depths)
    ensures ChildrenFirst(s)
  {
    hide Longest, DirsIn;
    var dirs := DirsIn(objects);
    forall i | 0 <= i < |s| && s[i].dir.Some?
      ensures s[i].dir.value.key in dirs && dirs[s[i].dir.value.key] == s[i].dir.value.children
    {
      assert s[i] in multiset(objects);
      DirsInHolds(objects, s[i]);
    }
    forall i, j | 0 <= i < |s| && 0 <= j < |s| && InBodyOf(s[i], s[j]) ensures i < j {
      var c, k := s[i].dir.value.key, s[j].dir.value.key;
      LongestRises(dirs, k, c, depths[k], depths[c]);
    }
  }

  /** A chain that comes back to where it started. */
  ghost predicate Cycle(dirs: Dirs, p: seq<Key>) {
    Chain(dirs, p) && |p| > 1 && p[0] == p[|p| - 1]
  }

  lemma DepthsMeanNoCycle(dirs: Dirs, depths: map<Key, nat>)
    requires MemoRight(dirs, depths) && depths.Keys == dirs.Keys
    ensures forall p :: !Cycle(dirs, p)
  {
    forall p ensures !Cycle(dirs, p) {
      if Cycle(dirs, p) { CycleHasNoDepth(dirs, p, depths[p[0]]); }
    }
  }

  /** `sort_entities`. Success gives a reordering with children first, and only without a cycle; an error
      says that some chain of directories is longer than the budget. */
  method SortEntities(objects: seq<Remote>) returns (r: Result<seq<Remote>, SyncError>)
    requires WellListed(objects)
    ensures r.Ok? ==> multiset(r.value) == multiset(objects) && ChildrenFirst(r.value)
    ensures r.Ok? ==> forall p :: !Cycle(DirsIn(objects), p)
    ensures r.Err? ==> SomeChain(DirsIn(objects), MAX_DEPTH + 1)
  {
    hide MemoRight, ChildrenFirst, Cycle, SomeChain, Ascending, WellListed, Longest;
    var dirs: Dirs := map[];
    for i := 0 to |objects|
      invariant dirs == DirsIn(objects[..i])
    {
      assert objects[..i + 1][..i] == objects[..i];
      if objects[i].dir.Some? {
        dirs := dirs[objects[i].dir.value.key := objects[i].dir.value.children];
      }
    }
    assert objects[..|objects|] == objects;
    var depths := new Depths(dirs);
    NothingRemembered(dirs);
    var computed := depths.Precompute();
    if computed.Err? { return Err(computed.error); }
    var sorted := SortByRank(objects, depths.memo);
    AscendingIsChildrenFirst(objects, depths.memo, sorted);
    DepthsMeanNoCycle(dirs, depths.memo);
    return Ok(sorted);
  }

  lemma NothingRemembered(dirs: Dirs)
    ensures MemoRight(dirs, map[])
  {
  }
}
