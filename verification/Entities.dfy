/** Entities by key, with the directory bodies that make the entity graph a Merkle tree
    (janus-vfs/src/vfs/entity.rs and directory.rs).

    A revision is an ideal hash of the listed inputs, so it is written as the free term over them;
    what it was computed from can be read off it. */
module Entities {
  import opened Wrappers
  import opened Trees

  /** What `hash_metadata` covers. */
  datatype Meta = Meta(id: EntityId, name: string, created: int, lastModified: int)

  datatype Revision =
    | DirRevision(meta: Meta, entries: seq<EntityKey>)
    | FileRevision(meta: Meta, blob: nat, len: nat)

  datatype EntityKey = EntityKey(id: EntityId, revision: Revision)

  function KindOf(k: EntityKey): Kind {
    if k.revision.DirRevision? then Dir else File
  }

  function NameOf(k: EntityKey): string {
    k.revision.meta.name
  }

  function EntriesOf(k: EntityKey): seq<EntityKey> {
    if k.revision.DirRevision? then k.revision.entries else []
  }

  ghost predicate DistinctIds(keys: set<EntityKey>) {
    forall a, b :: a in keys && b in keys && a.id == b.id ==> a == b
  }

  predicate FirstById(keys: set<EntityKey>, k: EntityKey) {
    k in keys && forall j :: j in keys ==> k.id.uuid <= j.id.uuid
  }

  lemma {:induction false} FirstExists(keys: set<EntityKey>)
    requires keys != {}
    ensures exists k :: FirstById(keys, k)
    decreases |keys|
  {
    var k :| k in keys;
    if keys != {k} {
      var rest := keys - {k};
      assert rest == {} ==> keys == {k};
      FirstExists(rest);
      var f :| FirstById(rest, f);
      assert FirstById(keys, if k.id.uuid <= f.id.uuid then k else f);
    } else {
      assert FirstById(keys, k);
    }
  }

  lemma FirstUnique(keys: set<EntityKey>, a: EntityKey, b: EntityKey)
    requires DistinctIds(keys) && FirstById(keys, a) && FirstById(keys, b)
    ensures a == b
  {
    assert a.id == b.id;
  }

  /** `DirectoryBody::sort` of the keys of a directory's children: their entity ids are unique. */
  function SortedEntries(keys: set<EntityKey>): (r: seq<EntityKey>)
    requires DistinctIds(keys)
    ensures |r| == |keys|
    ensures forall k :: k in r <==> k in keys
    decreases |keys|
  {
    if keys == {} then []
    else
      FirstExists(keys);
      assert forall a, b :: FirstById(keys, a) && FirstById(keys, b) ==> a == b by {
        forall a, b | FirstById(keys, a) && FirstById(keys, b) ensures a == b { FirstUnique(keys, a, b); }
      }
      var k :| k in keys && FirstById(keys, k);
      [k] + SortedEntries(keys - {k})
  }

  predicate AscendingIds(s: seq<EntityKey>) {
    forall i, j :: 0 <= i < j < |s| ==> s[i].id.uuid < s[j].id.uuid
  }

  lemma SortedUnfolds(keys: set<EntityKey>)
    requires DistinctIds(keys) && keys != {}
    ensures SortedEntries(keys) != []
    ensures var k := SortedEntries(keys)[0]; FirstById(keys, k) && SortedEntries(keys) == [k] + SortedEntries(keys - {k})
  {
  }

  lemma {:induction false} SortedAscends(keys: set<EntityKey>)
    requires DistinctIds(keys)
    ensures AscendingIds(SortedEntries(keys))
    decreases |keys|
  {
    hide SortedEntries;
    if keys == {} {
      SortedOfNone();
    } else {
      SortedUnfolds(keys);
      var k := SortedEntries(keys)[0];
      SortedAscends(keys - {k});
      var rest := SortedEntries(keys - {k});
      forall j | 0 <= j < |rest| ensures k.id.uuid < rest[j].id.uuid {
        assert rest[j] in keys - {k};
      }
    }
  }

  lemma TailListsRest(keys: set<EntityKey>, s: seq<EntityKey>)
    requires s != [] && AscendingIds(s) && forall k :: k in s <==> k in keys
    ensures forall k :: k in s[1..] <==> k in keys - {s[0]}
  {
    assert s == [s[0]] + s[1..];
    forall j | 0 <= j < |s[1..]| ensures s[1..][j] != s[0] {
      assert s[1..][j] == s[j + 1];
    }
  }

  lemma HeadIsFirst(keys: set<EntityKey>, s: seq<EntityKey>)
    requires s != [] && AscendingIds(s) && forall k :: k in s <==> k in keys
    ensures FirstById(keys, s[0])
  {
  }

  /** Sorting has one result: any ascending listing of the same keys is it. */
  lemma {:induction false} SortedUnique(keys: set<EntityKey>, s: seq<EntityKey>)
    requires DistinctIds(keys) && AscendingIds(s) && forall k :: k in s <==> k in keys
    ensures s == SortedEntries(keys)
    decreases |s|
  {
    hide SortedEntries, FirstById;
    if s == [] {
      assert keys == {};
      SortedOfNone();
    } else {
      HeadIsFirst(keys, s);
      SortedUnfolds(keys);
      FirstUnique(keys, s[0], SortedEntries(keys)[0]);
      TailListsRest(keys, s);
      SortedUnique(keys - {s[0]}, s[1..]);
      assert s == [s[0]] + s[1..];
    }
  }

  lemma SortedOfNone()
    ensures SortedEntries({}) == []
  {
  }

  /** Sorting forgets nothing. */
  lemma SortedInjective(a: set<EntityKey>, b: set<EntityKey>)
    requires DistinctIds(a) && DistinctIds(b) && SortedEntries(a) == SortedEntries(b)
    ensures a == b
  {
    assert forall k :: k in a <==> k in SortedEntries(a);
    assert forall k :: k in b <==> k in SortedEntries(b);
  }
}
