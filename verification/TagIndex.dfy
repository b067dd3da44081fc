/**
 Tags of the cache.  One relation between keys and tags is kept three times: a
 map in memory, a set per tag in the store (`tag:<tag>`), and a set per key in
 the store (`key:<key>:tags`).  A store never holds an empty set.
 Here operations come one at a time; TagOverlap lets them overlap.
 */
module TagIndex {
  import opened Wrappers

  type Key = string
  type Tag = string

  datatype Cache = Cache(
    entries: map<Key, string>,
    memory: map<Tag, set<Key>>,
    tagSets: map<Tag, set<Key>>,
    keyTags: map<Key, set<Tag>>,
    refreshing: set<Key>)

  function At<K, V>(m: map<K, set<V>>, k: K): set<V> {
    if k in m then m[k] else {}
  }

  // ----- operations

  function SetOf(tags: seq<Tag>): set<Tag> {
    set t | t in tags
  }

  lemma SetOfSnoc(tags: seq<Tag>, i: nat)
    requires i < |tags|
    ensures SetOf(tags[..i + 1]) == SetOf(tags[..i]) + {tags[i]}
  {
    assert tags[..i + 1] == tags[..i] + [tags[i]];
  }

  function Link(m: map<Tag, set<Key>>, key: Key, ts: set<Tag>): map<Tag, set<Key>> {
    map t | t in m.Keys + ts :: if t in ts then At(m, t) + {key} else m[t]
  }

  function Put(c: Cache, key: Key, value: string, tags: seq<Tag>, refresh: bool): Cache {
    var ts := SetOf(tags);
    Cache(
      c.entries[key := value],
      Link(c.memory, key, ts),
      Link(c.tagSets, key, ts),
      if ts == {} then c.keyTags else c.keyTags[key := At(c.keyTags, key) + ts],
      if refresh then c.refreshing + {key} else c.refreshing)
  }

  /** Those of `keys` whose own record says they carry the tag. */
  function Carriers(c: Cache, keys: set<Key>, t: Tag): set<Key> {
    set k | k in keys && t in At(c.keyTags, k)
  }

  /** Delete keys, each through its own record of tags. */
  function Delete(c: Cache, keys: set<Key>): Cache {
    Cache(
      c.entries - keys,
      map t | t in c.memory :: c.memory[t] - Carriers(c, keys, t),
      map t | t in c.tagSets && c.tagSets[t] - Carriers(c, keys, t) != {} :: c.tagSets[t] - Carriers(c, keys, t),
      c.keyTags - keys,
      c.refreshing - keys)
  }

  function DeleteKeysByTag(c: Cache, tag: Tag): Cache {
    var d := Delete(c, At(c.tagSets, tag));
    d.(tagSets := d.tagSets - {tag}, memory := d.memory - {tag})
  }

  function DeleteByTags(c: Cache, tags: seq<Tag>): Cache {
    if tags == [] then c else DeleteKeysByTag(DeleteByTags(c, tags[..|tags| - 1]), tags[|tags| - 1])
  }

  /** An entry's time to live runs out; the store says nothing to the index. */
  function Expire(c: Cache, key: Key): Cache {
    c.(entries := c.entries - {key})
  }

  // ----- the three representations agree

  predicate Has(c: Cache, k: Key, t: Tag) {
    k in At(c.tagSets, t)
  }

  ghost predicate Agree(c: Cache, k: Key, t: Tag) {
    && (Has(c, k, t) <==> t in At(c.keyTags, k))
    && (Has(c, k, t) <==> k in At(c.memory, t))
  }

  ghost predicate Coherent(c: Cache) {
    && (forall t :: t in c.tagSets ==> c.tagSets[t] != {})
    && (forall k :: k in c.keyTags ==> c.keyTags[k] != {})
    && (forall k, t :: Agree(c, k, t))
  }

  lemma PutLinks(c: Cache, key: Key, value: string, tags: seq<Tag>, refresh: bool)
    requires Coherent(c)
    ensures var after := Put(c, key, value, tags, refresh);
            && Coherent(after)
            && forall k, t :: Has(after, k, t) <==> Has(c, k, t) || (k == key && t in tags)
  {
    var after := Put(c, key, value, tags, refresh);
    if tags != [] {
      assert tags[0] in SetOf(tags);
    }
    forall k, t ensures Agree(after, k, t) {
      assert Agree(c, k, t);
    }
  }

  lemma DeleteLinks(c: Cache, keys: set<Key>)
    requires Coherent(c)
    ensures Coherent(Delete(c, keys))
    ensures SameLinksBut(c, Delete(c, keys), keys)
  {
    forall k, t
      ensures Agree(Delete(c, keys), k, t)
      ensures Has(Delete(c, keys), k, t) <==> Has(c, k, t) && k !in keys
    {
      assert Agree(c, k, t);
    }
  }

  lemma DeleteKeysByTagLinks(c: Cache, tag: Tag)
    requires Coherent(c)
    ensures Coherent(DeleteKeysByTag(c, tag))
    ensures SameLinksBut(c, DeleteKeysByTag(c, tag), At(c.tagSets, tag))
  {
    var keys := At(c.tagSets, tag);
    DeleteLinks(c, keys);
    var (d, after) := (Delete(c, keys), DeleteKeysByTag(c, tag));
    forall k, t
      ensures Agree(after, k, t)
      ensures Has(after, k, t) <==> Has(c, k, t) && k !in keys
    {
      assert Agree(d, k, t);
      assert Has(d, k, t) <==> Has(c, k, t) && k !in keys;
    }
  }

  /** Nothing is listed under a deleted tag any more, whatever the cache was. */
  lemma DeletedTagIsGone(c: Cache, tag: Tag)
    ensures tag !in DeleteKeysByTag(c, tag).tagSets && tag !in DeleteKeysByTag(c, tag).memory
  {
  }

  /** The keys that carry at least one of the tags. */
  function Doomed(c: Cache, tags: seq<Tag>): set<Key> {
    if tags == [] then {} else Doomed(c, tags[..|tags| - 1]) + At(c.tagSets, tags[|tags| - 1])
  }

  lemma {:induction false} DoomedMeans(c: Cache, tags: seq<Tag>, k: Key)
    ensures k in Doomed(c, tags) <==> exists t :: t in tags && Has(c, k, t)
  {
    if tags != [] {
      var (front, last) := (tags[..|tags| - 1], tags[|tags| - 1]);
      DoomedMeans(c, front, k);
      assert tags == front + [last];
      assert k in Doomed(c, tags) <==> k in Doomed(c, front) || Has(c, k, last);
      if t :| t in tags && Has(c, k, t) {
        assert t in front || t == last;
      }
    }
  }

  ghost predicate SameLinksBut(before: Cache, after: Cache, gone: set<Key>) {
    forall k, t :: Has(after, k, t) <==> Has(before, k, t) && k !in gone
  }

  /** Bulk invalidation removes exactly the entries that carry a tag, with all
      their links, and leaves every other entry and link as it was. */
  lemma {:induction false} DeleteByTagsIsExact(c: Cache, tags: seq<Tag>)
    requires Coherent(c)
    ensures var (after, doomed) := (DeleteByTags(c, tags), Doomed(c, tags));
            && Coherent(after)
            && after.entries == c.entries - doomed
            && after.refreshing == c.refreshing - doomed
            && SameLinksBut(c, after, doomed)
  {
    if tags != [] {
      var (front, last) := (tags[..|tags| - 1], tags[|tags| - 1]);
      var (mid, gone) := (DeleteByTags(c, front), Doomed(c, front));
      DeleteByTagsIsExact(c, front);
      DeleteKeysByTagLinks(mid, last);
      var more := At(mid.tagSets, last);
      forall k ensures k in more <==> k in At(c.tagSets, last) && k !in gone {
        assert Has(mid, k, last) <==> Has(c, k, last) && k !in gone;
      }
      assert c.entries - gone - more == c.entries - (gone + At(c.tagSets, last));
      assert c.refreshing - gone - more == c.refreshing - (gone + At(c.tagSets, last));
      SameLinksTwice(c, mid, DeleteByTags(c, tags), gone, At(c.tagSets, last), more);
    }
  }

  lemma SameLinksTwice(a: Cache, b: Cache, c: Cache, gone: set<Key>, extra: set<Key>, more: set<Key>)
    requires SameLinksBut(a, b, gone) && SameLinksBut(b, c, more) && more == extra - gone
    ensures SameLinksBut(a, c, gone + extra)
  {
    forall k, t ensures Has(c, k, t) <==> Has(a, k, t) && k !in gone + extra {
      assert Has(b, k, t) <==> Has(a, k, t) && k !in gone;
    }
  }

  datatype Op =
    | DoPut(key: Key, value: string, tags: seq<Tag>, refresh: bool)
    | DoDelete(key: Key)
    | DoDeleteByTags(tags: seq<Tag>)
    | DoExpire(key: Key)

  function Apply(c: Cache, op: Op): Cache {
    match op
    case DoPut(key, value, tags, refresh) => Put(c, key, value, tags, refresh)
    case DoDelete(key) => Delete(c, {key})
    case DoDeleteByTags(tags) => DeleteByTags(c, tags)
    case DoExpire(key) => Expire(c, key)
  }

  const EMPTY := Cache(map[], map[], map[], map[], {})

  function After(ops: seq<Op>): Cache {
    if ops == [] then EMPTY else Apply(After(ops[..|ops| - 1]), ops[|ops| - 1])
  }

  /** The links the history alone prescribes: made by a put, unmade by deleting
      the key or by deleting any tag it carries. */
  ghost predicate Linked(ops: seq<Op>, k: Key, t: Tag) {
    ops != [] &&
    var front := ops[..|ops| - 1];
    match ops[|ops| - 1]
    case DoPut(key, _, tags, _) => Linked(front, k, t) || (k == key && t in tags)
    case DoDelete(key) => Linked(front, k, t) && k != key
    case DoDeleteByTags(tags) => Linked(front, k, t) && !exists x :: x in tags && Linked(front, k, x)
    case DoExpire(_) => Linked(front, k, t)
  }

  ghost predicate AsPrescribed(c: Cache, ops: seq<Op>) {
    Coherent(c) && forall k, t :: Has(c, k, t) <==> Linked(ops, k, t)
  }

  lemma {:induction false} RunAsPrescribed(ops: seq<Op>)
    ensures AsPrescribed(After(ops), ops)
  {
    if ops != [] {
      var (front, op, c) := (ops[..|ops| - 1], ops[|ops| - 1], After(ops[..|ops| - 1]));
      RunAsPrescribed(front);
      match op {
        case DoPut(key, value, tags, refresh) => PutLinks(c, key, value, tags, refresh);
        case DoDelete(key) => DeleteLinks(c, {key});
        case DoDeleteByTags(tags) => DeleteByTagsIsExact(c, tags);
        case DoExpire(key) => ExpireLinks(c, key);
      }
      forall k, t ensures Has(After(ops), k, t) <==> Linked(ops, k, t) {
        assert Has(c, k, t) <==> Linked(front, k, t);
        if op.DoDeleteByTags? {
          DoomedMeans(c, op.tags, k);
          assert forall x :: Has(c, k, x) <==> Linked(front, k, x);
        }
      }
    }
  }

  lemma ExpireLinks(c: Cache, key: Key)
    requires Coherent(c)
    ensures Coherent(Expire(c, key))
  {
    forall k, t ensures Agree(Expire(c, key), k, t) {
      assert Agree(c, k, t);
    }
  }

  /** After any run the three representations denote the same relation, and it
      is the one the history prescribes. */
  lemma OneRelation(ops: seq<Op>, k: Key, t: Tag)
    ensures Has(After(ops), k, t) <==> Linked(ops, k, t)
    ensures k in At(After(ops).memory, t) <==> Linked(ops, k, t)
    ensures t in At(After(ops).keyTags, k) <==> Linked(ops, k, t)
  {
    RunAsPrescribed(ops);
    assert Agree(After(ops), k, t);
  }

  // ----- what is stored

  /** The entry that the history alone prescribes: that of the last set, unless it
      has since expired, been deleted, or carried a tag that was deleted. */
  ghost function EntryBy(ops: seq<Op>, k: Key): Option<string> {
    if ops == [] then None
    else
      var front := ops[..|ops| - 1];
      match ops[|ops| - 1]
      case DoPut(key, value, _, _) => if k == key then Some(value) else EntryBy(front, k)
      case DoDelete(key) => if k == key then None else EntryBy(front, k)
      case DoDeleteByTags(tags) => if exists t :: t in tags && Linked(front, k, t) then None else EntryBy(front, k)
      case DoExpire(key) => if k == key then None else EntryBy(front, k)
  }

  /** A key is queued for refreshing by a set that asks for it, until it is deleted;
      expiry leaves it queued. */
  ghost predicate QueuedBy(ops: seq<Op>, k: Key) {
    ops != [] &&
    var front := ops[..|ops| - 1];
    match ops[|ops| - 1]
    case DoPut(key, _, _, refresh) => QueuedBy(front, k) || (k == key && refresh)
    case DoDelete(key) => QueuedBy(front, k) && k != key
    case DoDeleteByTags(tags) => QueuedBy(front, k) && !exists t :: t in tags && Linked(front, k, t)
    case DoExpire(_) => QueuedBy(front, k)
  }

  /** After any run: a key has an entry exactly when it was set and has since not
      expired, been deleted, or carried a deleted tag; the entry is the value set
      last; and the refresh queue holds what the history prescribes. */
  lemma {:induction false} EntriesAsPrescribed(ops: seq<Op>, k: Key)
    ensures k in After(ops).entries <==> EntryBy(ops, k).Some?
    ensures k in After(ops).entries ==> EntryBy(ops, k) == Some(After(ops).entries[k])
    ensures k in After(ops).refreshing <==> QueuedBy(ops, k)
  {
    if ops != [] {
      var (front, op) := (ops[..|ops| - 1], ops[|ops| - 1]);
      EntriesAsPrescribed(front, k);
      if op.DoDeleteByTags? {
        RunAsPrescribed(front);
        DeleteByTagsIsExact(After(front), op.tags);
        DoomedMeans(After(front), op.tags, k);
        assert forall t :: Has(After(front), k, t) <==> Linked(front, k, t);
      }
    }
  }

  // ----- deleting one by one

  lemma DeleteNone(c: Cache)
    requires Coherent(c)
    ensures Delete(c, {}) == c
  {
    var d := Delete(c, {});
    forall t, s: set<Key> ensures s - Carriers(c, {}, t) == s {
    }
    forall t ensures t in d.tagSets <==> t in c.tagSets {
      assert t in c.tagSets ==> c.tagSets[t] - Carriers(c, {}, t) == c.tagSets[t];
    }
    assert d.memory == c.memory;
    assert d.tagSets == c.tagSets;
  }

  lemma DeleteOneMore(c: Cache, keys: set<Key>, k: Key)
    requires k !in keys
    ensures Delete(Delete(c, keys), {k}) == Delete(c, keys + {k})
  {
    var (d, once, all) := (Delete(c, keys), Delete(Delete(c, keys), {k}), Delete(c, keys + {k}));
    forall t, s: set<Key>
      ensures s - Carriers(c, keys, t) - Carriers(d, {k}, t) == s - Carriers(c, keys + {k}, t)
    {
      assert At(d.keyTags, k) == At(c.keyTags, k);
      assert Carriers(c, keys + {k}, t) == Carriers(c, keys, t) + Carriers(d, {k}, t);
    }
    forall t ensures t in once.tagSets <==> t in all.tagSets {
      if t in c.tagSets {
        assert c.tagSets[t] - Carriers(c, keys, t) - Carriers(d, {k}, t) == c.tagSets[t] - Carriers(c, keys + {k}, t);
      }
    }
    assert once.tagSets == all.tagSets;
    assert once.memory == all.memory;
    assert once.keyTags == all.keyTags;
    assert once.entries == all.entries && once.refreshing == all.refreshing;
  }

  // ----- one tag at a time

  lemma LinkNothing(m: map<Tag, set<Key>>, key: Key)
    ensures Link(m, key, {}) == m
  {
  }

  lemma LinkOneMore(m: map<Tag, set<Key>>, key: Key, ts: set<Tag>, t: Tag)
    ensures var l := Link(m, key, ts); l[t := At(l, t) + {key}] == Link(m, key, ts + {t})
  {
    var l := Link(m, key, ts);
    assert l[t := At(l, t) + {key}].Keys == Link(m, key, ts + {t}).Keys;
    assert At(l, t) + {key} == At(m, t) + {key};
  }

  /** A set in memory that becomes empty stays. */
  function UnlinkInMemory(m: map<Tag, set<Key>>, key: Key, ts: set<Tag>): map<Tag, set<Key>> {
    map t | t in m :: if t in ts then m[t] - {key} else m[t]
  }

  /** A set in the store that becomes empty goes. */
  function UnlinkInStore(m: map<Tag, set<Key>>, key: Key, ts: set<Tag>): map<Tag, set<Key>> {
    map t | t in m && (t in ts ==> m[t] - {key} != {}) :: if t in ts then m[t] - {key} else m[t]
  }

  lemma UnlinkOneMore(m: map<Tag, set<Key>>, key: Key, ts: set<Tag>, t: Tag)
    ensures var l := UnlinkInMemory(m, key, ts);
            UnlinkInMemory(m, key, ts + {t}) == if t in l then l[t := l[t] - {key}] else l
    ensures var (l, rest) := (UnlinkInStore(m, key, ts), At(UnlinkInStore(m, key, ts), t) - {key});
            UnlinkInStore(m, key, ts + {t}) == if rest == {} then l - {t} else l[t := rest]
  {
    if t in m {
      assert m[t] - {key} - {key} == m[t] - {key};
    }
  }

  lemma DeleteOneKey(c: Cache, key: Key)
    requires forall t :: t in c.tagSets ==> c.tagSets[t] != {}
    ensures Delete(c, {key}).memory == UnlinkInMemory(c.memory, key, At(c.keyTags, key))
    ensures Delete(c, {key}).tagSets == UnlinkInStore(c.tagSets, key, At(c.keyTags, key))
  {
    forall t ensures Carriers(c, {key}, t) == if t in At(c.keyTags, key) then {key} else {} {
    }
    var (d, ts) := (Delete(c, {key}), At(c.keyTags, key));
    forall s: set<Key> ensures s - {} == s {
    }
    assert d.memory == UnlinkInMemory(c.memory, key, ts);
    assert d.tagSets == UnlinkInStore(c.tagSets, key, ts);
  }

  // ----- the class

  class EnhancedRedisCache {
    var entries: map<Key, string>
    var tagToKeysMap: map<Tag, set<Key>>
    var tagSets: map<Tag, set<Key>>
    var keyTags: map<Key, set<Tag>>
    var backgroundRefreshQueue: set<Key>

    ghost function State(): Cache
      reads this
    {
      Cache(entries, tagToKeysMap, tagSets, keyTags, backgroundRefreshQueue)
    }

    constructor ()
      ensures State() == EMPTY
    {
      entries, tagToKeysMap, tagSets, keyTags, backgroundRefreshQueue := map[], map[], map[], map[], {};
    }

    method SetEntry(key: Key, value: string, tags: seq<Tag>, refresh: bool)
      modifies this
      ensures State() == Put(old(State()), key, value, tags, refresh)
    {
      entries := entries[key := value];
      if refresh {
        backgroundRefreshQueue := backgroundRefreshQueue + {key};
      }
      if |tags| > 0 {
        AssociateKeyWithTags(key, tags);
      }
      ghost var ts := SetOf(tags);
      if |tags| == 0 {
        assert ts == {};
        LinkNothing(old(tagToKeysMap), key);
        LinkNothing(old(tagSets), key);
      } else {
        assert tags[0] in ts;
      }
    }

    method AssociateKeyWithTags(key: Key, tags: seq<Tag>)
      modifies this`tagToKeysMap, this`tagSets, this`keyTags
      ensures tagToKeysMap == Link(old(tagToKeysMap), key, SetOf(tags))
      ensures tagSets == Link(old(tagSets), key, SetOf(tags))
      ensures keyTags == old(keyTags)[key := At(old(keyTags), key) + SetOf(tags)]
    {
      ghost var done: set<Tag> := {};
      var i := 0;
      while i < |tags|
        invariant 0 <= i <= |tags| && keyTags == old(keyTags)
        invariant done == SetOf(tags[..i])
        invariant tagToKeysMap == Link(old(tagToKeysMap), key, done)
        invariant tagSets == Link(old(tagSets), key, done)
      {
        var tag := tags[i];
        SetOfSnoc(tags, i);
        LinkOneMore(old(tagToKeysMap), key, done, tag);
        LinkOneMore(old(tagSets), key, done, tag);
        AddToTag(key, tag);
        done := done + {tag};
        i := i + 1;
      }
      assert tags[..i] == tags;
      keyTags := keyTags[key := At(keyTags, key) + SetOf(tags)];
    }

    method AddToTag(key: Key, tag: Tag)
      modifies this`tagToKeysMap, this`tagSets
      ensures tagToKeysMap == old(tagToKeysMap)[tag := At(old(tagToKeysMap), tag) + {key}]
      ensures tagSets == old(tagSets)[tag := At(old(tagSets), tag) + {key}]
    {
      if tag !in tagToKeysMap {
        tagToKeysMap := tagToKeysMap[tag := {}];
      }
      tagToKeysMap := tagToKeysMap[tag := tagToKeysMap[tag] + {key}];
      tagSets := tagSets[tag := At(tagSets, tag) + {key}];
    }

    method DeleteEntry(key: Key) returns (found: bool)
      requires Coherent(State())
      modifies this
      ensures State() == Delete(old(State()), {key})
      ensures found <==> key in old(entries)
    {
      backgroundRefreshQueue := backgroundRefreshQueue - {key};
      RemoveKeyFromTags(key);
      found := key in entries;
      entries := entries - {key};
    }

    method RemoveKeyFromTags(key: Key)
      requires forall t :: t in tagSets ==> tagSets[t] != {}
      modifies this`tagToKeysMap, this`tagSets, this`keyTags
      ensures tagToKeysMap == Delete(old(State()), {key}).memory
      ensures tagSets == Delete(old(State()), {key}).tagSets
      ensures keyTags == Delete(old(State()), {key}).keyTags
    {
      DeleteOneKey(State(), key);
      var tags := At(keyTags, key);
      ghost var done: set<Tag> := {};
      var todo := tags;
      while todo != {}
        invariant tags == done + todo && keyTags == old(keyTags)
        invariant tagToKeysMap == UnlinkInMemory(old(tagToKeysMap), key, done)
        invariant tagSets == UnlinkInStore(old(tagSets), key, done)
        decreases todo
      {
        var tag :| tag in todo;
        UnlinkOneMore(old(tagToKeysMap), key, done, tag);
        UnlinkOneMore(old(tagSets), key, done, tag);
        if tag in tagToKeysMap {
          tagToKeysMap := tagToKeysMap[tag := tagToKeysMap[tag] - {key}];
        }
        var rest := At(tagSets, tag) - {key};
        tagSets := if rest == {} then tagSets - {tag} else tagSets[tag := rest];
        done, todo := done + {tag}, todo - {tag};
      }
      assert done == tags;
      keyTags := keyTags - {key};
    }

    method InvalidateByTags(tags: seq<Tag>)
      requires Coherent(State())
      modifies this
      ensures State() == DeleteByTags(old(State()), tags)
      ensures Coherent(State())
    {
      var i := 0;
      while i < |tags|
        invariant 0 <= i <= |tags|
        invariant State() == DeleteByTags(old(State()), tags[..i]) && Coherent(State())
      {
        assert tags[..i + 1][..i] == tags[..i];
        DeleteKeysByTagLinks(State(), tags[i]);
        InvalidateByTag(tags[i]);
        i := i + 1;
      }
      assert tags[..i] == tags;
    }

    method InvalidateByTag(tag: Tag)
      requires Coherent(State())
      modifies this
      ensures State() == DeleteKeysByTag(old(State()), tag)
    {
      var keys := At(tagSets, tag);
      ghost var done: set<Key> := {};
      var todo := keys;
      DeleteNone(State());
      while todo != {}
        invariant keys == done + todo && done !! todo
        invariant State() == Delete(old(State()), done)
        decreases todo
      {
        var key :| key in todo;
        DeleteLinks(old(State()), done);
        DeleteOneMore(old(State()), done, key);
        var found := DeleteEntry(key);
        done, todo := done + {key}, todo - {key};
      }
      assert done == keys;
      tagSets := tagSets - {tag};
      tagToKeysMap := tagToKeysMap - {tag};
    }
  }
}
