/**
 Cache operations as steps.  Every access to the store, and every update of the
 map in memory, is a step of its own; TagOverlap lets the steps of any number of
 operations interleave.

 A key's row is what the three representations say about that key.  A step on a
 key changes the row of that key alone, and what an operation will leave in a row
 depends on that row only; that makes interleavings tractable.
 */
module TagSteps {
  import opened Wrappers
  import opened TagIndex

  datatype Action =
    | StoreEntry(key: Key, value: string)
    | Enqueue(key: Key)
    | AddInMemory(tag: Tag, key: Key)
    | AddInStore(tag: Tag, key: Key)
    | AddOwnTags(key: Key, tags: set<Tag>)
    | Dequeue(key: Key)
    | ReadTags(key: Key)
    | DropInMemory(tag: Tag, key: Key)
    | DropInStore(tag: Tag, key: Key)
    | DropOwnTags(key: Key)
    | DropEntry(key: Key)
    | ReadCarriers(tag: Tag)
    | DropTagInStore(tag: Tag)
    | DropTagInMemory(tag: Tag)

  // ----- the steps of an operation

  function Links(key: Key, tags: seq<Tag>): seq<Action> {
    if tags == [] then []
    else Links(key, tags[..|tags| - 1]) + [AddInMemory(tags[|tags| - 1], key), AddInStore(tags[|tags| - 1], key)]
  }

  function Unlinks(key: Key, tags: seq<Tag>): seq<Action> {
    if tags == [] then []
    else Unlinks(key, tags[..|tags| - 1]) + [DropInMemory(tags[|tags| - 1], key), DropInStore(tags[|tags| - 1], key)]
  }

  function Deletion(key: Key): seq<Action> {
    [Dequeue(key), ReadTags(key), DropOwnTags(key), DropEntry(key)]
  }

  function Deletions(keys: seq<Key>): seq<Action> {
    if keys == [] then [] else Deletions(keys[..|keys| - 1]) + Deletion(keys[|keys| - 1])
  }

  function Invalidations(tags: seq<Tag>): seq<Action> {
    if tags == [] then []
    else
      var t := tags[|tags| - 1];
      Invalidations(tags[..|tags| - 1]) + [ReadCarriers(t), DropTagInStore(t), DropTagInMemory(t)]
  }

  function PutHead(key: Key, value: string, refresh: bool): seq<Action> {
    if refresh then [StoreEntry(key, value), Enqueue(key)] else [StoreEntry(key, value)]
  }

  function PutTail(key: Key, tags: seq<Tag>): seq<Action> {
    if tags == [] then [] else Links(key, tags) + [AddOwnTags(key, SetOf(tags))]
  }

  function Program(op: Op): seq<Action> {
    match op
    case DoPut(key, value, tags, refresh) => PutHead(key, value, refresh) + PutTail(key, tags)
    case DoDelete(key) => Deletion(key)
    case DoDeleteByTags(tags) => Invalidations(tags)
    case DoExpire(key) => [DropEntry(key)]
  }

  /** A read changes nothing; what it found decides the steps that follow. */
  function Perform(c: Cache, a: Action): Cache {
    match a
    case StoreEntry(k, v) => c.(entries := c.entries[k := v])
    case Enqueue(k) => c.(refreshing := c.refreshing + {k})
    case Dequeue(k) => c.(refreshing := c.refreshing - {k})
    case DropEntry(k) => c.(entries := c.entries - {k})
    case AddInMemory(t, k) => c.(memory := c.memory[t := At(c.memory, t) + {k}])
    case AddInStore(t, k) => c.(tagSets := c.tagSets[t := At(c.tagSets, t) + {k}])
    case AddOwnTags(k, ts) => if ts == {} then c else c.(keyTags := c.keyTags[k := At(c.keyTags, k) + ts])
    case DropInMemory(t, k) => if t in c.memory then c.(memory := c.memory[t := c.memory[t] - {k}]) else c
    case DropInStore(t, k) =>
      var rest := At(c.tagSets, t) - {k};
      c.(tagSets := if rest == {} then c.tagSets - {t} else c.tagSets[t := rest])
    case DropOwnTags(k) => c.(keyTags := c.keyTags - {k})
    case DropTagInStore(t) => c.(tagSets := c.tagSets - {t})
    case DropTagInMemory(t) => c.(memory := c.memory - {t})
    case ReadTags(_) => c
    case ReadCarriers(_) => c
  }

  // ----- one key's row

  datatype Row = Row(memory: set<Tag>, store: set<Tag>, own: set<Tag>)

  function Carried(m: map<Tag, set<Key>>, k: Key): set<Tag> {
    set t | t in m && k in m[t]
  }

  function RowOf(c: Cache, k: Key): Row {
    Row(Carried(c.memory, k), Carried(c.tagSets, k), At(c.keyTags, k))
  }

  predicate Clean(r: Row) {
    r.memory == r.store == r.own
  }

  /** A key deleted through its own record of tags. */
  function Unlinked(r: Row): Row {
    Row(r.memory - r.own, r.store - r.own, {})
  }

  /** What a step, with all that follows from a read, does to the row of k. */
  function Effect(r: Row, k: Key, a: Action): Row {
    match a
    case AddInMemory(t, key) => if key == k then r.(memory := r.memory + {t}) else r
    case AddInStore(t, key) => if key == k then r.(store := r.store + {t}) else r
    case AddOwnTags(key, ts) => if key == k then r.(own := r.own + ts) else r
    case DropInMemory(t, key) => if key == k then r.(memory := r.memory - {t}) else r
    case DropInStore(t, key) => if key == k then r.(store := r.store - {t}) else r
    case DropOwnTags(key) => if key == k then r.(own := {}) else r
    case ReadTags(key) => if key == k then Row(r.memory - r.own, r.store - r.own, r.own) else r
    case ReadCarriers(t) => if t in r.store then Unlinked(r) else r
    case DropTagInStore(t) => r.(store := r.store - {t})
    case DropTagInMemory(t) => r.(memory := r.memory - {t})
    case _ => r
  }

  function Finish(r: Row, k: Key, todo: seq<Action>): Row
    decreases |todo|
  {
    if todo == [] then r else Finish(Effect(r, k, todo[0]), k, todo[1..])
  }

  lemma {:induction false} FinishConcat(r: Row, k: Key, p: seq<Action>, q: seq<Action>)
    ensures Finish(r, k, p + q) == Finish(Finish(r, k, p), k, q)
    decreases |p|
  {
    if p == [] {
      assert p + q == q;
    } else {
      assert (p + q)[0] == p[0] && (p + q)[1..] == p[1..] + q;
      FinishConcat(Effect(r, k, p[0]), k, p[1..], q);
    }
  }

  lemma FinishTwo(r: Row, k: Key, a: Action, b: Action)
    ensures Finish(r, k, [a, b]) == Effect(Effect(r, k, a), k, b)
  {
    assert [a, b][1..] == [b] && [b][1..] == [];
    assert Finish(Effect(r, k, a), k, [b]) == Finish(Effect(Effect(r, k, a), k, b), k, []);
  }

  predicate IsRead(a: Action) {
    a.ReadTags? || a.ReadCarriers?
  }

  lemma PerformRow(c: Cache, a: Action, k: Key)
    requires !IsRead(a)
    ensures RowOf(Perform(c, a), k) == Effect(RowOf(c, k), k, a)
  {
    match a
    case AddInMemory(t, key) => CarriedUpdate(c.memory, t, At(c.memory, t) + {key}, k);
    case AddInStore(t, key) => CarriedUpdate(c.tagSets, t, At(c.tagSets, t) + {key}, k);
    case DropInMemory(t, key) =>
      if t in c.memory {
        CarriedUpdate(c.memory, t, c.memory[t] - {key}, k);
      }
    case DropInStore(t, key) =>
      CarriedUpdate(c.tagSets, t, At(c.tagSets, t) - {key}, k);
      CarriedWithout(c.tagSets, t, k);
    case DropTagInStore(t) => CarriedWithout(c.tagSets, t, k);
    case DropTagInMemory(t) => CarriedWithout(c.memory, t, k);
    case _ =>
  }

  lemma CarriedUpdate(m: map<Tag, set<Key>>, t: Tag, s: set<Key>, k: Key)
    ensures Carried(m[t := s], k) == if k in s then Carried(m, k) + {t} else Carried(m, k) - {t}
    ensures k !in At(m, t) ==> Carried(m, k) - {t} == Carried(m, k)
    ensures k in At(m, t) ==> Carried(m, k) + {t} == Carried(m, k)
  {
  }

  lemma CarriedWithout(m: map<Tag, set<Key>>, t: Tag, k: Key)
    ensures Carried(m - {t}, k) == Carried(m, k) - {t}
    ensures k !in At(m, t) ==> Carried(m, k) - {t} == Carried(m, k)
  {
  }

  lemma {:induction false} FinishLinks(r: Row, k: Key, key: Key, tags: seq<Tag>)
    ensures Finish(r, k, Links(key, tags))
            == if k == key then r.(memory := r.memory + SetOf(tags), store := r.store + SetOf(tags)) else r
  {
    if tags == [] {
      assert SetOf(tags) == {};
    } else {
      var (front, t) := (tags[..|tags| - 1], tags[|tags| - 1]);
      FinishLinks(r, k, key, front);
      FinishConcat(r, k, Links(key, front), [AddInMemory(t, key), AddInStore(t, key)]);
      FinishTwo(Finish(r, k, Links(key, front)), k, AddInMemory(t, key), AddInStore(t, key));
      assert tags[..|tags|] == tags;
      SetOfSnoc(tags, |tags| - 1);
    }
  }

  lemma {:induction false} FinishUnlinks(r: Row, k: Key, key: Key, tags: seq<Tag>)
    ensures Finish(r, k, Unlinks(key, tags))
            == if k == key then r.(memory := r.memory - SetOf(tags), store := r.store - SetOf(tags)) else r
  {
    if tags == [] {
      assert SetOf(tags) == {};
    } else {
      var (front, t) := (tags[..|tags| - 1], tags[|tags| - 1]);
      FinishUnlinks(r, k, key, front);
      FinishConcat(r, k, Unlinks(key, front), [DropInMemory(t, key), DropInStore(t, key)]);
      FinishTwo(Finish(r, k, Unlinks(key, front)), k, DropInMemory(t, key), DropInStore(t, key));
      assert tags[..|tags|] == tags;
      SetOfSnoc(tags, |tags| - 1);
    }
  }

  lemma FinishDeletion(r: Row, k: Key, key: Key)
    ensures Finish(r, k, Deletion(key)) == if k == key then Unlinked(r) else r
  {
    FinishConcat(r, k, [Dequeue(key), ReadTags(key)], [DropOwnTags(key), DropEntry(key)]);
    assert [Dequeue(key), ReadTags(key)] + [DropOwnTags(key), DropEntry(key)] == Deletion(key);
    FinishTwo(r, k, Dequeue(key), ReadTags(key));
    FinishTwo(Finish(r, k, [Dequeue(key), ReadTags(key)]), k, DropOwnTags(key), DropEntry(key));
  }

  lemma {:induction false} FinishDeletions(r: Row, k: Key, keys: seq<Key>)
    ensures Finish(r, k, Deletions(keys)) == if k in keys then Unlinked(r) else r
  {
    if keys != [] {
      var (front, last) := (keys[..|keys| - 1], keys[|keys| - 1]);
      assert keys == front + [last];
      FinishDeletions(r, k, front);
      FinishConcat(r, k, Deletions(front), Deletion(last));
      FinishDeletion(Finish(r, k, Deletions(front)), k, last);
      assert Unlinked(r).memory - {} == Unlinked(r).memory && Unlinked(r).store - {} == Unlinked(r).store;
    }
  }

  /** A clean row that meets a tag is emptied, any other stays. */
  lemma {:induction false} FinishInvalidations(r: Row, k: Key, tags: seq<Tag>)
    requires Clean(r)
    ensures Finish(r, k, Invalidations(tags)) == if r.own !! SetOf(tags) then r else Row({}, {}, {})
  {
    if tags != [] {
      var (front, t) := (tags[..|tags| - 1], tags[|tags| - 1]);
      var last := [ReadCarriers(t), DropTagInStore(t), DropTagInMemory(t)];
      FinishInvalidations(r, k, front);
      FinishConcat(r, k, Invalidations(front), last);
      FinishLastTag(Finish(r, k, Invalidations(front)), k, t);
      assert tags[..|tags|] == tags;
      SetOfSnoc(tags, |tags| - 1);
      assert t in r.own ==> t in r.own * SetOf(tags);
    }
  }

  lemma FinishLastTag(r: Row, k: Key, t: Tag)
    requires Clean(r)
    ensures Finish(r, k, [ReadCarriers(t), DropTagInStore(t), DropTagInMemory(t)]) == if t in r.own then Row({}, {}, {}) else r
  {
    var s := Effect(r, k, ReadCarriers(t));
    assert s == if t in r.own then Row({}, {}, {}) else r;
    assert [ReadCarriers(t), DropTagInStore(t), DropTagInMemory(t)][1..] == [DropTagInStore(t), DropTagInMemory(t)];
    FinishTwo(s, k, DropTagInStore(t), DropTagInMemory(t));
  }

  /** What a whole operation makes of the tags of k. */
  ghost function Turn(tags: set<Tag>, k: Key, op: Op): set<Tag> {
    match op
    case DoPut(key, _, ts, _) => if k == key then tags + SetOf(ts) else tags
    case DoDelete(key) => if k == key then {} else tags
    case DoDeleteByTags(ts) => if tags !! SetOf(ts) then tags else {}
    case DoExpire(_) => tags
  }

  lemma FinishProgram(r: Row, k: Key, op: Op)
    requires Clean(r)
    ensures var tags := Turn(r.own, k, op); Finish(r, k, Program(op)) == Row(tags, tags, tags)
  {
    match op
    case DoPut(key, value, tags, refresh) => FinishPut(r, k, key, value, tags, refresh);
    case DoDelete(key) => FinishDeletion(r, k, key);
    case DoDeleteByTags(tags) => FinishInvalidations(r, k, tags);
    case DoExpire(key) =>
  }

  lemma FinishHead(r: Row, k: Key, key: Key, value: string, refresh: bool)
    ensures Finish(r, k, PutHead(key, value, refresh)) == r
  {
    if refresh {
      FinishTwo(r, k, StoreEntry(key, value), Enqueue(key));
    }
  }

  lemma FinishPut(r: Row, k: Key, key: Key, value: string, tags: seq<Tag>, refresh: bool)
    ensures Finish(r, k, Program(DoPut(key, value, tags, refresh)))
            == if k == key then Row(r.memory + SetOf(tags), r.store + SetOf(tags), r.own + SetOf(tags)) else r
  {
    FinishHead(r, k, key, value, refresh);
    FinishConcat(r, k, PutHead(key, value, refresh), PutTail(key, tags));
    if tags == [] {
      assert SetOf(tags) == {};
    } else {
      FinishLinks(r, k, key, tags);
      FinishConcat(r, k, Links(key, tags), [AddOwnTags(key, SetOf(tags))]);
    }
  }

  lemma RowMeans(c: Cache, k: Key, t: Tag)
    ensures t in RowOf(c, k).memory <==> k in At(c.memory, t)
    ensures t in RowOf(c, k).store <==> Has(c, k, t)
    ensures t in RowOf(c, k).own <==> t in At(c.keyTags, k)
  {
  }

  ghost function CarriedTags(c: Cache, k: Key): (tags: set<Tag>)
    ensures forall t :: t in tags <==> Has(c, k, t)
  {
    RowOf(c, k).store
  }

  lemma ApplyIsTurn(c: Cache, op: Op)
    requires Coherent(c)
    ensures Coherent(Apply(c, op))
    ensures forall k, t :: Has(Apply(c, op), k, t) <==> t in Turn(CarriedTags(c, k), k, op)
  {
    match op {
      case DoPut(key, value, tags, refresh) => PutLinks(c, key, value, tags, refresh);
      case DoDelete(key) => DeleteLinks(c, {key});
      case DoDeleteByTags(tags) =>
        DeleteByTagsIsExact(c, tags);
        forall k ensures k in Doomed(c, tags) <==> !(CarriedTags(c, k) !! SetOf(tags)) {
          DoomedMeans(c, tags, k);
          if t :| t in tags && Has(c, k, t) {
            assert t in CarriedTags(c, k) && t in SetOf(tags);
          }
        }
      case DoExpire(key) => ExpireLinks(c, key);
    }
  }

  /** An operation that runs alone does what the operations of TagIndex are said
      to do. */
  lemma AloneIsApply(c: Cache, op: Op, k: Key)
    requires Coherent(c)
    ensures RowOf(Apply(c, op), k) == Finish(RowOf(c, k), k, Program(op))
  {
    CoherentIsClean(c, k);
    FinishProgram(RowOf(c, k), k, op);
    ApplyIsTurn(c, op);
    CoherentIsClean(Apply(c, op), k);
    assert CarriedTags(Apply(c, op), k) == Turn(CarriedTags(c, k), k, op);
  }

  lemma CoherentIsClean(c: Cache, k: Key)
    requires Coherent(c)
    ensures Clean(RowOf(c, k))
  {
    forall t ensures t in RowOf(c, k).memory <==> t in RowOf(c, k).store
             ensures t in RowOf(c, k).own <==> t in RowOf(c, k).store
    {
      assert Agree(c, k, t);
      RowMeans(c, k, t);
    }
  }

  // ----- what is stored under one key

  datatype Held = Held(entry: Option<string>, queued: bool)

  const NOTHING := Held(None, false)

  function HeldOf(c: Cache, k: Key): Held {
    Held(if k in c.entries then Some(c.entries[k]) else None, k in c.refreshing)
  }

  /** What a step, with all that follows from a read, does to what is held under k,
      given the row of k. */
  function EffectHeld(h: Held, r: Row, k: Key, a: Action): Held {
    match a
    case StoreEntry(key, value) => if key == k then h.(entry := Some(value)) else h
    case Enqueue(key) => if key == k then h.(queued := true) else h
    case Dequeue(key) => if key == k then h.(queued := false) else h
    case DropEntry(key) => if key == k then h.(entry := None) else h
    case ReadCarriers(t) => if t in r.store then NOTHING else h
    case _ => h
  }

  function FinishHeld(h: Held, r: Row, k: Key, todo: seq<Action>): Held
    decreases |todo|
  {
    if todo == [] then h else FinishHeld(EffectHeld(h, r, k, todo[0]), Effect(r, k, todo[0]), k, todo[1..])
  }

  lemma PerformHeld(c: Cache, a: Action, k: Key)
    requires !IsRead(a)
    ensures HeldOf(Perform(c, a), k) == EffectHeld(HeldOf(c, k), RowOf(c, k), k, a)
  {
  }

  lemma {:induction false} HeldConcat(h: Held, r: Row, k: Key, p: seq<Action>, q: seq<Action>)
    ensures FinishHeld(h, r, k, p + q) == FinishHeld(FinishHeld(h, r, k, p), Finish(r, k, p), k, q)
    decreases |p|
  {
    if p == [] {
      assert p + q == q;
    } else {
      assert (p + q)[0] == p[0] && (p + q)[1..] == p[1..] + q;
      HeldConcat(EffectHeld(h, r, k, p[0]), Effect(r, k, p[0]), k, p[1..], q);
    }
  }

  lemma HeldTwo(h: Held, r: Row, k: Key, a: Action, b: Action)
    ensures FinishHeld(h, r, k, [a, b]) == EffectHeld(EffectHeld(h, r, k, a), Effect(r, k, a), k, b)
  {
    assert [a, b][1..] == [b] && [b][1..] == [];
    var (g, s) := (EffectHeld(h, r, k, a), Effect(r, k, a));
    assert FinishHeld(g, s, k, [b]) == FinishHeld(EffectHeld(g, s, k, b), Effect(s, k, b), k, []);
  }

  /** Steps on links leave entries and queue alone. */
  lemma {:induction false} HeldThroughLinks(h: Held, r: Row, k: Key, todo: seq<Action>)
    requires forall i :: 0 <= i < |todo| ==>
               var a := todo[i];
               !a.StoreEntry? && !a.Enqueue? && !a.Dequeue? && !a.DropEntry? && !a.ReadCarriers?
    ensures FinishHeld(h, r, k, todo) == h
    decreases |todo|
  {
    if todo != [] {
      assert forall i :: 0 <= i < |todo| - 1 ==> todo[1..][i] == todo[i + 1];
      HeldThroughLinks(h, Effect(r, k, todo[0]), k, todo[1..]);
    }
  }

  lemma {:induction false} LinkActions(key: Key, tags: seq<Tag>)
    ensures forall i :: 0 <= i < |Links(key, tags)| ==> var a := Links(key, tags)[i]; a.AddInMemory? || a.AddInStore?
    ensures forall i :: 0 <= i < |Unlinks(key, tags)| ==> var a := Unlinks(key, tags)[i]; a.DropInMemory? || a.DropInStore?
  {
    if tags != [] {
      LinkActions(key, tags[..|tags| - 1]);
    }
  }

  lemma HeldByPut(h: Held, r: Row, k: Key, key: Key, value: string, tags: seq<Tag>, refresh: bool)
    ensures FinishHeld(h, r, k, Program(DoPut(key, value, tags, refresh)))
            == if k == key then Held(Some(value), h.queued || refresh) else h
  {
    var (head, tail) := (PutHead(key, value, refresh), PutTail(key, tags));
    HeldConcat(h, r, k, head, tail);
    LinkActions(key, tags);
    HeldThroughLinks(FinishHeld(h, r, k, head), Finish(r, k, head), k, tail);
    if refresh {
      HeldTwo(h, r, k, StoreEntry(key, value), Enqueue(key));
    } else {
      assert head[1..] == [];
      assert FinishHeld(h, r, k, head) == EffectHeld(h, r, k, head[0]);
    }
  }

  lemma HeldByDeletion(h: Held, r: Row, k: Key, key: Key)
    ensures FinishHeld(h, r, k, Deletion(key)) == if k == key then NOTHING else h
  {
    HeldConcat(h, r, k, [Dequeue(key), ReadTags(key)], [DropOwnTags(key), DropEntry(key)]);
    assert [Dequeue(key), ReadTags(key)] + [DropOwnTags(key), DropEntry(key)] == Deletion(key);
    HeldTwo(h, r, k, Dequeue(key), ReadTags(key));
    var (g, s) := (FinishHeld(h, r, k, [Dequeue(key), ReadTags(key)]), Finish(r, k, [Dequeue(key), ReadTags(key)]));
    HeldTwo(g, s, k, DropOwnTags(key), DropEntry(key));
  }

  lemma {:induction false} HeldByDeletions(h: Held, r: Row, k: Key, keys: seq<Key>)
    ensures FinishHeld(h, r, k, Deletions(keys)) == if k in keys then NOTHING else h
  {
    if keys != [] {
      var (front, last) := (keys[..|keys| - 1], keys[|keys| - 1]);
      assert keys == front + [last];
      HeldByDeletions(h, r, k, front);
      HeldConcat(h, r, k, Deletions(front), Deletion(last));
      HeldByDeletion(FinishHeld(h, r, k, Deletions(front)), Finish(r, k, Deletions(front)), k, last);
    }
  }

  lemma {:induction false} HeldByInvalidations(h: Held, r: Row, k: Key, tags: seq<Tag>)
    requires Clean(r)
    ensures FinishHeld(h, r, k, Invalidations(tags)) == if r.own !! SetOf(tags) then h else NOTHING
  {
    if tags != [] {
      var (front, t) := (tags[..|tags| - 1], tags[|tags| - 1]);
      var last := [ReadCarriers(t), DropTagInStore(t), DropTagInMemory(t)];
      HeldByInvalidations(h, r, k, front);
      FinishInvalidations(r, k, front);
      HeldConcat(h, r, k, Invalidations(front), last);
      var (g, s) := (FinishHeld(h, r, k, Invalidations(front)), Finish(r, k, Invalidations(front)));
      assert last[1..] == [DropTagInStore(t), DropTagInMemory(t)];
      HeldTwo(EffectHeld(g, s, k, ReadCarriers(t)), Effect(s, k, ReadCarriers(t)), k, DropTagInStore(t), DropTagInMemory(t));
      assert tags[..|tags|] == tags;
      SetOfSnoc(tags, |tags| - 1);
      assert t in r.own ==> t in r.own * SetOf(tags);
    }
  }

  /** The steps of a whole operation that runs alone leave what the operation of
      TagIndex stores and queues. */
  lemma AloneStores(c: Cache, op: Op, k: Key)
    requires Coherent(c)
    ensures HeldOf(Apply(c, op), k) == FinishHeld(HeldOf(c, k), RowOf(c, k), k, Program(op))
  {
    var (h, r) := (HeldOf(c, k), RowOf(c, k));
    match op {
      case DoPut(key, value, tags, refresh) => HeldByPut(h, r, k, key, value, tags, refresh);
      case DoDelete(key) => HeldByDeletion(h, r, k, key);
      case DoDeleteByTags(tags) =>
        CoherentIsClean(c, k);
        HeldByInvalidations(h, r, k, tags);
        DeleteByTagsIsExact(c, tags);
        DoomedMeetsTags(c, tags, k);
      case DoExpire(key) =>
        assert FinishHeld(h, r, k, [DropEntry(key)]) == FinishHeld(EffectHeld(h, r, k, DropEntry(key)), r, k, []);
    }
  }

  lemma DoomedMeetsTags(c: Cache, tags: seq<Tag>, k: Key)
    requires Clean(RowOf(c, k))
    ensures k in Doomed(c, tags) <==> !(RowOf(c, k).own !! SetOf(tags))
  {
    DoomedMeans(c, tags, k);
    if t :| t in tags && Has(c, k, t) {
      assert t in RowOf(c, k).store && t in SetOf(tags);
    }
    if t :| t in RowOf(c, k).own && t in SetOf(tags) {
      assert t in tags && t in RowOf(c, k).store && Has(c, k, t);
    }
  }
}
