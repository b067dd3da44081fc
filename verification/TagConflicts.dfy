/**
 Conflicts of cache operations are real: from any coherent cache, two operations
 that start together and conflict have an interleaving after which the cache is
 not coherent.
 */
module TagConflicts {
  import opened Sequences
  import opened TagIndex
  import opened TagSteps
  import opened TagOverlap

  // ----- runs that are built

  lemma Extend(c: Cache, run: seq<Step>, s: Step) returns (longer: seq<Step>)
    requires Valid(c, run) && Enabled(Reached(c, run), s)
    ensures longer == run + [s] && Valid(c, longer) && Reached(c, longer) == Next(Reached(c, run), s)
  {
    longer := run + [s];
    assert longer[..|run|] == run;
  }

  lemma {:induction false} Enumerate<T(!new)>(s: set<T>) returns (list: seq<T>)
    ensures Distinct(list) && forall x :: x in list <==> x in s
  {
    if s == {} {
      list := [];
    } else {
      var x :| x in s;
      var rest := Enumerate(s - {x});
      list := rest + [x];
      DistinctSnoc(rest, x);
    }
  }

  /** The last key to be listed can be chosen. */
  lemma EnumerateWithLast(s: set<Key>, k: Key) returns (rest: seq<Key>)
    requires k in s
    ensures Distinct(rest + [k]) && k !in rest && forall x :: x in rest + [k] <==> x in s
  {
    rest := Enumerate(s - {k});
    DistinctSnoc(rest, k);
  }

  lemma SomeReads(c: Cache, a: Action) returns (tags: seq<Tag>, keys: seq<Key>)
    ensures Reads(c, a, tags, keys)
  {
    tags, keys := [], [];
    match a {
      case ReadTags(key) => tags := Enumerate(At(c.keyTags, key));
      case ReadCarriers(t) => keys := Enumerate(At(c.tagSets, t));
      case _ =>
    }
  }

  // ----- a part of an operation, while others stand still

  function Count(todo: seq<Action>, of: Action -> bool): nat {
    if todo == [] then 0 else Count(todo[1..], of) + (if of(todo[0]) then 1 else 0)
  }

  lemma {:induction false} CountConcat(a: seq<Action>, b: seq<Action>, of: Action -> bool)
    ensures Count(a + b, of) == Count(a, of) + Count(b, of)
  {
    if a == [] {
      assert a + b == b;
    } else {
      assert (a + b)[0] == a[0] && (a + b)[1..] == a[1..] + b;
      CountConcat(a[1..], b, of);
    }
  }

  lemma {:induction false} CountNone(a: seq<Action>, of: Action -> bool)
    requires forall i :: 0 <= i < |a| ==> !of(a[i])
    ensures Count(a, of) == 0
  {
    if a != [] {
      assert forall i :: 0 <= i < |a| - 1 ==> a[1..][i] == a[i + 1];
      CountNone(a[1..], of);
    }
  }

  function IsCarriers(): Action -> bool {
    (a: Action) => a.ReadCarriers?
  }

  function IsTags(): Action -> bool {
    (a: Action) => a.ReadTags?
  }

  lemma UnfoldReads(a: Action, tags: seq<Tag>, keys: seq<Key>)
    ensures Count(Unfold(a, tags, keys), IsCarriers()) == 0
    ensures !a.ReadCarriers? ==> Count(Unfold(a, tags, keys), IsTags()) == 0
  {
    match a {
      case ReadCarriers(_) =>
        DeletionsAre(keys);
        CountNone(Deletions(keys), IsCarriers());
      case ReadTags(key) =>
        UnlinksAre(key, tags);
        CountNone(Unlinks(key, tags), IsCarriers());
        CountNone(Unlinks(key, tags), IsTags());
      case _ =>
    }
  }

  /** A step leads to fewer reads of keys, or as many and fewer reads of tags, or
      as many and fewer steps. */
  lemma UnfoldCounts(part: seq<Action>, tags: seq<Tag>, keys: seq<Key>)
    requires part != []
    ensures var (a, more) := (part[0], Unfold(part[0], tags, keys) + part[1..]);
            && Count(more, IsCarriers()) == Count(part, IsCarriers()) - (if a.ReadCarriers? then 1 else 0)
            && (!a.ReadCarriers? ==> Count(more, IsTags()) == Count(part, IsTags()) - (if a.ReadTags? then 1 else 0))
            && (!IsRead(a) ==> |more| == |part| - 1)
  {
    UnfoldReads(part[0], tags, keys);
    CountConcat(Unfold(part[0], tags, keys), part[1..], IsCarriers());
    CountConcat(Unfold(part[0], tags, keys), part[1..], IsTags());
  }

  /** Flight n carries out a part of its steps, and leaves in every row what the
      part leaves. */
  ghost predicate DoneTo(c: Cache, run: seq<Step>, longer: seq<Step>, n: nat, part: seq<Action>, rest: seq<Action>)
    requires n in Reached(c, run).flights
  {
    var (w, y) := (Reached(c, run), Reached(c, longer));
    && Valid(c, longer) && Extends(run, longer)
    && y.flights == w.flights[n := w.flights[n].(todo := rest)]
    && forall k :: RowOf(y.cache, k) == Finish(RowOf(w.cache, k), k, part)
  }

  predicate Shorter(more: seq<Action>, part: seq<Action>) {
    || Count(more, IsCarriers()) < Count(part, IsCarriers())
    || (&& Count(more, IsCarriers()) == Count(part, IsCarriers())
        && (Count(more, IsTags()) < Count(part, IsTags())
            || (Count(more, IsTags()) == Count(part, IsTags()) && |more| < |part|)))
  }

  /** The first step of the part; what it reads may be found in any order. */
  lemma FirstStep(c: Cache, run: seq<Step>, n: nat, part: seq<Action>, rest: seq<Action>)
    returns (next: seq<Step>, more: seq<Action>)
    requires Valid(c, run) && n in Reached(c, run).flights && Reached(c, run).flights[n].todo == part + rest && part != []
    ensures Shorter(more, part) && Valid(c, next) && Extends(run, next)
    ensures Reached(c, next).flights == Reached(c, run).flights[n := Reached(c, run).flights[n].(todo := more + rest)]
    ensures forall k :: Finish(RowOf(Reached(c, next).cache, k), k, more) == Finish(RowOf(Reached(c, run).cache, k), k, part)
  {
    var (w, a) := (Reached(c, run), part[0]);
    assert w.flights[n].todo[0] == a && w.flights[n].todo[1..] == part[1..] + rest;
    var tags, keys := SomeReads(w.cache, a);
    more := Unfold(a, tags, keys) + part[1..];
    next := Extend(c, run, Advance(n, tags, keys));
    ConcatAssociative(Unfold(a, tags, keys), part[1..], rest);
    UnfoldCounts(part, tags, keys);
    forall k ensures Finish(RowOf(Reached(c, next).cache, k), k, more) == Finish(RowOf(w.cache, k), k, part) {
      StepKeepsFinish(w.cache, k, part, tags, keys);
    }
  }

  lemma {:induction false} DoPart(c: Cache, run: seq<Step>, n: nat, part: seq<Action>, rest: seq<Action>) returns (longer: seq<Step>)
    requires Valid(c, run) && n in Reached(c, run).flights && Reached(c, run).flights[n].todo == part + rest
    ensures DoneTo(c, run, longer, n, part, rest)
    decreases Count(part, IsCarriers()), Count(part, IsTags()), |part|
  {
    if part == [] {
      longer := run;
      assert Reached(c, run).flights[n].todo == rest;
    } else {
      var next, more := FirstStep(c, run, n, part, rest);
      longer := DoPart(c, next, n, more, rest);
    }
  }

  ghost predicate Pending(w: World, p: nat, first: seq<Action>, d: nat, second: seq<Action>) {
    && p != d && w.flights.Keys == {p, d}
    && w.flights[p].todo == first && w.flights[d].todo == second
  }

  /** A run that goes on until nothing is in flight. */
  ghost predicate Quits(c: Cache, run: seq<Step>, longer: seq<Step>) {
    Valid(c, longer) && Extends(run, longer) && Reached(c, longer).flights == map[]
  }

  lemma EndBoth(c: Cache, run: seq<Step>, p: nat, d: nat) returns (longer: seq<Step>)
    requires Valid(c, run) && Pending(Reached(c, run), p, [], d, [])
    ensures Quits(c, run, longer) && Reached(c, longer).cache == Reached(c, run).cache
  {
    longer := Extend(c, run, End(p));
    longer := Extend(c, longer, End(d));
  }

  /** Flight d carries out a part, then flight p all it has, then d the rest. */
  lemma Sandwich(c: Cache, run: seq<Step>, p: nat, d: nat, whole: seq<Action>, before: seq<Action>, rest: seq<Action>)
    returns (longer: seq<Step>)
    requires Valid(c, run) && Pending(Reached(c, run), p, whole, d, before + rest)
    ensures Quits(c, run, longer)
    ensures forall k :: RowOf(Reached(c, longer).cache, k)
                        == Finish(Finish(Finish(RowOf(Reached(c, run).cache, k), k, before), k, whole), k, rest)
  {
    var r1 := DoPart(c, run, d, before, rest);
    assert whole + [] == whole && rest + [] == rest;
    var r2 := DoPart(c, r1, p, whole, []);
    var r3 := DoPart(c, r2, d, rest, []);
    longer := EndBoth(c, r3, p, d);
  }

  // ----- a set inside a deletion

  /** The row of a key that was unlinked, then set, then loses its record. */
  lemma SetThenDropped(r: Row, put: Op, rest: seq<Action>)
    requires put.DoPut? && r.memory == r.store == {}
    requires var lost := Row(SetOf(put.tags), SetOf(put.tags), {}); Finish(lost, put.key, rest) == lost
    ensures var (k, ts) := (put.key, SetOf(put.tags));
            Finish(Finish(r, k, Program(put)), k, [DropOwnTags(k), DropEntry(k)] + rest) == Row(ts, ts, {})
  {
    var (k, ts) := (put.key, SetOf(put.tags));
    FinishPut(r, k, k, put.value, put.tags, put.refresh);
    assert {} + ts == ts;
    FinishConcat(Row(ts, ts, r.own + ts), k, [DropOwnTags(k), DropEntry(k)], rest);
    FinishTwo(Row(ts, ts, r.own + ts), k, DropOwnTags(k), DropEntry(k));
  }

  /** A deletion has unlinked the key and is about to drop its record of tags when
      a whole set links the key: the record of the new links is lost. */
  lemma PutInsideDeletion(c: Cache, run: seq<Step>, p: nat, d: nat, put: Op, before: seq<Action>, rest: seq<Action>)
    returns (longer: seq<Step>)
    requires put.DoPut? && put.tags != [] && Valid(c, run)
    requires Pending(Reached(c, run), p, Program(put), d, before + ([DropOwnTags(put.key), DropEntry(put.key)] + rest))
    requires var r := Finish(RowOf(Reached(c, run).cache, put.key), put.key, before); r.memory == r.store == {}
    requires var lost := Row(SetOf(put.tags), SetOf(put.tags), {}); Finish(lost, put.key, rest) == lost
    ensures Quits(c, run, longer) && !Coherent(Reached(c, longer).cache)
    ensures var y := Reached(c, longer).cache; At(y.keyTags, put.key) == {} && forall t :: t in put.tags ==> Has(y, put.key, t)
  {
    var k := put.key;
    longer := Sandwich(c, run, p, d, Program(put), before, [DropOwnTags(k), DropEntry(k)] + rest);
    SetThenDropped(Finish(RowOf(Reached(c, run).cache, k), k, before), put, rest);
    LostRecord(Reached(c, longer).cache, k, put.tags[0], SetOf(put.tags));
    forall t | t in put.tags ensures Has(Reached(c, longer).cache, k, t) {
      assert t in RowOf(Reached(c, longer).cache, k).store;
    }
  }

  lemma LostRecord(c: Cache, k: Key, t: Tag, ts: set<Tag>)
    requires RowOf(c, k) == Row(ts, ts, {}) && t in ts
    ensures !Coherent(c)
  {
    RowMeans(c, k, t);
    assert !Agree(c, k, t);
  }

  lemma DeletionBreaks(c: Cache, run: seq<Step>, p: nat, d: nat, put: Op) returns (longer: seq<Step>)
    requires put.DoPut? && put.tags != [] && Coherent(c) && Valid(c, run) && Reached(c, run).cache == c
    requires Pending(Reached(c, run), p, Program(put), d, Deletion(put.key))
    ensures Quits(c, run, longer) && !Coherent(Reached(c, longer).cache)
  {
    var (k, r) := (put.key, RowOf(c, put.key));
    assert Deletion(k) == [Dequeue(k), ReadTags(k)] + ([DropOwnTags(k), DropEntry(k)] + []);
    CoherentIsClean(c, k);
    FinishTwo(r, k, Dequeue(k), ReadTags(k));
    longer := PutInsideDeletion(c, run, p, d, put, [Dequeue(k), ReadTags(k)], []);
  }

  // ----- an invalidation inside a set

  /** An invalidated tag is gone from the store in the end. */
  lemma {:induction false} FinishInvalidationsDrops(r: Row, k: Key, tags: seq<Tag>, t: Tag)
    requires t in tags
    ensures t !in Finish(r, k, Invalidations(tags)).store
  {
    var (front, u) := (tags[..|tags| - 1], tags[|tags| - 1]);
    var (s, last) := (Finish(r, k, Invalidations(front)), [ReadCarriers(u), DropTagInStore(u), DropTagInMemory(u)]);
    assert tags == front + [u];
    FinishConcat(r, k, Invalidations(front), last);
    assert last[1..] == [DropTagInStore(u), DropTagInMemory(u)];
    FinishTwo(Effect(s, k, ReadCarriers(u)), k, DropTagInStore(u), DropTagInMemory(u));
    if t in front {
      FinishInvalidationsDrops(r, k, front, t);
    }
  }

  /** A set has linked its key in memory and in the store, and has its record of
      tags to write, when a whole invalidation of one of the tags comes between:
      the tag loses the key, which then says that it carries the tag. */
  lemma InvalidationInsidePut(c: Cache, run: seq<Step>, p: nat, d: nat, put: Op, tags: seq<Tag>, t: Tag) returns (longer: seq<Step>)
    requires put.DoPut? && t in put.tags && t in tags && Valid(c, run)
    requires Pending(Reached(c, run), p, Program(put), d, Invalidations(tags))
    ensures Quits(c, run, longer) && !Coherent(Reached(c, longer).cache)
    ensures var y := Reached(c, longer).cache; t in At(y.keyTags, put.key) && !Has(y, put.key, t)
  {
    var (k, last) := (put.key, [AddOwnTags(put.key, SetOf(put.tags))]);
    var first := PutHead(k, put.value, put.refresh) + Links(k, put.tags);
    assert Program(put) == first + last;
    longer := Sandwich(c, run, d, p, Invalidations(tags), first, last);
    var r := Finish(RowOf(Reached(c, run).cache, k), k, first);
    FinishInvalidationsDrops(r, k, tags, t);
    LostTag(Reached(c, longer).cache, Finish(r, k, Invalidations(tags)), k, t, SetOf(put.tags));
  }

  lemma LostTag(c: Cache, r: Row, k: Key, t: Tag, ts: set<Tag>)
    requires RowOf(c, k) == Finish(r, k, [AddOwnTags(k, ts)]) && t in ts && t !in r.store
    ensures t in At(c.keyTags, k) && !Has(c, k, t) && !Coherent(c)
  {
    var last := [AddOwnTags(k, ts)];
    assert Finish(r, k, last) == Finish(Effect(r, k, last[0]), k, []);
    RowMeans(c, k, t);
    assert !Agree(c, k, t);
  }

  // ----- a set inside the deletion that an invalidation makes

  lemma {:induction false} InvalidationsConcat(a: seq<Tag>, b: seq<Tag>)
    ensures Invalidations(a + b) == Invalidations(a) + Invalidations(b)
  {
    if b == [] {
      assert a + b == a;
    } else {
      var front := b[..|b| - 1];
      assert (a + b)[..|a + b| - 1] == a + front;
      InvalidationsConcat(a, front);
    }
  }

  /** Tags that a key does not carry leave its row alone. */
  lemma {:induction false} FinishInvalidationsMiss(r: Row, k: Key, tags: seq<Tag>)
    requires forall t :: t in tags ==> t !in r.store && t !in r.memory
    ensures Finish(r, k, Invalidations(tags)) == r
  {
    if tags != [] {
      var (front, u) := (tags[..|tags| - 1], tags[|tags| - 1]);
      var last := [ReadCarriers(u), DropTagInStore(u), DropTagInMemory(u)];
      assert tags == front + [u];
      FinishInvalidationsMiss(r, k, front);
      FinishConcat(r, k, Invalidations(front), last);
      assert last[1..] == [DropTagInStore(u), DropTagInMemory(u)];
      FinishTwo(r, k, DropTagInStore(u), DropTagInMemory(u));
      assert r.store - {u} == r.store && r.memory - {u} == r.memory;
    }
  }

  lemma {:induction false} FirstCarried(tags: seq<Tag>, own: set<Tag>) returns (j: nat)
    requires exists t :: t in tags && t in own
    ensures j < |tags| && tags[j] in own && own !! SetOf(tags[..j])
  {
    if tags[0] in own {
      j := 0;
    } else {
      assert tags == [tags[0]] + tags[1..];
      j := FirstCarried(tags[1..], own);
      j := j + 1;
      assert tags[..j] == [tags[0]] + tags[1..][..j - 1];
      forall t | t in SetOf(tags[..j]) ensures t !in own {
        assert t == tags[0] || t in SetOf(tags[1..][..j - 1]);
      }
    }
  }

  /** What is left of an invalidation after the keys of its jth tag were read. */
  function Later(tags: seq<Tag>, j: nat): seq<Action>
    requires j < |tags|
  {
    [DropTagInStore(tags[j]), DropTagInMemory(tags[j])] + Invalidations(tags[j + 1..])
  }

  lemma InvalidationsSplit(tags: seq<Tag>, j: nat)
    requires j < |tags|
    ensures Invalidations(tags) == Invalidations(tags[..j]) + ([ReadCarriers(tags[j])] + Later(tags, j))
  {
    SplitAt(tags, j);
    InvalidationsConcat(tags[..j], [tags[j]] + tags[j + 1..]);
    InvalidationsConcat([tags[j]], tags[j + 1..]);
    InvalidationsOfOne(tags[j], Invalidations(tags[j + 1..]));
  }

  lemma InvalidationsOfOne(t: Tag, rest: seq<Action>)
    ensures Invalidations([t]) + rest == [ReadCarriers(t)] + ([DropTagInStore(t), DropTagInMemory(t)] + rest)
  {
    assert [t][..|[t]| - 1] == [];
    assert Invalidations([t]) == [ReadCarriers(t), DropTagInStore(t), DropTagInMemory(t)];
  }

  lemma LaterMisses(r: Row, k: Key, tags: seq<Tag>, j: nat)
    requires j < |tags| && forall t :: t in tags ==> t !in r.store && t !in r.memory
    ensures Finish(r, k, Later(tags, j)) == r
  {
    var u := tags[j];
    FinishConcat(r, k, [DropTagInStore(u), DropTagInMemory(u)], Invalidations(tags[j + 1..]));
    FinishTwo(r, k, DropTagInStore(u), DropTagInMemory(u));
    assert r.store - {u} == r.store && r.memory - {u} == r.memory;
    FinishInvalidationsMiss(r, k, tags[j + 1..]);
  }

  /** An invalidation has come to a tag of the key, and reads the keys of the tag,
      this one last. */
  lemma ReachTag(c: Cache, run: seq<Step>, p: nat, d: nat, put: Op, tags: seq<Tag>, j: nat)
    returns (longer: seq<Step>, others: seq<Key>)
    requires put.DoPut? && Coherent(c) && Valid(c, run) && Reached(c, run).cache == c
    requires Pending(Reached(c, run), p, Program(put), d, Invalidations(tags))
    requires var own := RowOf(c, put.key).own; j < |tags| && tags[j] in own && own !! SetOf(tags[..j])
    ensures Valid(c, longer) && Extends(run, longer) && put.key !in others
    ensures Pending(Reached(c, longer), p, Program(put), d, Deletions(others + [put.key]) + Later(tags, j))
    ensures RowOf(Reached(c, longer).cache, put.key) == RowOf(c, put.key)
  {
    var (k, u) := (put.key, tags[j]);
    InvalidationsSplit(tags, j);
    var r1 := DoPart(c, run, d, Invalidations(tags[..j]), [ReadCarriers(u)] + Later(tags, j));
    CoherentIsClean(c, k);
    FinishInvalidations(RowOf(c, k), k, tags[..j]);
    var cache := Reached(c, r1).cache;
    RowMeans(cache, k, u);
    others := EnumerateWithLast(At(cache.tagSets, u), k);
    var todo := Reached(c, r1).flights[d].todo;
    assert todo[0] == ReadCarriers(u) && todo[1..] == Later(tags, j);
    longer := Extend(c, r1, Advance(d, [], others + [k]));
  }

  lemma DeletionsSplit(others: seq<Key>, k: Key, rest: seq<Action>)
    ensures Deletions(others + [k]) + rest
            == Deletions(others) + [Dequeue(k), ReadTags(k)] + ([DropOwnTags(k), DropEntry(k)] + rest)
  {
    assert (others + [k])[..|others + [k]| - 1] == others;
    assert Deletions(others + [k]) == Deletions(others) + Deletion(k);
  }

  lemma UnlinkedRow(r: Row, k: Key, others: seq<Key>)
    requires Clean(r) && k !in others
    ensures var s := Finish(r, k, Deletions(others) + [Dequeue(k), ReadTags(k)]); s.memory == s.store == {}
  {
    FinishConcat(r, k, Deletions(others), [Dequeue(k), ReadTags(k)]);
    FinishDeletions(r, k, others);
    FinishTwo(r, k, Dequeue(k), ReadTags(k));
  }

  lemma CarriedBreaks(c: Cache, run: seq<Step>, p: nat, d: nat, put: Op, tags: seq<Tag>) returns (longer: seq<Step>)
    requires put.DoPut? && put.tags != [] && Coherent(c) && Valid(c, run) && Reached(c, run).cache == c
    requires Pending(Reached(c, run), p, Program(put), d, Invalidations(tags))
    requires (exists t :: t in tags && Has(c, put.key, t)) && forall t :: t in tags ==> t !in put.tags
    ensures Quits(c, run, longer) && !Coherent(Reached(c, longer).cache)
  {
    var (k, ts) := (put.key, SetOf(put.tags));
    CoherentIsClean(c, k);
    var t :| t in tags && Has(c, k, t);
    assert t in RowOf(c, k).store;
    var j := FirstCarried(tags, RowOf(c, k).own);
    var middle, others := ReachTag(c, run, p, d, put, tags, j);
    var before := Deletions(others) + [Dequeue(k), ReadTags(k)];
    DeletionsSplit(others, k, Later(tags, j));
    UnlinkedRow(RowOf(c, k), k, others);
    LaterMisses(Row(ts, ts, {}), k, tags, j);
    longer := PutInsideDeletion(c, middle, p, d, put, before, Later(tags, j));
  }

  // ----- every conflict

  function Both(a: Op, b: Op): seq<Step> {
    [Start(1, a), Start(2, b)]
  }

  lemma OneStarted(c: Cache, a: Op)
    ensures Valid(c, [Start(1, a)]) && Careful(c, [Start(1, a)])
    ensures Reached(c, [Start(1, a)]) == World(c, map[1 := Flight(ClaimOf(c, a), Program(a))], [a])
  {
    var one := [Start(1, a)];
    assert one[..|one| - 1] == [];
    assert Valid(c, []) && Careful(c, []) && Reached(c, []) == World(c, map[], []);
  }

  lemma BothStarted(c: Cache, a: Op, b: Op)
    ensures Valid(c, Both(a, b)) && Reached(c, Both(a, b)).cache == c
    ensures Reached(c, Both(a, b)).flights == map[1 := Flight(ClaimOf(c, a), Program(a)), 2 := Flight(ClaimOf(c, b), Program(b))]
    ensures !Conflict(ClaimOf(c, a), ClaimOf(c, b)) ==> Careful(c, Both(a, b))
  {
    OneStarted(c, a);
    assert Both(a, b)[..|Both(a, b)| - 1] == [Start(1, a)];
  }

  lemma SpoiltBreaks(c: Cache, run: seq<Step>, p: nat, d: nat, put: Op, op: Op) returns (longer: seq<Step>)
    requires Coherent(c) && Valid(c, run) && Reached(c, run).cache == c && Spoils(c, put, op)
    requires Pending(Reached(c, run), p, Program(put), d, Program(op))
    ensures Quits(c, run, longer) && !Coherent(Reached(c, longer).cache)
  {
    if op.DoDelete? {
      longer := DeletionBreaks(c, run, p, d, put);
    } else if t :| t in op.tags && t in put.tags {
      longer := InvalidationInsidePut(c, run, p, d, put, op.tags, t);
    } else {
      longer := CarriedBreaks(c, run, p, d, put, op.tags);
    }
  }

  /** From any coherent cache, two operations that start together and conflict can
      end with a cache that is not coherent. */
  lemma ConflictBreaks(c: Cache, a: Op, b: Op) returns (run: seq<Step>)
    requires Coherent(c) && Conflict(ClaimOf(c, a), ClaimOf(c, b))
    ensures Quits(c, Both(a, b), run) && !Coherent(Reached(c, run).cache)
  {
    BothStarted(c, a, b);
    ConflictMeans(c, a, b);
    if Spoils(c, a, b) {
      run := SpoiltBreaks(c, Both(a, b), 1, 2, a, b);
    } else {
      run := SpoiltBreaks(c, Both(a, b), 2, 1, b, a);
    }
  }

  lemma {:induction false} ExtendsIsCareful(c: Cache, run: seq<Step>, longer: seq<Step>)
    requires Careful(c, run) && Extends(run, longer)
    ensures Careful(c, longer)
  {
    if |longer| == |run| {
      assert longer == run;
    } else {
      ExtendsIsCareful(c, run, longer[..|longer| - 1]);
    }
  }

  /** Two operations that start together in a coherent cache leave it coherent
      however they interleave exactly when they do not conflict. */
  lemma CoherentIff(c: Cache, a: Op, b: Op)
    requires Coherent(c)
    ensures (forall run :: Quits(c, Both(a, b), run) ==> Coherent(Reached(c, run).cache))
            <==> !Conflict(ClaimOf(c, a), ClaimOf(c, b))
  {
    BothStarted(c, a, b);
    if Conflict(ClaimOf(c, a), ClaimOf(c, b)) {
      var run := ConflictBreaks(c, a, b);
      assert Quits(c, Both(a, b), run) && !Coherent(Reached(c, run).cache);
    } else {
      forall run | Quits(c, Both(a, b), run) ensures Coherent(Reached(c, run).cache) {
        ExtendsIsCareful(c, Both(a, b), run);
        QuietIsSequential(c, run);
      }
    }
  }

  // ----- an entry that escapes

  /** Steps that read nothing and take no entry away. */
  predicate Plain(part: seq<Action>) {
    forall i :: 0 <= i < |part| ==> !IsRead(part[i]) && !part[i].DropEntry?
  }

  function PerformAll(c: Cache, part: seq<Action>): Cache
    decreases |part|
  {
    if part == [] then c else PerformAll(Perform(c, part[0]), part[1..])
  }

  lemma {:induction false} PerformAllRow(c: Cache, part: seq<Action>, k: Key)
    requires Plain(part)
    ensures RowOf(PerformAll(c, part), k) == Finish(RowOf(c, k), k, part)
    decreases |part|
  {
    if part != [] {
      PerformRow(c, part[0], k);
      PerformAllRow(Perform(c, part[0]), part[1..], k);
    }
  }

  lemma {:induction false} PerformAllEntries(c: Cache, part: seq<Action>)
    requires Plain(part)
    ensures c.entries.Keys <= PerformAll(c, part).entries.Keys
    decreases |part|
  {
    if part != [] {
      PerformAllEntries(Perform(c, part[0]), part[1..]);
    }
  }

  lemma PlainStep(c: Cache, run: seq<Step>, n: nat, part: seq<Action>) returns (next: seq<Step>)
    requires Valid(c, run) && n in Reached(c, run).flights && Reached(c, run).flights[n].todo == part
    requires part != [] && !IsRead(part[0])
    ensures Valid(c, next) && Extends(run, next)
    ensures var (w, y) := (Reached(c, run), Reached(c, next));
            && y.flights == w.flights[n := w.flights[n].(todo := part[1..])]
            && y.cache == Perform(w.cache, part[0])
  {
    next := Extend(c, run, Advance(n, [], []));
    assert Unfold(part[0], [], []) + part[1..] == part[1..];
  }

  lemma {:induction false} DoPlain(c: Cache, run: seq<Step>, n: nat, part: seq<Action>) returns (longer: seq<Step>)
    requires Valid(c, run) && n in Reached(c, run).flights && Reached(c, run).flights[n].todo == part && Plain(part)
    ensures Valid(c, longer) && Extends(run, longer)
    ensures var w := Reached(c, run); Reached(c, longer).flights == w.flights[n := w.flights[n].(todo := [])]
    ensures Reached(c, longer).cache == PerformAll(Reached(c, run).cache, part)
    decreases |part|
  {
    if part == [] {
      longer := run;
    } else {
      var next := PlainStep(c, run, n, part);
      longer := DoPlain(c, next, n, part[1..]);
    }
  }

  lemma PutIsPlain(c: Cache, put: Op)
    requires put.DoPut?
    ensures Plain(Program(put)) && put.key in PerformAll(c, Program(put)).entries
  {
    var todo := Program(put);
    PutIs(put);
    forall i | 0 <= i < |todo| ensures !IsRead(todo[i]) && !todo[i].DropEntry? {
      assert OfPut(todo[i], put.key, put.tags);
    }
    assert todo[0] == StoreEntry(put.key, put.value);
    PerformAllEntries(Perform(c, todo[0]), todo[1..]);
  }

  function Escaped(c: Cache, put: Op, t: Tag): Cache {
    PerformAll(PerformAll(c, Program(put)), [DropTagInStore(t), DropTagInMemory(t)])
  }

  lemma EscapedEntry(c: Cache, put: Op, t: Tag)
    requires put.DoPut? && t in put.tags
    ensures var (y, k) := (Escaped(c, put, t), put.key);
            && k in y.entries && t in At(y.keyTags, k) && !Has(y, k, t) && k !in At(y.memory, t)
            && k in DeleteByTags(y, [t]).entries
  {
    var (k, r, drops) := (put.key, RowOf(c, put.key), [DropTagInStore(t), DropTagInMemory(t)]);
    PutIsPlain(c, put);
    PerformAllEntries(PerformAll(c, Program(put)), drops);
    PerformAllRow(c, Program(put), k);
    PerformAllRow(PerformAll(c, Program(put)), drops, k);
    FinishPut(r, k, k, put.value, put.tags, put.refresh);
    FinishTwo(RowOf(PerformAll(c, Program(put)), k), k, drops[0], drops[1]);
    MissedByTag(Escaped(c, put, t), k, t);
  }

  lemma MissedByTag(c: Cache, k: Key, t: Tag)
    requires t in RowOf(c, k).own && t !in RowOf(c, k).store && t !in RowOf(c, k).memory && k in c.entries
    ensures t in At(c.keyTags, k) && !Has(c, k, t) && k !in At(c.memory, t) && k in DeleteByTags(c, [t]).entries
  {
    RowMeans(c, k, t);
    assert [t][..|[t]| - 1] == [];
    assert DeleteByTags(c, [t]) == DeleteKeysByTag(DeleteByTags(c, []), t);
  }

  /** An invalidation of a tag that no key carries, and a set of a key with that
      tag, which comes between the read and the drop of the tag.  The entry stays
      and its key says it carries the tag, but the tag has lost it, so invalidating
      the tag again misses it. */
  lemma EntryEscapes(c: Cache, put: Op, t: Tag) returns (run: seq<Step>)
    requires At(c.tagSets, t) == {} && put.DoPut? && t in put.tags
    ensures Quits(c, Both(DoDeleteByTags([t]), put), run)
    ensures var (y, k) := (Reached(c, run).cache, put.key);
            && k in y.entries && t in At(y.keyTags, k) && !Has(y, k, t) && k !in At(y.memory, t)
            && k in DeleteByTags(y, [t]).entries
  {
    var read := NothingRead(c, put, t);
    PutIsPlain(c, put);
    run := BothPlain(c, read, Program(put), [DropTagInStore(t), DropTagInMemory(t)]);
    EscapedEntry(c, put, t);
  }

  /** Flight 2 carries out all it has, then flight 1. */
  lemma BothPlain(c: Cache, run: seq<Step>, first: seq<Action>, second: seq<Action>) returns (longer: seq<Step>)
    requires Valid(c, run) && Pending(Reached(c, run), 1, second, 2, first) && Plain(first) && Plain(second)
    ensures Quits(c, run, longer)
    ensures Reached(c, longer).cache == PerformAll(PerformAll(Reached(c, run).cache, first), second)
  {
    var middle := DoPlain(c, run, 2, first);
    var last := DoPlain(c, middle, 1, second);
    longer := EndBoth(c, last, 1, 2);
  }

  lemma NothingRead(c: Cache, put: Op, t: Tag) returns (run: seq<Step>)
    requires At(c.tagSets, t) == {}
    ensures Valid(c, run) && Extends(Both(DoDeleteByTags([t]), put), run) && Reached(c, run).cache == c
    ensures Pending(Reached(c, run), 1, [DropTagInStore(t), DropTagInMemory(t)], 2, Program(put))
  {
    BothStarted(c, DoDeleteByTags([t]), put);
    InvalidationsOfOne(t, []);
    assert Invalidations([t]) + [] == Invalidations([t]);
    var todo := Program(DoDeleteByTags([t]));
    assert todo[0] == ReadCarriers(t) && Unfold(todo[0], [], []) + todo[1..] == [DropTagInStore(t), DropTagInMemory(t)];
    run := Extend(c, Both(DoDeleteByTags([t]), put), Advance(1, [], []));
  }
}
