/**
 Cache operations in flight.  Any number of operations can be under way, on any
 keys and tags, and their steps interleave in any order.  An operation conflicts
 with another when one links a key that the other deletes, or names a tag that
 the other invalidates.  Operations that overlap without conflict leave the cache
 as they would one after the other.
 */
module TagOverlap {
  import opened Sequences
  import opened TagIndex
  import opened TagSteps

  // ----- claims

  /** The keys an operation links or deletes, and the tags it links or
      invalidates. */
  datatype Claim = Claim(links: set<Key>, drops: set<Key>, opens: set<Tag>, closes: set<Tag>)

  /** What an operation claims when it starts; for an invalidation these are the
      keys that carry one of its tags at that time. */
  function ClaimOf(c: Cache, op: Op): Claim {
    match op
    case DoPut(key, _, tags, _) => Claim(if tags == [] then {} else {key}, {}, SetOf(tags), {})
    case DoDelete(key) => Claim({}, {key}, {}, {})
    case DoDeleteByTags(tags) => Claim({}, Doomed(c, tags), {}, SetOf(tags))
    case DoExpire(_) => Claim({}, {}, {}, {})
  }

  predicate Harms(a: Claim, b: Claim) {
    a.links * b.drops != {} || a.opens * b.closes != {}
  }

  predicate Conflict(a: Claim, b: Claim) {
    Harms(a, b) || Harms(b, a)
  }

  /** One of the two sets a key with tags, and the other deletes that key, or
      invalidates a tag that is named or that the key carries. */
  lemma ConflictMeans(c: Cache, a: Op, b: Op)
    ensures Conflict(ClaimOf(c, a), ClaimOf(c, b)) <==> Spoils(c, a, b) || Spoils(c, b, a)
  {
    HarmsMeans(c, a, b);
    HarmsMeans(c, b, a);
  }

  ghost predicate Spoils(c: Cache, put: Op, op: Op) {
    && put.DoPut? && put.tags != []
    && match op
       case DoDelete(key) => key == put.key
       case DoDeleteByTags(tags) => exists t :: t in tags && (t in put.tags || Has(c, put.key, t))
       case _ => false
  }

  lemma HarmsMeans(c: Cache, a: Op, b: Op)
    ensures Harms(ClaimOf(c, a), ClaimOf(c, b)) <==> Spoils(c, a, b)
  {
    var (x, y) := (ClaimOf(c, a), ClaimOf(c, b));
    if a.DoPut? && a.tags != [] {
      assert x.links == {a.key};
      if b.DoDeleteByTags? {
        DoomedMeans(c, b.tags, a.key);
        if t :| t in x.opens * y.closes {
          assert t in b.tags && t in a.tags;
        }
        if t :| t in b.tags && t in a.tags {
          assert t in x.opens * y.closes;
        }
        assert a.key in y.drops <==> a.key in x.links * y.drops;
      } else if b.DoDelete? {
        assert a.key in y.drops <==> a.key in x.links * y.drops;
      }
    } else {
      assert x.links == {} && x.opens == {};
    }
  }

  // ----- operations in flight

  datatype Flight = Flight(claim: Claim, todo: seq<Action>)

  datatype World = World(cache: Cache, flights: map<nat, Flight>, started: seq<Op>)

  /** A read may find its tags or keys in any order. */
  datatype Step = Start(flight: nat, op: Op) | Advance(flight: nat, tags: seq<Tag>, keys: seq<Key>) | End(flight: nat)

  function Unfold(a: Action, tags: seq<Tag>, keys: seq<Key>): seq<Action> {
    match a
    case ReadTags(key) => Unlinks(key, tags)
    case ReadCarriers(_) => Deletions(keys)
    case _ => []
  }

  function Advanced(f: Flight, tags: seq<Tag>, keys: seq<Key>): Flight
    requires f.todo != []
  {
    f.(todo := Unfold(f.todo[0], tags, keys) + f.todo[1..])
  }

  function Next(w: World, s: Step): World {
    match s
    case Start(n, op) => World(w.cache, w.flights[n := Flight(ClaimOf(w.cache, op), Program(op))], w.started + [op])
    case Advance(n, tags, keys) =>
      if n !in w.flights || w.flights[n].todo == [] then w
      else
        var f := w.flights[n];
        World(Perform(w.cache, f.todo[0]), w.flights[n := Advanced(f, tags, keys)], w.started)
    case End(n) => w.(flights := w.flights - {n})
  }

  /** What was read is what there is, each once. */
  ghost predicate Reads(c: Cache, a: Action, tags: seq<Tag>, keys: seq<Key>) {
    && Distinct(tags) && Distinct(keys)
    && (a.ReadTags? ==> SetOf(tags) == At(c.keyTags, a.key))
    && (a.ReadCarriers? ==> forall k :: k in keys <==> k in At(c.tagSets, a.tag))
  }

  ghost predicate Enabled(w: World, s: Step) {
    match s
    case Start(n, _) => n !in w.flights
    case Advance(n, tags, keys) =>
      n in w.flights && w.flights[n].todo != [] && Reads(w.cache, w.flights[n].todo[0], tags, keys)
    case End(n) => n in w.flights && w.flights[n].todo == []
  }

  /** Runs begin in any cache, with nothing in flight. */
  function Reached(origin: Cache, run: seq<Step>): World {
    if run == [] then World(origin, map[], []) else Next(Reached(origin, run[..|run| - 1]), run[|run| - 1])
  }

  ghost predicate Valid(origin: Cache, run: seq<Step>) {
    run == [] || (Valid(origin, run[..|run| - 1]) && Enabled(Reached(origin, run[..|run| - 1]), run[|run| - 1]))
  }

  ghost predicate MayStart(w: World, op: Op) {
    forall n :: n in w.flights ==> !Conflict(ClaimOf(w.cache, op), w.flights[n].claim)
  }

  /** No operation starts while one that it conflicts with is in flight. */
  ghost predicate Careful(origin: Cache, run: seq<Step>) {
    run == [] ||
    var (front, s) := (run[..|run| - 1], run[|run| - 1]);
    Careful(origin, front) && (s.Start? ==> MayStart(Reached(origin, front), s.op))
  }

  // ----- what the history prescribes

  /** The tags of k after the operations, from those it carries at first. */
  ghost function Prescribed(origin: Cache, ops: seq<Op>, k: Key): set<Tag> {
    if ops == [] then At(origin.keyTags, k) else Turn(Prescribed(origin, ops[..|ops| - 1], k), k, ops[|ops| - 1])
  }

  lemma PrescribedSnoc(origin: Cache, ops: seq<Op>, op: Op, k: Key)
    ensures Prescribed(origin, ops + [op], k) == Turn(Prescribed(origin, ops, k), k, op)
  {
    assert (ops + [op])[..|ops|] == ops;
  }

  function ApplyAll(c: Cache, ops: seq<Op>): Cache {
    if ops == [] then c else Apply(ApplyAll(c, ops[..|ops| - 1]), ops[|ops| - 1])
  }

  /** Operations that come one at a time leave what is prescribed. */
  lemma {:induction false} PrescribedIsSequential(origin: Cache, ops: seq<Op>)
    requires Coherent(origin)
    ensures Coherent(ApplyAll(origin, ops))
    ensures forall k, t :: Has(ApplyAll(origin, ops), k, t) <==> t in Prescribed(origin, ops, k)
  {
    if ops == [] {
      forall k, t ensures Has(origin, k, t) <==> t in At(origin.keyTags, k) {
        assert Agree(origin, k, t);
      }
    } else {
      var (c, op) := (ApplyAll(origin, ops[..|ops| - 1]), ops[|ops| - 1]);
      PrescribedIsSequential(origin, ops[..|ops| - 1]);
      ApplyIsTurn(c, op);
      forall k, t ensures Has(Apply(c, op), k, t) <==> t in Prescribed(origin, ops, k) {
        assert CarriedTags(c, k) == Prescribed(origin, ops[..|ops| - 1], k);
        assert Has(Apply(c, op), k, t) <==> t in Turn(CarriedTags(c, k), k, op);
      }
    }
  }

  lemma {:induction false} ApplyAllFromEmpty(ops: seq<Op>)
    ensures ApplyAll(EMPTY, ops) == TagIndex.After(ops)
  {
    if ops != [] {
      ApplyAllFromEmpty(ops[..|ops| - 1]);
    }
  }

  /** From the empty cache, what is prescribed are the links of the history. */
  lemma {:induction false} PrescribedIsLinked(ops: seq<Op>, k: Key, t: Tag)
    ensures t in Prescribed(EMPTY, ops, k) <==> Linked(ops, k, t)
  {
    ApplyAllFromEmpty(ops);
    RunAsPrescribed([]);
    PrescribedIsSequential(EMPTY, ops);
    RunAsPrescribed(ops);
    assert Has(ApplyAll(EMPTY, ops), k, t) <==> t in Prescribed(EMPTY, ops, k);
  }

  // ----- what a flight may do

  predicate InClaim(a: Action, claim: Claim) {
    match a
    case AddInMemory(t, k) => k in claim.links && t in claim.opens
    case AddInStore(t, k) => k in claim.links && t in claim.opens
    case AddOwnTags(k, _) => k in claim.links
    case ReadTags(k) => k in claim.drops
    case DropInMemory(_, k) => k in claim.drops
    case DropInStore(_, k) => k in claim.drops
    case DropOwnTags(k) => k in claim.drops
    case ReadCarriers(t) => t in claim.closes
    case DropTagInStore(t) => t in claim.closes
    case DropTagInMemory(t) => t in claim.closes
    case _ => true
  }

  ghost predicate Within(todo: seq<Action>, claim: Claim) {
    forall i :: 0 <= i < |todo| ==> InClaim(todo[i], claim)
  }

  /** A link leaves the store right after it left the map in memory. */
  ghost predicate Paired(todo: seq<Action>) {
    forall i :: 0 < i < |todo| && todo[i].DropInStore? ==> todo[i - 1] == DropInMemory(todo[i].tag, todo[i].key)
  }

  ghost predicate HeadReady(c: Cache, todo: seq<Action>) {
    todo != [] && todo[0].DropInStore? ==> todo[0].tag !in RowOf(c, todo[0].key).memory
  }

  /** The step takes the key's own record, or the whole tag, away. */
  predicate Removes(a: Action, t: Tag, k: Key) {
    a == DropOwnTags(k) || a == DropTagInStore(t) || a == DropTagInMemory(t)
  }

  /** The step takes the link out of the store, or reads what will. */
  predicate Covers(a: Action, t: Tag, k: Key) {
    a == DropInStore(t, k) || a == ReadTags(k) || a == ReadCarriers(t)
  }

  ghost predicate CoveredBefore(todo: seq<Action>, i: int, t: Tag, k: Key) {
    exists j :: 0 <= j < i && j < |todo| && Covers(todo[j], t, k)
  }

  /** Links leave the store before what leads to them is removed. */
  ghost predicate Safe(c: Cache, todo: seq<Action>) {
    forall i, t, k :: 0 <= i < |todo| && Removes(todo[i], t, k) && t in RowOf(c, k).store ==> CoveredBefore(todo, i, t, k)
  }

  ghost predicate RecordGoesAfter(todo: seq<Action>, i: int, k: Key) {
    exists j :: 0 <= i < j < |todo| && todo[j] == DropOwnTags(k)
  }

  /** Who takes links of a key out of the store goes on to take its record. */
  ghost predicate Thorough(todo: seq<Action>) {
    forall i :: 0 <= i < |todo| && (todo[i].DropInStore? || todo[i].ReadTags?) ==> RecordGoesAfter(todo, i, todo[i].key)
  }

  /** An invalidated tag is carried by keys to be deleted only. */
  ghost predicate Enclosed(c: Cache, claim: Claim) {
    forall t, k :: t in claim.closes && (t in RowOf(c, k).memory || t in RowOf(c, k).store) ==> k in claim.drops
  }

  ghost predicate FlightOk(c: Cache, f: Flight) {
    && Within(f.todo, f.claim) && Paired(f.todo) && Thorough(f.todo)
    && HeadReady(c, f.todo) && Safe(c, f.todo) && Enclosed(c, f.claim)
  }

  // ----- what is true of a key

  datatype Place = Memory | Store | Own

  function In(r: Row, p: Place): set<Tag> {
    match p
    case Memory => r.memory
    case Store => r.store
    case Own => r.own
  }

  predicate Brings(a: Action, p: Place, t: Tag, k: Key) {
    match p
    case Memory => a == AddInMemory(t, k)
    case Store => a == AddInStore(t, k)
    case Own => a.AddOwnTags? && a.key == k && t in a.tags
  }

  ghost predicate Brought(todo: seq<Action>, p: Place, t: Tag, k: Key) {
    exists i :: 0 <= i < |todo| && Brings(todo[i], p, t, k)
  }

  ghost predicate Awaited(w: World, p: Place, t: Tag, k: Key) {
    exists n :: n in w.flights && Brought(w.flights[n].todo, p, t, k)
  }

  /** Each representation has, or is about to get, exactly the prescribed tags. */
  ghost predicate LinkOk(w: World, k: Key, tags: set<Tag>) {
    forall p, t :: t in tags <==> t in In(RowOf(w.cache, k), p) || Awaited(w, p, t, k)
  }

  ghost predicate RecordGoes(c: Cache, todo: seq<Action>, k: Key) {
    exists i :: 0 <= i < |todo|
                && (todo[i] == DropOwnTags(k) || (todo[i].ReadCarriers? && todo[i].tag in RowOf(c, k).store))
  }

  predicate Chain(r: Row) {
    r.memory <= r.store <= r.own
  }

  /** Nothing is prescribed; what is left leads to all the rest, and will go. */
  ghost predicate DropOk(w: World, k: Key, tags: set<Tag>) {
    && tags == {} && Chain(RowOf(w.cache, k))
    && (RowOf(w.cache, k).own != {} ==> exists n :: n in w.flights && RecordGoes(w.cache, w.flights[n].todo, k))
  }

  ghost predicate Dropped(w: World, k: Key) {
    exists n :: n in w.flights && k in w.flights[n].claim.drops
  }

  ghost predicate KeyOk(w: World, k: Key, tags: set<Tag>) {
    if Dropped(w, k) then DropOk(w, k, tags) else LinkOk(w, k, tags)
  }

  ghost predicate NoEmptySet(c: Cache) {
    (forall t :: t in c.tagSets ==> c.tagSets[t] != {}) && (forall k :: k in c.keyTags ==> c.keyTags[k] != {})
  }

  ghost predicate FlightsOk(w: World) {
    && (forall n :: n in w.flights ==> FlightOk(w.cache, w.flights[n]))
    && (forall n, m :: n in w.flights && m in w.flights ==> !Conflict(w.flights[n].claim, w.flights[m].claim))
  }

  ghost predicate Good(origin: Cache, w: World) {
    && NoEmptySet(w.cache) && FlightsOk(w)
    && (forall k :: KeyOk(w, k, Prescribed(origin, w.started, k)))
  }

  // ----- a step and the rows

  /** What makes a step harmless. */
  ghost predicate Ready(c: Cache, a: Action, claim: Claim) {
    && InClaim(a, claim) && Enclosed(c, claim)
    && (a.DropInStore? ==> a.tag !in RowOf(c, a.key).memory)
    && (forall t, k :: Removes(a, t, k) ==> t !in RowOf(c, k).store)
  }

  lemma HeadIsReady(c: Cache, f: Flight)
    requires FlightOk(c, f) && f.todo != []
    ensures Ready(c, f.todo[0], f.claim)
  {
    assert InClaim(f.todo[0], f.claim);
    forall t, k | Removes(f.todo[0], t, k) ensures t !in RowOf(c, k).store {
      assert !CoveredBefore(f.todo, 0, t, k);
    }
  }

  /** A key that is not deleted gets what is brought, and loses nothing. */
  lemma StepOnKept(c: Cache, a: Action, claim: Claim, k: Key)
    requires Ready(c, a, claim) && k !in claim.drops
    ensures forall p, t :: t in In(RowOf(Perform(c, a), k), p) <==> t in In(RowOf(c, k), p) || Brings(a, p, t, k)
  {
    if !IsRead(a) {
      PerformRow(c, a, k);
      match a
      case DropTagInStore(t) => assert Removes(a, t, k);
      case _ =>
    }
  }

  /** A key that is not linked loses links in the order memory, store, record. */
  lemma StepOnUnlinked(c: Cache, a: Action, claim: Claim, k: Key)
    requires Ready(c, a, claim) && k !in claim.links && Chain(RowOf(c, k))
    ensures var (r, s) := (RowOf(c, k), RowOf(Perform(c, a), k));
            && Chain(s) && s.own == (if a == DropOwnTags(k) then {} else r.own)
            && forall t :: t in s.store <==> t in r.store && a != DropInStore(t, k)
  {
    var r := RowOf(c, k);
    if !IsRead(a) {
      PerformRow(c, a, k);
      match a
      case DropOwnTags(key) =>
        forall t | t in r.store && key == k ensures false {
          assert Removes(a, t, k);
        }
      case DropTagInStore(t) => assert Removes(a, t, k);
      case DropTagInMemory(t) => assert Removes(a, t, k);
      case _ =>
    }
  }

  /** Rows grow only by links of claimed keys and tags. */
  lemma StepGrows(c: Cache, a: Action, k: Key)
    ensures forall t :: t in RowOf(Perform(c, a), k).store ==> t in RowOf(c, k).store || a == AddInStore(t, k)
    ensures forall t :: t in RowOf(Perform(c, a), k).memory ==> t in RowOf(c, k).memory || a == AddInMemory(t, k)
  {
    if !IsRead(a) {
      PerformRow(c, a, k);
    }
  }

  /** What a flight relies on survives a step of a flight without conflict. */
  lemma StepKeepsFlight(c: Cache, a: Action, claim: Claim, g: Flight)
    requires Ready(c, a, claim) && FlightOk(c, g) && !Conflict(claim, g.claim)
    ensures FlightOk(Perform(c, a), g)
  {
    var after := Perform(c, a);
    forall i, t, k | 0 <= i < |g.todo| && Removes(g.todo[i], t, k) && t in RowOf(after, k).store
      ensures CoveredBefore(g.todo, i, t, k)
    {
      StepGrows(c, a, k);
      assert InClaim(g.todo[i], g.claim);
      if a == AddInStore(t, k) {
        NoHarm(claim, g.claim, t, k);
      }
    }
    forall t, k | t in g.claim.closes && (t in RowOf(after, k).memory || t in RowOf(after, k).store)
      ensures k in g.claim.drops
    {
      StepGrows(c, a, k);
      NoHarm(claim, g.claim, t, k);
    }
    if g.todo != [] && g.todo[0].DropInStore? {
      assert InClaim(g.todo[0], g.claim);
      StepGrows(c, a, g.todo[0].key);
      NoHarm(claim, g.claim, g.todo[0].tag, g.todo[0].key);
    }
  }

  lemma NoHarm(a: Claim, b: Claim, t: Tag, k: Key)
    requires !Conflict(a, b)
    ensures !(t in a.opens && t in b.closes) && !(k in a.links && k in b.drops)
    ensures !(t in b.opens && t in a.closes) && !(k in b.links && k in a.drops)
  {
    assert t in a.opens && t in b.closes <==> t in a.opens * b.closes;
    assert k in a.links && k in b.drops <==> k in a.links * b.drops;
    assert t in b.opens && t in a.closes <==> t in b.opens * a.closes;
    assert k in b.links && k in a.drops <==> k in b.links * a.drops;
  }

  // ----- what a read brings

  lemma {:induction false} UnlinksAre(key: Key, tags: seq<Tag>)
    ensures forall i :: 0 <= i < |Unlinks(key, tags)| ==>
              var a := Unlinks(key, tags)[i]; (a.DropInMemory? || a.DropInStore?) && a.key == key
    ensures Paired(Unlinks(key, tags)) && (Unlinks(key, tags) != [] ==> Unlinks(key, tags)[0].DropInMemory?)
    ensures forall t :: t in tags ==> DropInStore(t, key) in Unlinks(key, tags)
  {
    if tags != [] {
      var (front, t) := (tags[..|tags| - 1], tags[|tags| - 1]);
      UnlinksAre(key, front);
      assert tags == front + [t];
      var all := Unlinks(key, tags);
      assert all[|all| - 1] == DropInStore(t, key);
    }
  }

  lemma {:induction false} DeletionsShape(keys: seq<Key>)
    ensures forall i :: 0 <= i < |Deletions(keys)| ==>
              var a := Deletions(keys)[i]; (a.Dequeue? || a.ReadTags? || a.DropOwnTags? || a.DropEntry?) && a.key in keys
    ensures Deletions(keys) != [] ==> Deletions(keys)[0].Dequeue?
  {
    if keys != [] {
      DeletionsShape(keys[..|keys| - 1]);
      assert keys == keys[..|keys| - 1] + [keys[|keys| - 1]];
    }
  }

  /** Around one step of a sequence of deletions. */
  lemma {:induction false} DeletionsAround(keys: seq<Key>, i: nat)
    requires i < |Deletions(keys)|
    ensures var all := Deletions(keys);
            && (all[i].DropOwnTags? ==> 0 < i && all[i - 1] == ReadTags(all[i].key))
            && (all[i].ReadTags? ==> i + 1 < |all| && all[i + 1] == DropOwnTags(all[i].key))
  {
    var (front, k) := (keys[..|keys| - 1], keys[|keys| - 1]);
    var (some, all) := (Deletions(front), Deletions(keys));
    assert all == some + Deletion(k);
    if i < |some| {
      DeletionsAround(front, i);
      assert all[i] == some[i];
      assert some[i].DropOwnTags? ==> all[i - 1] == some[i - 1];
      assert some[i].ReadTags? ==> all[i + 1] == some[i + 1];
    } else {
      assert all[i] == Deletion(k)[i - |some|];
      assert all[|some| + 1] == ReadTags(k) && all[|some| + 2] == DropOwnTags(k);
    }
  }

  /** Deletions read the tags of a key before they drop its record. */
  lemma DeletionsAre(keys: seq<Key>)
    ensures forall i :: 0 <= i < |Deletions(keys)| ==>
              var a := Deletions(keys)[i]; (a.Dequeue? || a.ReadTags? || a.DropOwnTags? || a.DropEntry?) && a.key in keys
    ensures forall i :: 0 <= i < |Deletions(keys)| && Deletions(keys)[i].DropOwnTags? ==>
              0 < i && Deletions(keys)[i - 1] == ReadTags(Deletions(keys)[i].key)
    ensures forall i :: 0 <= i < |Deletions(keys)| && Deletions(keys)[i].ReadTags? ==>
              i + 1 < |Deletions(keys)| && Deletions(keys)[i + 1] == DropOwnTags(Deletions(keys)[i].key)
    ensures Deletions(keys) != [] ==> Deletions(keys)[0].Dequeue?
  {
    DeletionsShape(keys);
    forall i: nat | i < |Deletions(keys)| && Deletions(keys)[i].DropOwnTags?
      ensures 0 < i && Deletions(keys)[i - 1] == ReadTags(Deletions(keys)[i].key)
    {
      DeletionsAround(keys, i);
    }
    forall i: nat | i < |Deletions(keys)| && Deletions(keys)[i].ReadTags?
      ensures i + 1 < |Deletions(keys)| && Deletions(keys)[i + 1] == DropOwnTags(Deletions(keys)[i].key)
    {
      DeletionsAround(keys, i);
    }
  }

  lemma {:induction false} DeletionsRead(keys: seq<Key>, k: Key)
    requires k in keys
    ensures ReadTags(k) in Deletions(keys)
  {
    var (front, last) := (keys[..|keys| - 1], keys[|keys| - 1]);
    assert keys == front + [last];
    if k in front {
      DeletionsRead(front, k);
    } else {
      assert Deletions(keys)[|Deletions(front)| + 1] == ReadTags(k);
    }
  }

  // ----- a step and its flight

  lemma JoinedWithin(more: seq<Action>, todo: seq<Action>, claim: Claim)
    requires todo != [] && Within(todo, claim) && Paired(todo)
    requires Within(more, claim) && Paired(more)
    requires more != [] ==> IsRead(todo[0])
    ensures Within(more + todo[1..], claim) && Paired(more + todo[1..])
  {
    var all := more + todo[1..];
    forall i | 0 <= i < |all| ensures InClaim(all[i], claim) {
      assert i >= |more| ==> all[i] == todo[i - |more| + 1];
    }
    forall i | 0 < i < |all| && all[i].DropInStore? ensures all[i - 1] == DropInMemory(all[i].tag, all[i].key) {
      if i < |more| {
        assert all[i] == more[i] && all[i - 1] == more[i - 1];
      } else {
        assert all[i] == todo[i - |more| + 1];
        assert todo[i - |more|] == DropInMemory(all[i].tag, all[i].key);
      }
    }
  }

  lemma JoinedThorough(more: seq<Action>, todo: seq<Action>)
    requires todo != [] && Thorough(todo)
    requires forall i :: 0 <= i < |more| && (more[i].DropInStore? || more[i].ReadTags?) ==>
               todo[0] == ReadTags(more[i].key) || RecordGoesAfter(more, i, more[i].key)
    ensures Thorough(more + todo[1..])
  {
    var all := more + todo[1..];
    forall i | 0 <= i < |all| && (all[i].DropInStore? || all[i].ReadTags?) ensures RecordGoesAfter(all, i, all[i].key) {
      var from := if i < |more| then 0 else i - |more| + 1;
      if i < |more| && RecordGoesAfter(more, i, all[i].key) {
        var j :| 0 <= i < j < |more| && more[j] == DropOwnTags(all[i].key);
        assert all[j] == more[j];
      } else {
        assert all[i].key == todo[from].key && RecordGoesAfter(todo, from, todo[from].key);
        var j :| from < j < |todo| && todo[j] == DropOwnTags(all[i].key);
        assert all[j - 1 + |more|] == todo[j];
      }
    }
  }

  lemma JoinedSafe(c: Cache, more: seq<Action>, todo: seq<Action>)
    requires todo != [] && Safe(c, todo) && Safe(c, more)
    requires forall t, k :: Covers(todo[0], t, k) && t in RowOf(c, k).store ==> CoveredBefore(more, |more|, t, k)
    ensures Safe(c, more + todo[1..])
  {
    var all := more + todo[1..];
    forall i, t, k | 0 <= i < |all| && Removes(all[i], t, k) && t in RowOf(c, k).store ensures CoveredBefore(all, i, t, k) {
      if i < |more| {
        assert CoveredBefore(more, i, t, k);
        var j :| 0 <= j < i && Covers(more[j], t, k);
        assert all[j] == more[j];
      } else {
        assert all[i] == todo[i - |more| + 1];
        var j :| 0 <= j < i - |more| + 1 && Covers(todo[j], t, k);
        if j == 0 {
          var l :| 0 <= l < |more| && Covers(more[l], t, k);
          assert all[l] == more[l];
        } else {
          assert all[j - 1 + |more|] == todo[j];
        }
      }
    }
  }

  lemma DeletionsSafe(c: Cache, keys: seq<Key>)
    ensures Safe(c, Deletions(keys))
    ensures forall i :: 0 <= i < |Deletions(keys)| && Deletions(keys)[i].ReadTags? ==>
              RecordGoesAfter(Deletions(keys), i, Deletions(keys)[i].key)
  {
    var more := Deletions(keys);
    DeletionsAre(keys);
    forall i, t, k | 0 <= i < |more| && Removes(more[i], t, k) ensures CoveredBefore(more, i, t, k) {
      assert Covers(more[i - 1], t, k);
    }
    forall i | 0 <= i < |more| && more[i].ReadTags? ensures RecordGoesAfter(more, i, more[i].key) {
      assert more[i + 1] == DropOwnTags(more[i].key);
    }
  }

  /** What follows a read of the keys of a tag. */
  lemma CarriersUnfold(c: Cache, claim: Claim, t: Tag, keys: seq<Key>)
    requires t in claim.closes && Enclosed(c, claim) && forall k :: k in keys <==> k in At(c.tagSets, t)
    ensures var more := Deletions(keys);
            && Within(more, claim) && Paired(more) && (more != [] ==> !more[0].DropInStore?)
            && (forall i :: 0 <= i < |more| ==> !more[i].DropInStore?)
            && (forall k :: t in RowOf(c, k).store ==> CoveredBefore(more, |more|, t, k))
  {
    var more := Deletions(keys);
    DeletionsAre(keys);
    forall i | 0 <= i < |more| ensures InClaim(more[i], claim) {
      assert more[i].key in keys && t in RowOf(c, more[i].key).store;
    }
    forall k | t in RowOf(c, k).store ensures CoveredBefore(more, |more|, t, k) {
      DeletionsRead(keys, k);
      var i :| 0 <= i < |more| && more[i] == ReadTags(k);
      assert Covers(more[i], t, k);
    }
  }

  /** What follows a read of the tags of a key. */
  lemma TagsUnfold(c: Cache, claim: Claim, key: Key, tags: seq<Tag>)
    requires key in claim.drops && Reads(c, ReadTags(key), tags, []) && Chain(RowOf(c, key))
    ensures var more := Unlinks(key, tags);
            && Within(more, claim) && Paired(more) && Safe(c, more) && (more != [] ==> !more[0].DropInStore?)
            && (forall i :: 0 <= i < |more| ==> !more[i].ReadTags? && (more[i].DropInStore? ==> more[i].key == key))
            && (forall t :: t in RowOf(c, key).store ==> CoveredBefore(more, |more|, t, key))
  {
    var more := Unlinks(key, tags);
    UnlinksAre(key, tags);
    forall t | t in RowOf(c, key).store ensures CoveredBefore(more, |more|, t, key) {
      assert t in SetOf(tags) && DropInStore(t, key) in more;
      var i :| 0 <= i < |more| && more[i] == DropInStore(t, key);
      assert Covers(more[i], t, key);
    }
  }

  lemma AdvancedOk(c: Cache, f: Flight, tags: seq<Tag>, keys: seq<Key>)
    requires FlightOk(c, f) && f.todo != [] && Reads(c, f.todo[0], tags, keys) && FlightOk(Perform(c, f.todo[0]), f)
    requires f.todo[0].ReadTags? ==> Chain(RowOf(c, f.todo[0].key))
    ensures FlightOk(Perform(c, f.todo[0]), Advanced(f, tags, keys))
  {
    var (a, more, after) := (f.todo[0], Unfold(f.todo[0], tags, keys), Perform(c, f.todo[0]));
    assert InClaim(a, f.claim);
    match a {
      case ReadCarriers(t) =>
        CarriersUnfold(c, f.claim, t, keys);
        DeletionsSafe(c, keys);
      case ReadTags(key) => TagsUnfold(c, f.claim, key, tags);
      case _ => StepCovers(c, a);
    }
    JoinedWithin(more, f.todo, f.claim);
    JoinedThorough(more, f.todo);
    JoinedSafe(after, more, f.todo);
    NewHeadReady(c, f, more);
  }

  /** A link that the step takes out of the store needs no cover any more. */
  lemma StepCovers(c: Cache, a: Action)
    requires !IsRead(a)
    ensures forall t, k :: Covers(a, t, k) ==> t !in RowOf(Perform(c, a), k).store
  {
    forall t, k | Covers(a, t, k) ensures t !in RowOf(Perform(c, a), k).store {
      PerformRow(c, a, k);
    }
  }

  lemma NewHeadReady(c: Cache, f: Flight, more: seq<Action>)
    requires FlightOk(c, f) && f.todo != []
    requires more != [] ==> !more[0].DropInStore?
    ensures HeadReady(Perform(c, f.todo[0]), more + f.todo[1..])
  {
    var (a, all) := (f.todo[0], more + f.todo[1..]);
    if more == [] && all != [] && all[0].DropInStore? {
      assert all[0] == f.todo[1] && a == DropInMemory(all[0].tag, all[0].key);
      PerformRow(c, a, all[0].key);
    }
  }

  // ----- a step and the keys

  /** Nothing read brings a link, and only what is done first is no longer awaited. */
  lemma AdvanceBrings(f: Flight, tags: seq<Tag>, keys: seq<Key>, p: Place, t: Tag, k: Key)
    requires f.todo != []
    ensures Brought(f.todo, p, t, k) <==> Brings(f.todo[0], p, t, k) || Brought(Advanced(f, tags, keys).todo, p, t, k)
  {
    var (more, todo) := (Unfold(f.todo[0], tags, keys), f.todo);
    var all := more + todo[1..];
    forall i | 0 <= i < |more| ensures !Brings(more[i], p, t, k) {
      if todo[0].ReadTags? {
        UnlinksAre(todo[0].key, tags);
      } else {
        DeletionsAre(keys);
      }
    }
    if i :| 0 < i < |todo| && Brings(todo[i], p, t, k) {
      assert all[i - 1 + |more|] == todo[i];
    }
    if i :| 0 <= i < |all| && Brings(all[i], p, t, k) {
      assert i >= |more| && all[i] == todo[i - |more| + 1];
    }
  }

  lemma AdvanceAwaits(w: World, n: nat, tags: seq<Tag>, keys: seq<Key>, p: Place, t: Tag, k: Key)
    requires Enabled(w, Advance(n, tags, keys))
    ensures Awaited(w, p, t, k)
            <==> Brings(w.flights[n].todo[0], p, t, k) || Awaited(Next(w, Advance(n, tags, keys)), p, t, k)
  {
    var y := Next(w, Advance(n, tags, keys));
    AdvanceBrings(w.flights[n], tags, keys, p, t, k);
    assert y.flights[n] == Advanced(w.flights[n], tags, keys);
    if Brings(w.flights[n].todo[0], p, t, k) {
      assert Brought(w.flights[n].todo, p, t, k);
    }
    if m :| m in w.flights && Brought(w.flights[m].todo, p, t, k) {
      assert m != n ==> y.flights[m] == w.flights[m];
    }
    if m :| m in y.flights && Brought(y.flights[m].todo, p, t, k) {
      assert m != n ==> y.flights[m] == w.flights[m];
    }
  }

  lemma AdvanceKeepsLinkOk(w: World, n: nat, ts: seq<Tag>, ks: seq<Key>, k: Key, tags: set<Tag>)
    requires Enabled(w, Advance(n, ts, ks)) && Ready(w.cache, w.flights[n].todo[0], w.flights[n].claim)
    requires LinkOk(w, k, tags) && k !in w.flights[n].claim.drops
    ensures LinkOk(Next(w, Advance(n, ts, ks)), k, tags)
  {
    var y := Next(w, Advance(n, ts, ks));
    StepOnKept(w.cache, w.flights[n].todo[0], w.flights[n].claim, k);
    forall p, t ensures t in tags <==> t in In(RowOf(y.cache, k), p) || Awaited(y, p, t, k) {
      AdvanceAwaits(w, n, ts, ks, p, t, k);
    }
  }

  /** The step leaves the key's record, or something that will still take it. */
  lemma AdvanceKeepsDropOk(w: World, n: nat, ts: seq<Tag>, ks: seq<Key>, k: Key, tags: set<Tag>)
    requires FlightsOk(w) && Enabled(w, Advance(n, ts, ks)) && Ready(w.cache, w.flights[n].todo[0], w.flights[n].claim)
    requires DropOk(w, k, tags) && k !in w.flights[n].claim.links
    ensures DropOk(Next(w, Advance(n, ts, ks)), k, tags)
  {
    var (y, f) := (Next(w, Advance(n, ts, ks)), w.flights[n]);
    var a := f.todo[0];
    StepOnUnlinked(w.cache, a, f.claim, k);
    if RowOf(y.cache, k).own != {} {
      var m :| m in w.flights && RecordGoes(w.cache, w.flights[m].todo, k);
      var l := RecordStillGoes(w, n, ts, ks, k, m);
      assert l in y.flights && RecordGoes(y.cache, y.flights[l].todo, k);
    }
  }

  lemma RecordStillGoes(w: World, n: nat, ts: seq<Tag>, ks: seq<Key>, k: Key, m: nat) returns (l: nat)
    requires FlightsOk(w) && Enabled(w, Advance(n, ts, ks)) && w.flights[n].todo[0] != DropOwnTags(k)
    requires m in w.flights && RecordGoes(w.cache, w.flights[m].todo, k)
    requires var a := w.flights[n].todo[0];
             forall t :: t in RowOf(Perform(w.cache, a), k).store <==> t in RowOf(w.cache, k).store && a != DropInStore(t, k)
    ensures var y := Next(w, Advance(n, ts, ks)); l in y.flights && RecordGoes(y.cache, y.flights[l].todo, k)
  {
    var (f, after) := (w.flights[n], Perform(w.cache, w.flights[n].todo[0]));
    if m == n {
      l := n;
      OwnRecordGoes(w.cache, f, ts, ks, k);
    } else if RecordGoes(after, w.flights[m].todo, k) {
      l := m;
    } else {
      l := n;
      var i :| 0 <= i < |w.flights[m].todo|
               && (w.flights[m].todo[i] == DropOwnTags(k)
                   || (w.flights[m].todo[i].ReadCarriers? && w.flights[m].todo[i].tag in RowOf(w.cache, k).store));
      assert f.todo[0] == DropInStore(w.flights[m].todo[i].tag, k);
      DropperGoesOn(after, f, ts, ks, k);
    }
  }

  /** A flight that takes a link of k out of the store has its record to take. */
  lemma DropperGoesOn(after: Cache, f: Flight, ts: seq<Tag>, ks: seq<Key>, k: Key)
    requires f.todo != [] && Thorough(f.todo) && f.todo[0].DropInStore? && f.todo[0].key == k
    ensures RecordGoes(after, Advanced(f, ts, ks).todo, k)
  {
    assert RecordGoesAfter(f.todo, 0, k);
    var j :| 0 < j < |f.todo| && f.todo[j] == DropOwnTags(k);
    assert Advanced(f, ts, ks).todo[j - 1] == DropOwnTags(k);
  }

  lemma OwnRecordGoes(c: Cache, f: Flight, ts: seq<Tag>, ks: seq<Key>, k: Key)
    requires FlightOk(c, f) && f.todo != [] && RecordGoes(c, f.todo, k) && Reads(c, f.todo[0], ts, ks)
    requires f.todo[0] != DropOwnTags(k)
    requires forall t :: t in RowOf(Perform(c, f.todo[0]), k).store <==> t in RowOf(c, k).store && f.todo[0] != DropInStore(t, k)
    ensures RecordGoes(Perform(c, f.todo[0]), Advanced(f, ts, ks).todo, k)
  {
    var (a, more) := (f.todo[0], Unfold(f.todo[0], ts, ks));
    var all := more + f.todo[1..];
    var i :| 0 <= i < |f.todo|
             && (f.todo[i] == DropOwnTags(k) || (f.todo[i].ReadCarriers? && f.todo[i].tag in RowOf(c, k).store));
    if a.DropInStore? && a.key == k {
      DropperGoesOn(Perform(c, a), f, ts, ks, k);
    } else if i > 0 {
      assert all[i - 1 + |more|] == f.todo[i];
    } else {
      DeletionsRead(ks, k);
      DeletionsAre(ks);
      var j :| 0 <= j < |more| && more[j] == ReadTags(k);
      assert all[j + 1] == more[j + 1] == DropOwnTags(k);
    }
  }

  lemma PerformKeepsNoEmpty(c: Cache, a: Action)
    requires NoEmptySet(c)
    ensures NoEmptySet(Perform(c, a))
  {
  }

  lemma AdvanceKeepsFlights(w: World, n: nat, tags: seq<Tag>, keys: seq<Key>)
    requires FlightsOk(w) && Enabled(w, Advance(n, tags, keys))
    requires forall k :: Dropped(w, k) ==> Chain(RowOf(w.cache, k))
    ensures FlightsOk(Next(w, Advance(n, tags, keys)))
  {
    var (f, y) := (w.flights[n], Next(w, Advance(n, tags, keys)));
    var a := f.todo[0];
    HeadIsReady(w.cache, f);
    forall m | m in w.flights ensures FlightOk(y.cache, w.flights[m]) {
      StepKeepsFlight(w.cache, a, f.claim, w.flights[m]);
    }
    AdvancedOk(w.cache, f, tags, keys);
  }

  lemma AdvanceKeepsGood(origin: Cache, w: World, n: nat, tags: seq<Tag>, keys: seq<Key>)
    requires Good(origin, w) && Enabled(w, Advance(n, tags, keys))
    ensures Good(origin, Next(w, Advance(n, tags, keys)))
  {
    var (f, y) := (w.flights[n], Next(w, Advance(n, tags, keys)));
    PerformKeepsNoEmpty(w.cache, f.todo[0]);
    HeadIsReady(w.cache, f);
    forall k ensures Dropped(w, k) ==> Chain(RowOf(w.cache, k)) {
      assert KeyOk(w, k, Prescribed(origin, w.started, k));
    }
    AdvanceKeepsFlights(w, n, tags, keys);
    forall k ensures KeyOk(y, k, Prescribed(origin, y.started, k)) {
      assert KeyOk(w, k, Prescribed(origin, w.started, k));
      SameDropped(w, y, k);
      if Dropped(w, k) {
        var m :| m in w.flights && k in w.flights[m].claim.drops;
        NoHarm(f.claim, w.flights[m].claim, "", k);
        AdvanceKeepsDropOk(w, n, tags, keys, k, {});
      } else {
        AdvanceKeepsLinkOk(w, n, tags, keys, k, Prescribed(origin, w.started, k));
      }
    }
  }

  lemma SameDropped(w: World, y: World, k: Key)
    requires y.flights.Keys == w.flights.Keys && forall n :: n in w.flights ==> y.flights[n].claim == w.flights[n].claim
    ensures Dropped(y, k) <==> Dropped(w, k)
  {
    if n :| n in w.flights && k in w.flights[n].claim.drops {
      assert k in y.flights[n].claim.drops;
    }
    if n :| n in y.flights && k in y.flights[n].claim.drops {
      assert k in w.flights[n].claim.drops;
    }
  }

  // ----- the end of an operation

  lemma BroughtIsLinked(f: Flight, p: Place, t: Tag, k: Key)
    requires Within(f.todo, f.claim) && Brought(f.todo, p, t, k)
    ensures k in f.claim.links
  {
    var i :| 0 <= i < |f.todo| && Brings(f.todo[i], p, t, k);
    assert InClaim(f.todo[i], f.claim);
  }

  lemma DroppedIsNotAwaited(w: World, n: nat, p: Place, t: Tag, k: Key)
    requires FlightsOk(w) && n in w.flights && k in w.flights[n].claim.drops
    ensures !Awaited(w, p, t, k)
  {
    if m :| m in w.flights && Brought(w.flights[m].todo, p, t, k) {
      BroughtIsLinked(w.flights[m], p, t, k);
      NoHarm(w.flights[n].claim, w.flights[m].claim, t, k);
    }
  }

  lemma RecordGoesByDropper(c: Cache, f: Flight, k: Key)
    requires FlightOk(c, f)
    ensures RecordGoes(c, f.todo, k) ==> k in f.claim.drops
  {
    if i :| 0 <= i < |f.todo|
            && (f.todo[i] == DropOwnTags(k) || (f.todo[i].ReadCarriers? && f.todo[i].tag in RowOf(c, k).store)) {
      assert InClaim(f.todo[i], f.claim);
    }
  }

  /** When the last operation that deletes a key ends, the key has no tags left. */
  lemma LastDropperEnds(w: World, n: nat, k: Key)
    requires FlightsOk(w) && Enabled(w, End(n)) && k in w.flights[n].claim.drops
    requires DropOk(w, k, {}) && !Dropped(Next(w, End(n)), k)
    ensures LinkOk(Next(w, End(n)), k, {})
  {
    var y := Next(w, End(n));
    forall m | m in w.flights ensures !RecordGoes(w.cache, w.flights[m].todo, k) {
      RecordGoesByDropper(w.cache, w.flights[m], k);
      if m != n {
        assert m in y.flights && y.flights[m] == w.flights[m];
      }
    }
    assert RowOf(w.cache, k).own == {};
    forall p, t ensures t !in In(RowOf(y.cache, k), p) && !Awaited(y, p, t, k) {
      DroppedIsNotAwaited(w, n, p, t, k);
      EndAwaits(w, n, p, t, k);
    }
  }

  lemma EndAwaits(w: World, n: nat, p: Place, t: Tag, k: Key)
    requires Enabled(w, End(n))
    ensures Awaited(Next(w, End(n)), p, t, k) <==> Awaited(w, p, t, k)
  {
    var y := Next(w, End(n));
    if m :| m in w.flights && Brought(w.flights[m].todo, p, t, k) {
      assert m in y.flights && y.flights[m] == w.flights[m];
    }
    if m :| m in y.flights && Brought(y.flights[m].todo, p, t, k) {
      assert m in w.flights && y.flights[m] == w.flights[m];
    }
  }

  lemma EndDropped(w: World, n: nat, k: Key)
    requires Enabled(w, End(n))
    ensures Dropped(w, k) <==> Dropped(Next(w, End(n)), k) || k in w.flights[n].claim.drops
  {
    var y := Next(w, End(n));
    if m :| m in w.flights && k in w.flights[m].claim.drops {
      assert m != n ==> m in y.flights && y.flights[m] == w.flights[m];
    }
    if m :| m in y.flights && k in y.flights[m].claim.drops {
      assert m in w.flights && y.flights[m] == w.flights[m];
    }
  }

  lemma EndKeepsGood(origin: Cache, w: World, n: nat)
    requires Good(origin, w) && Enabled(w, End(n))
    ensures Good(origin, Next(w, End(n)))
  {
    var y := Next(w, End(n));
    forall k ensures KeyOk(y, k, Prescribed(origin, y.started, k)) {
      var tags := Prescribed(origin, w.started, k);
      assert KeyOk(w, k, tags);
      EndDropped(w, n, k);
      if Dropped(y, k) {
        EndKeepsDropOk(w, n, k);
      } else if Dropped(w, k) {
        LastDropperEnds(w, n, k);
      } else {
        forall p, t ensures t in tags <==> t in In(RowOf(y.cache, k), p) || Awaited(y, p, t, k) {
          EndAwaits(w, n, p, t, k);
        }
      }
    }
  }

  lemma EndKeepsDropOk(w: World, n: nat, k: Key)
    requires Enabled(w, End(n)) && DropOk(w, k, {})
    ensures DropOk(Next(w, End(n)), k, {})
  {
    var y := Next(w, End(n));
    if RowOf(w.cache, k).own != {} {
      var m :| m in w.flights && RecordGoes(w.cache, w.flights[m].todo, k);
      assert m in y.flights && y.flights[m] == w.flights[m];
    }
  }

  // ----- the start of an operation

  lemma {:induction false} LinksAre(key: Key, tags: seq<Tag>)
    ensures forall i :: 0 <= i < |Links(key, tags)| ==>
              var a := Links(key, tags)[i]; (a.AddInMemory? || a.AddInStore?) && a.key == key && a.tag in tags
    ensures forall t :: t in tags ==> AddInMemory(t, key) in Links(key, tags) && AddInStore(t, key) in Links(key, tags)
  {
    if tags != [] {
      var (front, t, all) := (tags[..|tags| - 1], tags[|tags| - 1], Links(key, tags));
      LinksAre(key, front);
      assert tags == front + [t];
      assert all[|all| - 2] == AddInMemory(t, key) && all[|all| - 1] == AddInStore(t, key);
    }
  }

  lemma {:induction false} InvalidationsAre(tags: seq<Tag>)
    ensures forall i :: 0 <= i < |Invalidations(tags)| ==>
              var a := Invalidations(tags)[i]; (a.ReadCarriers? || a.DropTagInStore? || a.DropTagInMemory?) && a.tag in tags
  {
    if tags != [] {
      var (front, t) := (tags[..|tags| - 1], tags[|tags| - 1]);
      InvalidationsAre(front);
      assert tags == front + [t];
    }
  }

  /** Invalidations read the keys of a tag before they drop it. */
  lemma {:induction false} InvalidationsReadFirst(tags: seq<Tag>, i: nat, t: Tag)
    requires i < |Invalidations(tags)|
    requires Invalidations(tags)[i] == DropTagInStore(t) || Invalidations(tags)[i] == DropTagInMemory(t)
    ensures exists j :: 0 <= j < i && Invalidations(tags)[j] == ReadCarriers(t)
  {
    var (front, u, all) := (tags[..|tags| - 1], tags[|tags| - 1], Invalidations(tags));
    var n := |Invalidations(front)|;
    assert all[n] == ReadCarriers(u) && all[n + 1] == DropTagInStore(u) && all[n + 2] == DropTagInMemory(u);
    if i < n {
      InvalidationsReadFirst(front, i, t);
      var j :| 0 <= j < i && Invalidations(front)[j] == ReadCarriers(t);
      assert all[j] == Invalidations(front)[j];
    }
  }

  lemma {:induction false} InvalidationsRead(tags: seq<Tag>, t: Tag)
    requires t in tags
    ensures ReadCarriers(t) in Invalidations(tags)
  {
    var (front, last) := (tags[..|tags| - 1], tags[|tags| - 1]);
    assert tags == front + [last];
    if t in front {
      InvalidationsRead(front, t);
    } else {
      assert Invalidations(tags)[|Invalidations(front)|] == ReadCarriers(t);
    }
  }

  /** What a set links, and nothing else, is brought. */
  lemma ProgramBrings(op: Op, p: Place, t: Tag, k: Key)
    ensures Brought(Program(op), p, t, k) <==> op.DoPut? && k == op.key && t in op.tags
  {
    match op {
      case DoPut(key, value, tags, refresh) => PutBrings(op, p, t, k);
      case DoDelete(_) =>
      case DoDeleteByTags(tags) => InvalidationsAre(tags);
      case DoExpire(_) =>
    }
  }

  lemma BroughtConcat(a: seq<Action>, b: seq<Action>, p: Place, t: Tag, k: Key)
    ensures Brought(a + b, p, t, k) <==> Brought(a, p, t, k) || Brought(b, p, t, k)
  {
    if i :| 0 <= i < |a| && Brings(a[i], p, t, k) {
      assert (a + b)[i] == a[i];
    }
    if i :| 0 <= i < |b| && Brings(b[i], p, t, k) {
      assert (a + b)[|a| + i] == b[i];
    }
  }

  lemma PutBrings(op: Op, p: Place, t: Tag, k: Key)
    requires op.DoPut?
    ensures Brought(Program(op), p, t, k) <==> k == op.key && t in op.tags
  {
    BroughtConcat(PutHead(op.key, op.value, op.refresh), PutTail(op.key, op.tags), p, t, k);
    if op.tags != [] {
      var last := AddOwnTags(op.key, SetOf(op.tags));
      BroughtConcat(Links(op.key, op.tags), [last], p, t, k);
      LinksBring(op.key, op.tags, p, t, k);
      assert [last][0] == last;
    }
  }

  lemma LinksBring(key: Key, tags: seq<Tag>, p: Place, t: Tag, k: Key)
    ensures Brought(Links(key, tags), p, t, k) <==> !p.Own? && k == key && t in tags
  {
    LinksAre(key, tags);
    if !p.Own? && k == key && t in tags {
      var a := if p.Memory? then AddInMemory(t, key) else AddInStore(t, key);
      var i :| 0 <= i < |Links(key, tags)| && Links(key, tags)[i] == a;
      assert Brings(Links(key, tags)[i], p, t, k);
    }
  }

  /** The steps of a set. */
  predicate OfPut(a: Action, key: Key, tags: seq<Tag>) {
    match a
    case StoreEntry(_, _) => true
    case Enqueue(_) => true
    case AddInMemory(t, k) => k == key && t in tags
    case AddInStore(t, k) => k == key && t in tags
    case AddOwnTags(k, _) => k == key && tags != []
    case _ => false
  }

  lemma PutIs(op: Op)
    requires op.DoPut?
    ensures forall i :: 0 <= i < |Program(op)| ==> OfPut(Program(op)[i], op.key, op.tags)
  {
    var (head, tail, todo) := (PutHead(op.key, op.value, op.refresh), PutTail(op.key, op.tags), Program(op));
    LinksAre(op.key, op.tags);
    forall i | 0 <= i < |todo| ensures OfPut(todo[i], op.key, op.tags) {
      assert todo[i] == if i < |head| then head[i] else tail[i - |head|];
    }
  }

  lemma PutOk(c: Cache, op: Op)
    requires op.DoPut?
    ensures FlightOk(c, Flight(ClaimOf(c, op), Program(op)))
  {
    var todo := Program(op);
    PutIs(op);
    forall i | 0 <= i < |todo| ensures InClaim(todo[i], ClaimOf(c, op)) {
      assert OfPut(todo[i], op.key, op.tags);
    }
    forall i, t, k | 0 <= i < |todo| ensures !Removes(todo[i], t, k) {
      assert OfPut(todo[i], op.key, op.tags);
    }
  }

  lemma InvalidationOk(c: Cache, op: Op)
    requires op.DoDeleteByTags? && Enclosed(c, ClaimOf(c, op))
    ensures FlightOk(c, Flight(ClaimOf(c, op), Program(op)))
  {
    var todo := Program(op);
    InvalidationsAre(op.tags);
    forall i | 0 <= i < |todo| ensures InClaim(todo[i], ClaimOf(c, op)) {
      assert todo[i].tag in SetOf(op.tags);
    }
    forall i, t, k | 0 <= i < |todo| && Removes(todo[i], t, k) ensures CoveredBefore(todo, i, t, k) {
      InvalidationsReadFirst(op.tags, i, t);
      var j :| 0 <= j < i && todo[j] == ReadCarriers(t);
      assert Covers(todo[j], t, k);
    }
  }

  lemma DeletionOk(c: Cache, op: Op)
    requires op.DoDelete?
    ensures FlightOk(c, Flight(ClaimOf(c, op), Program(op)))
  {
    var todo := Program(op);
    assert todo[1] == ReadTags(op.key) && todo[2] == DropOwnTags(op.key);
    assert RecordGoesAfter(todo, 1, op.key);
    forall i, t, k | 0 <= i < |todo| && Removes(todo[i], t, k) ensures CoveredBefore(todo, i, t, k) {
      assert Covers(todo[1], t, k);
    }
  }

  lemma ProgramOk(c: Cache, op: Op)
    requires Enclosed(c, ClaimOf(c, op))
    ensures FlightOk(c, Flight(ClaimOf(c, op), Program(op)))
  {
    match op
    case DoPut(_, _, _, _) => PutOk(c, op);
    case DoDelete(_) => DeletionOk(c, op);
    case DoDeleteByTags(_) => InvalidationOk(c, op);
    case DoExpire(_) =>
  }

  /** A tag about to be invalidated is carried by the claimed keys only, in
      memory as well, because no operation in flight is linking it. */
  lemma StartEncloses(origin: Cache, w: World, op: Op)
    requires Good(origin, w) && MayStart(w, op)
    ensures Enclosed(w.cache, ClaimOf(w.cache, op))
  {
    var claim := ClaimOf(w.cache, op);
    forall t, k | t in claim.closes && (t in RowOf(w.cache, k).memory || t in RowOf(w.cache, k).store)
      ensures k in claim.drops
    {
      assert KeyOk(w, k, Prescribed(origin, w.started, k));
      ClosedIsCarried(w, op, t, k, Prescribed(origin, w.started, k));
    }
  }

  /** A tag that is closed and meant for a key is in the store already. */
  lemma ClosedIsCarried(w: World, op: Op, t: Tag, k: Key, tags: set<Tag>)
    requires FlightsOk(w) && MayStart(w, op) && KeyOk(w, k, tags) && t in ClaimOf(w.cache, op).closes
    requires t in tags || t in RowOf(w.cache, k).memory || t in RowOf(w.cache, k).store
    ensures t in RowOf(w.cache, k).store && k in ClaimOf(w.cache, op).drops
  {
    var r := RowOf(w.cache, k);
    if !Dropped(w, k) {
      assert t in In(r, Memory) || t in In(r, Store) ==> t in tags;
      if t !in r.store {
        assert t !in In(r, Store) && Awaited(w, Store, t, k);
        var n :| n in w.flights && Brought(w.flights[n].todo, Store, t, k);
        ClosedIsNotBrought(w, op, n, t, k);
      }
    }
    DoomedMeans(w.cache, op.tags, k);
    assert t in op.tags && Has(w.cache, k, t);
  }

  lemma ClosedIsNotBrought(w: World, op: Op, n: nat, t: Tag, k: Key)
    requires FlightsOk(w) && MayStart(w, op) && n in w.flights && t in ClaimOf(w.cache, op).closes
    ensures !Brought(w.flights[n].todo, Store, t, k)
  {
    NoHarm(ClaimOf(w.cache, op), w.flights[n].claim, t, k);
    forall i | 0 <= i < |w.flights[n].todo| ensures !Brings(w.flights[n].todo[i], Store, t, k) {
      assert InClaim(w.flights[n].todo[i], w.flights[n].claim);
    }
  }

  lemma StartKeepsFlights(origin: Cache, w: World, n: nat, op: Op)
    requires Good(origin, w) && n !in w.flights && MayStart(w, op)
    ensures FlightsOk(Next(w, Start(n, op)))
  {
    StartEncloses(origin, w, op);
    ProgramOk(w.cache, op);
  }

  lemma StartAwaits(w: World, n: nat, op: Op, p: Place, t: Tag, k: Key)
    requires n !in w.flights
    ensures Awaited(Next(w, Start(n, op)), p, t, k) <==> Awaited(w, p, t, k) || (op.DoPut? && k == op.key && t in op.tags)
  {
    var y := Next(w, Start(n, op));
    ProgramBrings(op, p, t, k);
    if m :| m in w.flights && Brought(w.flights[m].todo, p, t, k) {
      assert y.flights[m] == w.flights[m];
    }
    if m :| m in y.flights && Brought(y.flights[m].todo, p, t, k) {
      assert m != n ==> y.flights[m] == w.flights[m];
    }
    if op.DoPut? && k == op.key && t in op.tags {
      assert Brought(y.flights[n].todo, p, t, k);
    }
  }

  lemma StartDropped(w: World, n: nat, op: Op, k: Key)
    requires n !in w.flights
    ensures Dropped(Next(w, Start(n, op)), k) <==> Dropped(w, k) || k in ClaimOf(w.cache, op).drops
  {
    var y := Next(w, Start(n, op));
    if m :| m in w.flights && k in w.flights[m].claim.drops {
      assert y.flights[m] == w.flights[m];
    }
    if m :| m in y.flights && k in y.flights[m].claim.drops {
      assert m != n ==> y.flights[m] == w.flights[m];
    }
    assert y.flights[n].claim == ClaimOf(w.cache, op);
  }

  lemma TurnAdds(c: Cache, op: Op, k: Key, tags: set<Tag>)
    requires k !in ClaimOf(c, op).drops && (op.DoDeleteByTags? ==> tags !! SetOf(op.tags))
    ensures forall t :: t in Turn(tags, k, op) <==> t in tags || (op.DoPut? && k == op.key && t in op.tags)
  {
  }

  /** An invalidation that does not claim a key names none of its tags. */
  lemma NothingClosed(w: World, op: Op, k: Key, tags: set<Tag>)
    requires FlightsOk(w) && MayStart(w, op) && KeyOk(w, k, tags) && k !in ClaimOf(w.cache, op).drops
    ensures op.DoDeleteByTags? ==> tags !! SetOf(op.tags)
  {
    forall t | op.DoDeleteByTags? && t in SetOf(op.tags) ensures t !in tags {
      if t in tags {
        ClosedIsCarried(w, op, t, k, tags);
      }
    }
  }

  /** Keys that no operation deletes: the new one may add to what is awaited. */
  lemma StartKeepsLinkOk(w: World, n: nat, op: Op, k: Key, tags: set<Tag>)
    requires FlightsOk(w) && n !in w.flights && MayStart(w, op)
    requires LinkOk(w, k, tags) && !Dropped(w, k) && k !in ClaimOf(w.cache, op).drops
    ensures LinkOk(Next(w, Start(n, op)), k, Turn(tags, k, op))
  {
    NothingClosed(w, op, k, tags);
    TurnAdds(w.cache, op, k, tags);
    forall p, t
      ensures t in Turn(tags, k, op) <==> t in In(RowOf(w.cache, k), p) || Awaited(Next(w, Start(n, op)), p, t, k)
    {
      StartAwaits(w, n, op, p, t, k);
    }
  }

  /** A key that some operation deletes already stays without prescribed tags. */
  lemma StartKeepsDropOk(w: World, n: nat, op: Op, k: Key)
    requires n !in w.flights && MayStart(w, op) && Dropped(w, k) && DropOk(w, k, {})
    ensures DropOk(Next(w, Start(n, op)), k, Turn({}, k, op))
  {
    var y := Next(w, Start(n, op));
    if op.DoPut? && k == op.key && op.tags != [] {
      var m :| m in w.flights && k in w.flights[m].claim.drops;
      NoHarm(ClaimOf(w.cache, op), w.flights[m].claim, "", k);
    }
    if RowOf(w.cache, k).own != {} {
      var m :| m in w.flights && RecordGoes(w.cache, w.flights[m].todo, k);
      assert y.flights[m] == w.flights[m];
    }
  }

  /** A key that the new operation is the first to delete: nothing is awaited, so
      the three representations agree. */
  lemma StartMakesDropOk(w: World, n: nat, op: Op, k: Key, tags: set<Tag>)
    requires FlightsOk(w) && n !in w.flights && MayStart(w, op)
    requires LinkOk(w, k, tags) && k in ClaimOf(w.cache, op).drops
    ensures DropOk(Next(w, Start(n, op)), k, Turn(tags, k, op))
  {
    var y := Next(w, Start(n, op));
    NothingAwaited(w, op, k, tags);
    RecordWillGo(w.cache, op, k);
    assert y.flights[n].todo == Program(op);
    if op.DoDeleteByTags? {
      DoomedMeans(w.cache, op.tags, k);
      var t :| t in op.tags && Has(w.cache, k, t);
      assert t in RowOf(w.cache, k).store && t in tags * SetOf(op.tags);
    }
  }

  lemma NothingAwaited(w: World, op: Op, k: Key, tags: set<Tag>)
    requires FlightsOk(w) && MayStart(w, op) && LinkOk(w, k, tags) && k in ClaimOf(w.cache, op).drops
    ensures RowOf(w.cache, k) == Row(tags, tags, tags)
  {
    var r := RowOf(w.cache, k);
    forall p, t ensures t in tags <==> t in In(r, p) {
      if m :| m in w.flights && Brought(w.flights[m].todo, p, t, k) {
        BroughtIsLinked(w.flights[m], p, t, k);
        NoHarm(ClaimOf(w.cache, op), w.flights[m].claim, t, k);
      }
    }
    assert In(r, Memory) == tags && In(r, Store) == tags && In(r, Own) == tags;
  }

  /** An operation that claims a key to delete it takes its record of tags. */
  lemma RecordWillGo(c: Cache, op: Op, k: Key)
    requires k in ClaimOf(c, op).drops
    ensures RecordGoes(c, Program(op), k)
  {
    if op.DoDelete? {
      assert Program(op)[2] == DropOwnTags(k);
    } else {
      DoomedMeans(c, op.tags, k);
      var t :| t in op.tags && Has(c, k, t);
      InvalidationsRead(op.tags, t);
      var i :| 0 <= i < |Program(op)| && Program(op)[i] == ReadCarriers(t);
      assert t in RowOf(c, k).store;
    }
  }

  lemma StartKeepsGood(origin: Cache, w: World, n: nat, op: Op)
    requires Good(origin, w) && n !in w.flights && MayStart(w, op)
    ensures Good(origin, Next(w, Start(n, op)))
  {
    var y := Next(w, Start(n, op));
    StartKeepsFlights(origin, w, n, op);
    forall k ensures KeyOk(y, k, Prescribed(origin, y.started, k)) {
      var tags := Prescribed(origin, w.started, k);
      assert KeyOk(w, k, tags);
      PrescribedSnoc(origin, w.started, op, k);
      StartDropped(w, n, op, k);
      if Dropped(w, k) {
        StartKeepsDropOk(w, n, op, k);
      } else if k in ClaimOf(w.cache, op).drops {
        StartMakesDropOk(w, n, op, k, tags);
      } else {
        StartKeepsLinkOk(w, n, op, k, tags);
      }
    }
  }

  // ----- every run

  lemma {:induction false} RunIsGood(origin: Cache, run: seq<Step>)
    requires Coherent(origin) && Valid(origin, run) && Careful(origin, run)
    ensures Good(origin, Reached(origin, run))
  {
    if run == [] {
      forall k ensures KeyOk(Reached(origin, []), k, At(origin.keyTags, k)) {
        CoherentIsClean(origin, k);
      }
    } else {
      var (front, s) := (run[..|run| - 1], run[|run| - 1]);
      RunIsGood(origin, front);
      match s
      case Start(n, op) => StartKeepsGood(origin, Reached(origin, front), n, op);
      case Advance(n, tags, keys) => AdvanceKeepsGood(origin, Reached(origin, front), n, tags, keys);
      case End(n) => EndKeepsGood(origin, Reached(origin, front), n);
    }
  }

  ghost predicate Claimed(w: World, k: Key) {
    exists n :: n in w.flights && k in w.flights[n].claim.links + w.flights[n].claim.drops
  }

  lemma UnclaimedSettled(w: World, k: Key, tags: set<Tag>)
    requires FlightsOk(w) && KeyOk(w, k, tags) && !Claimed(w, k)
    ensures RowOf(w.cache, k) == Row(tags, tags, tags)
  {
    var r := RowOf(w.cache, k);
    forall p, t ensures t in tags <==> t in In(r, p) {
      if n :| n in w.flights && Brought(w.flights[n].todo, p, t, k) {
        BroughtIsLinked(w.flights[n], p, t, k);
      }
    }
    assert In(r, Memory) == tags && In(r, Store) == tags && In(r, Own) == tags;
  }

  /** For every interleaving, from any coherent cache, in which operations that
      overlap do not conflict: for each key that no operation in flight claims, the
      three representations denote one relation, the one that the started
      operations prescribe in the order of their starts. */
  lemma InterleavedOneRelation(origin: Cache, run: seq<Step>, k: Key, t: Tag)
    requires Coherent(origin) && Valid(origin, run) && Careful(origin, run)
    ensures var (w, tags) := (Reached(origin, run), Prescribed(origin, Reached(origin, run).started, k));
            !Claimed(w, k) ==>
              && (Has(w.cache, k, t) <==> t in tags)
              && (k in At(w.cache.memory, t) <==> t in tags)
              && (t in At(w.cache.keyTags, k) <==> t in tags)
  {
    var w := Reached(origin, run);
    RunIsGood(origin, run);
    RowMeans(w.cache, k, t);
    assert KeyOk(w, k, Prescribed(origin, w.started, k));
    if !Claimed(w, k) {
      UnclaimedSettled(w, k, Prescribed(origin, w.started, k));
    }
  }

  /** So when everything has ended the cache is coherent, and linked as by doing
      the operations one after the other. */
  lemma QuietIsSequential(origin: Cache, run: seq<Step>)
    requires Coherent(origin) && Valid(origin, run) && Careful(origin, run) && Reached(origin, run).flights == map[]
    ensures Coherent(Reached(origin, run).cache)
    ensures var w := Reached(origin, run); forall k, t :: Has(w.cache, k, t) <==> Has(ApplyAll(origin, w.started), k, t)
  {
    var w := Reached(origin, run);
    RunIsGood(origin, run);
    PrescribedIsSequential(origin, w.started);
    forall k, t
      ensures Agree(w.cache, k, t)
      ensures Has(w.cache, k, t) <==> Has(ApplyAll(origin, w.started), k, t)
    {
      InterleavedOneRelation(origin, run, k, t);
    }
  }

  // ----- one operation alone

  /** A run goes on without a new operation. */
  ghost predicate Extends(run: seq<Step>, longer: seq<Step>) {
    run <= longer && forall i :: |run| <= i < |longer| ==> !longer[i].Start?
  }

  /** What follows a read does to a row what the read stands for. */
  lemma UnfoldFinish(c: Cache, k: Key, a: Action, tags: seq<Tag>, keys: seq<Key>, rest: seq<Action>)
    requires IsRead(a) && Reads(c, a, tags, keys)
    ensures Finish(RowOf(c, k), k, Unfold(a, tags, keys) + rest) == Finish(Effect(RowOf(c, k), k, a), k, rest)
  {
    FinishConcat(RowOf(c, k), k, Unfold(a, tags, keys), rest);
    match a {
      case ReadTags(key) => FinishUnlinks(RowOf(c, k), k, key, tags);
      case ReadCarriers(t) => FinishDeletions(RowOf(c, k), k, keys);
    }
  }

  /** A step brings a row no nearer to, nor farther from, what will be left. */
  lemma StepKeepsFinish(c: Cache, k: Key, todo: seq<Action>, tags: seq<Tag>, keys: seq<Key>)
    requires todo != [] && Reads(c, todo[0], tags, keys)
    ensures Finish(RowOf(Perform(c, todo[0]), k), k, Unfold(todo[0], tags, keys) + todo[1..])
            == Finish(RowOf(c, k), k, todo)
  {
    var a := todo[0];
    if IsRead(a) {
      UnfoldFinish(c, k, a, tags, keys, todo[1..]);
    } else {
      PerformRow(c, a, k);
      assert Unfold(a, tags, keys) + todo[1..] == todo[1..];
    }
  }

  /** And no nearer to, nor farther from, what will be held under the key. */
  lemma StepKeepsHeld(c: Cache, k: Key, todo: seq<Action>, tags: seq<Tag>, keys: seq<Key>)
    requires todo != [] && Reads(c, todo[0], tags, keys)
    ensures var after := Perform(c, todo[0]);
            FinishHeld(HeldOf(after, k), RowOf(after, k), k, Unfold(todo[0], tags, keys) + todo[1..])
            == FinishHeld(HeldOf(c, k), RowOf(c, k), k, todo)
  {
    var (a, h, r) := (todo[0], HeldOf(c, k), RowOf(c, k));
    if IsRead(a) {
      HeldConcat(h, r, k, Unfold(a, tags, keys), todo[1..]);
      match a {
        case ReadTags(key) =>
          LinkActions(key, tags);
          HeldThroughLinks(h, r, k, Unlinks(key, tags));
          FinishUnlinks(r, k, key, tags);
        case ReadCarriers(t) =>
          HeldByDeletions(h, r, k, keys);
          FinishDeletions(r, k, keys);
      }
    } else {
      PerformRow(c, a, k);
      PerformHeld(c, a, k);
      assert Unfold(a, tags, keys) + todo[1..] == todo[1..];
    }
  }

  /** Some steps are left that will make of c what the operation makes of it. */
  ghost predicate WillApply(c: Cache, op: Op, cache: Cache, todo: seq<Action>) {
    forall k ::
      && Finish(RowOf(cache, k), k, todo) == Finish(RowOf(c, k), k, Program(op))
      && FinishHeld(HeldOf(cache, k), RowOf(cache, k), k, todo) == FinishHeld(HeldOf(c, k), RowOf(c, k), k, Program(op))
  }

  lemma WillApplyStep(c: Cache, op: Op, cache: Cache, todo: seq<Action>, tags: seq<Tag>, keys: seq<Key>)
    requires WillApply(c, op, cache, todo) && todo != [] && Reads(cache, todo[0], tags, keys)
    ensures WillApply(c, op, Perform(cache, todo[0]), Unfold(todo[0], tags, keys) + todo[1..])
  {
    var (after, more) := (Perform(cache, todo[0]), Unfold(todo[0], tags, keys) + todo[1..]);
    forall k
      ensures Finish(RowOf(after, k), k, more) == Finish(RowOf(c, k), k, Program(op))
      ensures FinishHeld(HeldOf(after, k), RowOf(after, k), k, more)
              == FinishHeld(HeldOf(c, k), RowOf(c, k), k, Program(op))
    {
      StepKeepsFinish(cache, k, todo, tags, keys);
      StepKeepsHeld(cache, k, todo, tags, keys);
    }
  }

  lemma {:induction false} AloneWillApply(c: Cache, op: Op, run: seq<Step>)
    requires Valid(c, run) && Extends([Start(1, op)], run)
    ensures var w := Reached(c, run);
            && w.flights.Keys <= {1}
            && WillApply(c, op, w.cache, if 1 in w.flights then w.flights[1].todo else [])
  {
    var (front, s) := (run[..|run| - 1], run[|run| - 1]);
    if |run| == 1 {
      assert front == [] && run == [Start(1, op)];
    } else {
      AloneWillApply(c, op, front);
      var w := Reached(c, front);
      if s.Advance? {
        WillApplyStep(c, op, w.cache, w.flights[1].todo, s.tags, s.keys);
      }
    }
  }

  /** However its reads are ordered, an operation that no other overlaps leaves,
      for every key, the links, the entry and the place in the refresh queue that
      the operation of TagIndex leaves. */
  lemma AloneRunIsApply(c: Cache, op: Op, run: seq<Step>, k: Key)
    requires Coherent(c) && Valid(c, run) && Extends([Start(1, op)], run) && Reached(c, run).flights == map[]
    ensures RowOf(Reached(c, run).cache, k) == RowOf(Apply(c, op), k)
    ensures HeldOf(Reached(c, run).cache, k) == HeldOf(Apply(c, op), k)
  {
    AloneWillApply(c, op, run);
    AloneIsApply(c, op, k);
    AloneStores(c, op, k);
  }
}
