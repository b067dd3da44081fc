/**
 The retry queue of failed payments.  A pass reads its batch in one step and then
 writes one item per step, from what it read; items may be added and resolved in
 between, and a pass may stop half-way.
 */
module RetryQueue {
  import opened Wrappers
  import opened Backoff

  const BATCH_SIZE := 10

  type ItemId = string

  datatype Item = Item(retryCount: nat, nextRetryAt: Option<int>, lastRetryAt: Option<int>, resolved: bool)

  /** What an automatic update did: it scheduled a retry after a delay, or it gave
      the item up for manual handling. */
  datatype Event = Scheduled(delay: int) | GivenUp

  datatype World = World(queue: map<ItemId, Item>, log: map<ItemId, seq<Event>>)

  predicate Due(q: map<ItemId, Item>, id: ItemId, now: int) {
    id in q && !q[id].resolved && q[id].nextRetryAt.Some? && q[id].nextRetryAt.value <= now
  }

  /** What one item meets: an open circuit, a failing update, its jitter. */
  datatype Chance = Chance(circuitOpen: bool, updateFails: bool, random: real)

  function Schedule(count: nat, random: real, now: int): (Option<int>, Event) {
    var at := NextRetryAt(DEFAULT_CONFIG, count, random, now);
    (Some(at), Scheduled(at - now))
  }

  function Add(w: World, id: ItemId, random: real, now: int): World {
    var (next, event) := Schedule(0, random, now);
    World(w.queue[id := Item(0, next, None, false)], w.log[id := [event]])
  }

  function LogOf(log: map<ItemId, seq<Event>>, id: ItemId): seq<Event> {
    if id in log then log[id] else []
  }

  /** What a pass remembers of an item it read. */
  datatype Snapshot = Snapshot(id: ItemId, retryCount: nat)

  /** The update of one item, from the count that was read. */
  function Write(w: World, read: Snapshot, chance: Chance, now: int): World {
    var id := read.id;
    if id !in w.queue || chance.circuitOpen || chance.updateFails then w
    else
      var item := w.queue[id].(retryCount := read.retryCount + 1, lastRetryAt := Some(now));
      if read.retryCount >= DEFAULT_CONFIG.maxRetries then
        World(w.queue[id := item.(nextRetryAt := None)], w.log[id := LogOf(w.log, id) + [GivenUp]])
      else
        var (next, event) := Schedule(read.retryCount + 1, chance.random, now);
        World(w.queue[id := item.(nextRetryAt := next)], w.log[id := LogOf(w.log, id) + [event]])
  }

  /** The same for an item that nobody wrote since it was read. */
  function Handle(w: World, id: ItemId, chance: Chance, now: int): World {
    if id !in w.queue then w else Write(w, Snapshot(id, w.queue[id].retryCount), chance, now)
  }

  datatype Visit = Visit(id: ItemId, chance: Chance)

  function HandleAll(w: World, visits: seq<Visit>, now: int): World {
    if visits == [] then w
    else
      var v := visits[|visits| - 1];
      Handle(HandleAll(w, visits[..|visits| - 1], now), v.id, v.chance, now)
  }

  predicate Reschedules(w: World, v: Visit) {
    v.id in w.queue && !v.chance.circuitOpen && !v.chance.updateFails
    && w.queue[v.id].retryCount < DEFAULT_CONFIG.maxRetries
  }

  /** How many visits schedule another retry. */
  function Rescheduled(w: World, visits: seq<Visit>, now: int): nat {
    if visits == [] then 0
    else
      var front := visits[..|visits| - 1];
      Rescheduled(w, front, now) + if Reschedules(HandleAll(w, front, now), visits[|visits| - 1]) then 1 else 0
  }

  function Resolve(w: World, id: ItemId): World {
    if id in w.queue then w.(queue := w.queue[id := w.queue[id].(resolved := true)]) else w
  }

  /** The batch a query may return: distinct due items, all of them if they fit. */
  ghost predicate Batch(q: map<ItemId, Item>, ids: seq<ItemId>, now: int) {
    && |ids| <= BATCH_SIZE
    && Distinct(ids)
    && (forall id :: id in ids ==> Due(q, id, now))
    && (|ids| < BATCH_SIZE ==> forall id :: Due(q, id, now) ==> id in ids)
  }

  ghost predicate Distinct(ids: seq<ItemId>) {
    forall i, j :: 0 <= i < j < |ids| ==> ids[i] != ids[j]
  }

  function Visited(visits: seq<Visit>): (ids: seq<ItemId>)
    ensures |ids| == |visits| && forall i :: 0 <= i < |ids| ==> ids[i] == visits[i].id
  {
    if visits == [] then [] else Visited(visits[..|visits| - 1]) + [visits[|visits| - 1].id]
  }

  function Read(q: map<ItemId, Item>, ids: seq<ItemId>): (snaps: seq<Snapshot>)
    requires forall id :: id in ids ==> id in q
    ensures |snaps| == |ids|
    ensures forall i :: 0 <= i < |ids| ==> snaps[i] == Snapshot(ids[i], q[ids[i]].retryCount)
  {
    if ids == [] then []
    else
      assert ids[|ids| - 1] in ids;
      assert forall id :: id in ids[..|ids| - 1] ==> id in ids;
      Read(q, ids[..|ids| - 1]) + [Snapshot(ids[|ids| - 1], q[ids[|ids| - 1]].retryCount)]
  }

  /** The table, and what the passes under way still have to write. */
  datatype System = System(world: World, passes: map<nat, seq<Snapshot>>)

  datatype Step =
    | AddStep(id: ItemId, random: real, now: int)
    | ResolveStep(id: ItemId)
    | ReadStep(pass: nat, ids: seq<ItemId>, now: int)
    | WriteStep(pass: nat, chance: Chance, now: int)
    | StopStep(pass: nat)

  ghost predicate Enabled(x: System, s: Step) {
    match s
    case AddStep(id, random, _) => id !in x.world.queue && Unit(random)
    case ResolveStep(_) => true
    case ReadStep(pass, ids, now) => pass !in x.passes && Batch(x.world.queue, ids, now)
    case WriteStep(pass, chance, _) => pass in x.passes && x.passes[pass] != [] && Unit(chance.random)
    case StopStep(_) => true
  }

  function Next(x: System, s: Step): System {
    match s
    case AddStep(id, random, now) => x.(world := Add(x.world, id, random, now))
    case ResolveStep(id) => x.(world := Resolve(x.world, id))
    case ReadStep(pass, ids, _) =>
      if exists id :: id in ids && id !in x.world.queue then x
      else x.(passes := x.passes[pass := Read(x.world.queue, ids)])
    case WriteStep(pass, chance, now) =>
      if pass !in x.passes || x.passes[pass] == [] then x
      else System(Write(x.world, x.passes[pass][0], chance, now), x.passes[pass := x.passes[pass][1..]])
    case StopStep(pass) => x.(passes := x.passes - {pass})
  }

  function After(run: seq<Step>): System {
    if run == [] then System(World(map[], map[]), map[]) else Next(After(run[..|run| - 1]), run[|run| - 1])
  }

  ghost predicate Valid(run: seq<Step>) {
    run == [] || (Valid(run[..|run| - 1]) && Enabled(After(run[..|run| - 1]), run[|run| - 1]))
  }

  /** A pass starts only when no other is under way: each has ended, or stopped. */
  ghost predicate OneAtATime(run: seq<Step>) {
    run == [] || (OneAtATime(run[..|run| - 1]) && (run[|run| - 1].ReadStep? ==> After(run[..|run| - 1]).passes == map[]))
  }

  lemma AfterSnoc(run: seq<Step>, s: Step)
    ensures After(run + [s]) == Next(After(run), s)
    ensures Valid(run + [s]) <==> Valid(run) && Enabled(After(run), s)
    ensures OneAtATime(run + [s]) <==> OneAtATime(run) && (s.ReadStep? ==> After(run).passes == map[])
  {
    assert (run + [s])[..|run|] == run;
  }

  // ----- the invariant

  /** A delay that some jitter gives for a count. */
  ghost predicate Possible(count: nat, delay: int) {
    exists r :: Unit(r) && delay == Delay(DEFAULT_CONFIG, count, r).Floor
  }

  ghost predicate ItemGood(item: Item, log: seq<Event>) {
    var max := DEFAULT_CONFIG.maxRetries;
    && |log| == item.retryCount + 1
    && item.retryCount <= max + 1
    && (item.nextRetryAt.None? <==> item.retryCount == max + 1)
    && (forall i :: 0 <= i < |log| && i <= max ==> log[i].Scheduled? && Possible(i, log[i].delay))
    && (|log| == max + 2 ==> log[max + 1] == GivenUp)
  }

  ghost predicate Good(w: World) {
    && w.queue.Keys == w.log.Keys
    && forall id :: id in w.queue ==> ItemGood(w.queue[id], w.log[id])
  }

  lemma ScheduleIsPossible(count: nat, random: real, now: int)
    requires Unit(random)
    ensures var (next, event) := Schedule(count, random, now); next.Some? && Possible(count, event.delay)
  {
    var d := Delay(DEFAULT_CONFIG, count, random);
    assert (now as real + d).Floor == now + d.Floor;
  }

  /** A write from an up-to-date count keeps every item right. */
  lemma WriteKeepsGood(w: World, read: Snapshot, chance: Chance, now: int)
    requires Good(w) && UpToDate(w, read) && Unit(chance.random)
    ensures Good(Write(w, read, chance, now))
    ensures forall id :: id != read.id && id in w.queue ==>
              id in Write(w, read, chance, now).queue && Write(w, read, chance, now).queue[id] == w.queue[id]
    ensures Write(w, read, chance, now).queue.Keys == w.queue.Keys
  {
    assert ItemGood(w.queue[read.id], w.log[read.id]);
    ScheduleIsPossible(read.retryCount + 1, chance.random, now);
  }

  /** What was read is still so, and automatic retries go on. */
  predicate UpToDate(w: World, read: Snapshot) {
    && read.id in w.queue
    && w.queue[read.id].retryCount == read.retryCount
    && w.queue[read.id].nextRetryAt.Some?
  }

  lemma {:induction false} HandleAllKeepsGood(w: World, visits: seq<Visit>, now: int)
    requires Good(w) && Distinct(Visited(visits))
    requires forall v :: v in visits ==> v.id in w.queue && w.queue[v.id].nextRetryAt.Some? && Unit(v.chance.random)
    ensures var after := HandleAll(w, visits, now);
            && Good(after)
            && after.queue.Keys == w.queue.Keys
            && forall id :: id in w.queue && id !in Visited(visits) ==> after.queue[id] == w.queue[id]
  {
    if visits != [] {
      var (front, v) := (visits[..|visits| - 1], visits[|visits| - 1]);
      assert visits == front + [v] && Visited(visits) == Visited(front) + [v.id];
      assert v.id !in Visited(front) by {
        assert forall i :: 0 <= i < |front| ==> Visited(visits)[i] == Visited(front)[i] != Visited(visits)[|front|];
      }
      assert Distinct(Visited(front)) by {
        assert forall i :: 0 <= i < |front| ==> Visited(visits)[i] == Visited(front)[i];
      }
      HandleAllKeepsGood(w, front, now);
      var mid := HandleAll(w, front, now);
      WriteKeepsGood(mid, Snapshot(v.id, mid.queue[v.id].retryCount), v.chance, now);
    }
  }

  /** A pass under way remembers distinct items as they still are. */
  ghost predicate Fresh(w: World, snaps: seq<Snapshot>) {
    && (forall i :: 0 <= i < |snaps| ==> UpToDate(w, snaps[i]))
    && (forall i, j :: 0 <= i < j < |snaps| ==> snaps[i].id != snaps[j].id)
  }

  ghost predicate GoodSystem(x: System) {
    && Good(x.world)
    && (forall p :: p in x.passes ==> Fresh(x.world, x.passes[p]))
    && (forall p, q :: p in x.passes && q in x.passes ==> p == q)
  }

  lemma ReadIsFresh(w: World, ids: seq<ItemId>, now: int)
    requires Batch(w.queue, ids, now)
    ensures (forall id :: id in ids ==> id in w.queue) && Fresh(w, Read(w.queue, ids))
  {
    forall id | id in ids ensures id in w.queue && w.queue[id].nextRetryAt.Some? {
      assert Due(w.queue, id, now);
    }
    var snaps := Read(w.queue, ids);
    forall i | 0 <= i < |snaps| ensures UpToDate(w, snaps[i]) {
      assert ids[i] in ids;
    }
  }

  lemma RestStaysFresh(w: World, snaps: seq<Snapshot>, chance: Chance, now: int)
    requires Good(w) && snaps != [] && Fresh(w, snaps) && Unit(chance.random)
    ensures Good(Write(w, snaps[0], chance, now)) && Fresh(Write(w, snaps[0], chance, now), snaps[1..])
  {
    WriteKeepsGood(w, snaps[0], chance, now);
    var after := Write(w, snaps[0], chance, now);
    forall i | 0 <= i < |snaps| - 1 ensures UpToDate(after, snaps[1..][i]) {
      assert UpToDate(w, snaps[i + 1]) && snaps[i + 1].id != snaps[0].id;
    }
  }

  lemma NextKeepsGood(x: System, s: Step)
    requires GoodSystem(x) && Enabled(x, s) && (s.ReadStep? ==> x.passes == map[])
    ensures GoodSystem(Next(x, s))
  {
    match s
    case AddStep(id, random, now) => AddKeepsGood(x, s);
    case ResolveStep(id) =>
    case ReadStep(pass, ids, now) =>
      ReadIsFresh(x.world, ids, now);
    case WriteStep(pass, chance, now) => WriteStepKeepsGood(x, s);
    case StopStep(pass) =>
  }

  lemma AddKeepsGood(x: System, s: Step)
    requires GoodSystem(x) && Enabled(x, s) && s.AddStep?
    ensures GoodSystem(Next(x, s))
  {
    ScheduleIsPossible(0, s.random, s.now);
  }

  lemma WriteStepKeepsGood(x: System, s: Step)
    requires GoodSystem(x) && Enabled(x, s) && s.WriteStep?
    ensures GoodSystem(Next(x, s))
  {
    RestStaysFresh(x.world, x.passes[s.pass], s.chance, s.now);
  }

  lemma {:induction false} GoodOneAtATime(run: seq<Step>)
    requires Valid(run) && OneAtATime(run)
    ensures GoodSystem(After(run))
  {
    if run != [] {
      GoodOneAtATime(run[..|run| - 1]);
      NextKeepsGood(After(run[..|run| - 1]), run[|run| - 1]);
    }
  }

  // ----- what an item tells

  /** The step writes the item: an update that nothing stops. */
  predicate IsWriteOf(x: System, s: Step, id: ItemId) {
    && s.WriteStep? && s.pass in x.passes && x.passes[s.pass] != [] && x.passes[s.pass][0].id == id
    && id in x.world.queue && !s.chance.circuitOpen && !s.chance.updateFails
  }

  /** When the item was last written by a pass. */
  ghost function LastWrite(run: seq<Step>, id: ItemId): Option<int> {
    if run == [] then None
    else
      var (front, s) := (run[..|run| - 1], run[|run| - 1]);
      if s.AddStep? && s.id == id then None
      else if IsWriteOf(After(front), s, id) then Some(s.now)
      else LastWrite(front, id)
  }

  /** When the item was last added or written: delays count from here. */
  ghost function LastSet(run: seq<Step>, id: ItemId): int {
    if run == [] then 0
    else
      var (front, s) := (run[..|run| - 1], run[|run| - 1]);
      if (s.AddStep? && s.id == id) || IsWriteOf(After(front), s, id) then s.now else LastSet(front, id)
  }

  /** Somebody marked the item as resolved since it was added. */
  ghost predicate Settled(run: seq<Step>, id: ItemId) {
    run != [] &&
    var (front, s) := (run[..|run| - 1], run[|run| - 1]);
    if s.AddStep? && s.id == id then false
    else Settled(front, id) || (s.ResolveStep? && s.id == id && id in After(front).world.queue)
  }

  /** The item tells whether it is settled, when it was last written, and the delay
      it was last given, counted from when it was last set. */
  ghost predicate Tells(w: World, id: ItemId, settled: bool, lastWrite: Option<int>, lastSet: int)
    requires id in w.queue
  {
    var item := w.queue[id];
    && id in w.log && w.log[id] != []
    && item.resolved == settled
    && item.lastRetryAt == lastWrite
    && (match w.log[id][|w.log[id]| - 1]
        case GivenUp => item.nextRetryAt.None?
        case Scheduled(delay) => item.nextRetryAt == Some(lastSet + delay))
  }

  /** For every run, with passes overlapping in any way: an item was added, is
      resolved exactly when somebody marked it so, tells when a pass last wrote it,
      and is due the delay it was last given after it was last set. */
  lemma {:induction false} ItemTellsHistory(run: seq<Step>, id: ItemId)
    requires Valid(run)
    ensures id in After(run).world.queue <==> WasAdded(run, id)
    ensures id in After(run).world.queue ==>
              Tells(After(run).world, id, Settled(run, id), LastWrite(run, id), LastSet(run, id))
  {
    if run != [] {
      var (front, s) := (run[..|run| - 1], run[|run| - 1]);
      ItemTellsHistory(front, id);
      if id in After(front).world.queue {
        StepTells(After(front), s, id, Settled(front, id), LastWrite(front, id), LastSet(front, id));
      }
    }
  }

  predicate WasAdded(run: seq<Step>, id: ItemId) {
    run != [] && (WasAdded(run[..|run| - 1], id) || (run[|run| - 1].AddStep? && run[|run| - 1].id == id))
  }

  lemma StepTells(x: System, s: Step, id: ItemId, settled: bool, lastWrite: Option<int>, lastSet: int)
    requires id in x.world.queue && Enabled(x, s) && Tells(x.world, id, settled, lastWrite, lastSet)
    ensures var written := IsWriteOf(x, s, id);
            && id in Next(x, s).world.queue
            && Tells(Next(x, s).world, id, settled || (s.ResolveStep? && s.id == id),
                     if written then Some(s.now) else lastWrite, if written then s.now else lastSet)
  {
    if IsWriteOf(x, s, id) {
      WriteTells(x, s, id);
    } else {
      OthersLeave(x, s, id);
    }
  }

  /** A write of the item tells its time, and the date that its event stands for. */
  lemma WriteTells(x: System, s: Step, id: ItemId)
    requires IsWriteOf(x, s, id) && id in x.world.log
    ensures var w := Next(x, s).world;
            && id in w.queue && id in w.log && w.log[id] != []
            && w.queue[id].resolved == x.world.queue[id].resolved
            && w.queue[id].lastRetryAt == Some(s.now)
            && (match w.log[id][|w.log[id]| - 1]
                case GivenUp => w.queue[id].nextRetryAt.None?
                case Scheduled(delay) => w.queue[id].nextRetryAt == Some(s.now + delay))
  {
  }

  /** Any other step leaves the item as it is, but for a mark as resolved. */
  lemma OthersLeave(x: System, s: Step, id: ItemId)
    requires id in x.world.queue && id in x.world.log && Enabled(x, s) && !IsWriteOf(x, s, id)
    ensures var w := Next(x, s).world;
            && id in w.queue && id in w.log && w.log[id] == x.world.log[id]
            && w.queue[id] == if s.ResolveStep? && s.id == id then x.world.queue[id].(resolved := true) else x.world.queue[id]
  {
  }

  /** Once resolved an item is never due again, whatever passes are under way. */
  lemma {:induction false} ResolvedStays(run: seq<Step>, more: seq<Step>, id: ItemId, now: int)
    requires Valid(run + more) && id in After(run).world.queue && After(run).world.queue[id].resolved
    ensures id in After(run + more).world.queue && After(run + more).world.queue[id].resolved
    ensures !Due(After(run + more).world.queue, id, now)
  {
    if more == [] {
      assert run + more == run;
    } else {
      var front := more[..|more| - 1];
      assert (run + more)[..|run + more| - 1] == run + front;
      ResolvedStays(run, front, id, now);
    }
  }

  // ----- what a pass does

  ghost predicate Outstanding(item: Item, now: int) {
    !item.resolved && item.nextRetryAt.Some? && item.nextRetryAt.value <= now
  }

  /** A batch is at most ten distinct items that are not resolved and whose date has
      come; when there are fewer than ten it leaves none of them out. */
  lemma BatchMeans(q: map<ItemId, Item>, ids: seq<ItemId>, now: int)
    ensures Batch(q, ids, now)
            <==> && |ids| <= 10
                 && (forall i, j :: 0 <= i < j < |ids| ==> ids[i] != ids[j])
                 && (forall i :: 0 <= i < |ids| ==> ids[i] in q && Outstanding(q[ids[i]], now))
                 && (|ids| <= 9 ==> forall id :: id in q && Outstanding(q[id], now) ==> id in ids)
  {
    assert forall id :: Due(q, id, now) <==> id in q && Outstanding(q[id], now);
  }

  /** A visit that nothing stops. */
  predicate Undisturbed(v: Visit) {
    !v.chance.circuitOpen && !v.chance.updateFails
  }

  /** What an undisturbed visit makes of an item: one more attempt, now; given up
      after the fifth retry, and otherwise due after now. */
  ghost predicate Attempted(before: Item, after: Item, now: int) {
    && after.retryCount == before.retryCount + 1
    && after.lastRetryAt == Some(now)
    && after.resolved == before.resolved
    && (if before.retryCount >= 5 then after.nextRetryAt.None? else after.nextRetryAt.Some? && now < after.nextRetryAt.value)
  }

  lemma ScheduleIsLater(count: nat, random: real, now: int)
    requires count <= 5 && Unit(random)
    ensures Schedule(count, random, now).0.Some? && now < Schedule(count, random, now).0.value
  {
    var d := Delay(DEFAULT_CONFIG, count, random);
    DefaultDelays(count, random);
    assert (now as real + d).Floor == now + d.Floor;
  }

  lemma HandleAttempts(w: World, v: Visit, now: int)
    requires v.id in w.queue && Unit(v.chance.random)
    ensures var after := Handle(w, v.id, v.chance, now);
            && after.queue.Keys == w.queue.Keys
            && (forall id :: id in w.queue && id != v.id ==> after.queue[id] == w.queue[id])
            && (if Undisturbed(v) then Attempted(w.queue[v.id], after.queue[v.id], now) else after.queue[v.id] == w.queue[v.id])
  {
    if Undisturbed(v) && w.queue[v.id].retryCount < 5 {
      ScheduleIsLater(w.queue[v.id].retryCount + 1, v.chance.random, now);
    }
  }

  /** The visits that schedule another retry: undisturbed, at an item with fewer
      than five retries. */
  function Again(w: World, visits: seq<Visit>): set<Visit> {
    set v | v in visits && v.id in w.queue && Undisturbed(v) && w.queue[v.id].retryCount < 5
  }

  lemma VisitedHas(visits: seq<Visit>, v: Visit)
    requires v in visits
    ensures v.id in Visited(visits)
  {
    var i :| 0 <= i < |visits| && visits[i] == v;
    assert Visited(visits)[i] == v.id;
  }

  lemma DistinctFront(front: seq<Visit>, v: Visit)
    requires Distinct(Visited(front + [v]))
    ensures Distinct(Visited(front)) && v.id !in Visited(front)
  {
    var (some, all) := (Visited(front), Visited(front + [v]));
    assert forall i :: 0 <= i < |some| ==> some[i] == all[i] != all[|some|] == v.id;
  }

  /** What a pass makes of the table. */
  ghost predicate AttemptsEach(w: World, visits: seq<Visit>, now: int, after: World) {
    && after.queue.Keys == w.queue.Keys
    && (forall v :: v in visits && v.id in w.queue ==>
          if Undisturbed(v) then Attempted(w.queue[v.id], after.queue[v.id], now) else after.queue[v.id] == w.queue[v.id])
    && (forall id :: id in w.queue && id !in Visited(visits) ==> after.queue[id] == w.queue[id])
  }

  lemma OneMoreAttempt(w: World, front: seq<Visit>, v: Visit, now: int, mid: World)
    requires AttemptsEach(w, front, now, mid) && v.id in w.queue && v.id !in Visited(front) && Unit(v.chance.random)
    ensures AttemptsEach(w, front + [v], now, Handle(mid, v.id, v.chance, now))
  {
    HandleAttempts(mid, v, now);
    assert Visited(front + [v]) == Visited(front) + [v.id] by {
      assert (front + [v])[..|front|] == front;
    }
    forall u | u in front ensures u.id != v.id {
      VisitedHas(front, u);
    }
  }

  lemma OneMoreAgain(w: World, front: seq<Visit>, v: Visit)
    requires v.id !in Visited(front)
    ensures |Again(w, front + [v])| == |Again(w, front)| + |Again(w, [v])|
  {
    if v in front {
      VisitedHas(front, v);
    }
    assert Again(w, front + [v]) == Again(w, front) + Again(w, [v]);
    assert Again(w, front) !! Again(w, [v]);
  }

  /** What a pass over distinct items does, as one step: every item it visits
      undisturbed is attempted, every other item is as before, and the number it
      returns is that of the items scheduled again. */
  lemma {:induction false} PassAttemptsEach(w: World, visits: seq<Visit>, now: int)
    requires Distinct(Visited(visits)) && forall v :: v in visits ==> v.id in w.queue && Unit(v.chance.random)
    ensures AttemptsEach(w, visits, now, HandleAll(w, visits, now))
    ensures Rescheduled(w, visits, now) == |Again(w, visits)|
  {
    if visits != [] {
      var (front, v) := (visits[..|visits| - 1], visits[|visits| - 1]);
      assert visits == front + [v];
      DistinctFront(front, v);
      PassAttemptsEach(w, front, now);
      OneMoreAttempt(w, front, v, now, HandleAll(w, front, now));
      OneMoreAgain(w, front, v);
      assert Again(w, [v]) == if Reschedules(HandleAll(w, front, now), v) then {v} else {};
    }
  }

  // ----- passes that overlap

  /** The guard of the update that goes wrong: it is applied, and the count that
      was read is no longer the stored one. */
  predicate StaleWrite(x: System, s: Step, id: ItemId) {
    && s.WriteStep? && s.pass in x.passes && x.passes[s.pass] != []
    && x.passes[s.pass][0].id == id && id in x.world.queue
    && !s.chance.circuitOpen && !s.chance.updateFails
    && x.passes[s.pass][0].retryCount != x.world.queue[id].retryCount
  }

  ghost predicate NoStale(run: seq<Step>, id: ItemId) {
    run == [] ||
    var front := run[..|run| - 1];
    NoStale(front, id) && !StaleWrite(After(front), run[|run| - 1], id)
  }

  ghost predicate ReadAtMost(x: System, id: ItemId, count: int) {
    forall p, i :: p in x.passes && 0 <= i < |x.passes[p]| && x.passes[p][i].id == id ==> x.passes[p][i].retryCount <= count
  }

  /** Without a stale write: the item is right, and no pass has read more. */
  ghost predicate Sound(x: System, id: ItemId)
    requires id in x.world.queue && id in x.world.log
  {
    var (item, log) := (x.world.queue[id], x.world.log[id]);
    ItemGood(item, log) && ReadAtMost(x, id, item.retryCount) && ReadAtMost(x, id, DEFAULT_CONFIG.maxRetries)
  }

  /** After one: the stored count, and every count read, is behind for good. */
  ghost predicate Behind(x: System, id: ItemId)
    requires id in x.world.queue && id in x.world.log
  {
    x.world.queue[id].retryCount < |x.world.log[id]| - 1 && ReadAtMost(x, id, |x.world.log[id]| - 2)
  }

  ghost predicate Tracked(x: System, id: ItemId, noStale: bool) {
    && (id in x.world.queue <==> id in x.world.log)
    && (id in x.world.queue ==> if noStale then Sound(x, id) else Behind(x, id))
    && (id !in x.world.queue ==> noStale && ReadAtMost(x, id, -1))
  }

  lemma ReadKeepsTracked(x: System, pass: nat, ids: seq<ItemId>, now: int, id: ItemId, noStale: bool)
    requires Tracked(x, id, noStale) && Enabled(x, ReadStep(pass, ids, now))
    ensures Tracked(Next(x, ReadStep(pass, ids, now)), id, noStale)
  {
    var (q, y) := (x.world.queue, Next(x, ReadStep(pass, ids, now)));
    assert forall other :: other in ids ==> Due(q, other, now);
    forall i | 0 <= i < |ids| && ids[i] == id
      ensures id in q && y.passes[pass][i] == Snapshot(id, q[id].retryCount)
      ensures noStale ==> q[id].retryCount <= DEFAULT_CONFIG.maxRetries
    {
      assert Due(q, ids[i], now);
    }
  }

  lemma WriteKeepsTracked(x: System, pass: nat, chance: Chance, now: int, id: ItemId, noStale: bool)
    requires Tracked(x, id, noStale) && Enabled(x, WriteStep(pass, chance, now))
    ensures Tracked(Next(x, WriteStep(pass, chance, now)), id, noStale && !StaleWrite(x, WriteStep(pass, chance, now), id))
  {
    var (read, y) := (x.passes[pass][0], Next(x, WriteStep(pass, chance, now)));
    assert forall i :: 0 <= i < |y.passes[pass]| ==> y.passes[pass][i] == x.passes[pass][i + 1];
    if read.id == id && id in x.world.queue {
      ScheduleIsPossible(read.retryCount + 1, chance.random, now);
    }
  }

  lemma NextKeepsTracked(x: System, s: Step, id: ItemId, noStale: bool)
    requires Tracked(x, id, noStale) && Enabled(x, s)
    ensures Tracked(Next(x, s), id, noStale && !StaleWrite(x, s, id))
  {
    match s
    case AddStep(_, random, now) => ScheduleIsPossible(0, random, now);
    case ResolveStep(_) =>
    case ReadStep(pass, ids, now) => ReadKeepsTracked(x, pass, ids, now, id, noStale);
    case WriteStep(pass, chance, now) => WriteKeepsTracked(x, pass, chance, now, id, noStale);
    case StopStep(_) =>
  }

  lemma {:induction false} TrackedAlways(run: seq<Step>, id: ItemId)
    requires Valid(run)
    ensures Tracked(After(run), id, NoStale(run, id))
  {
    if run != [] {
      var front := run[..|run| - 1];
      TrackedAlways(front, id);
      NextKeepsTracked(After(front), run[|run| - 1], id, NoStale(front, id));
    }
  }

  /** For every run, with passes overlapping in any way: the stored count of an
      item is the number of its automatic updates exactly when no update of it was
      written from an old count. */
  lemma CountExactIff(run: seq<Step>, id: ItemId)
    requires Valid(run) && id in After(run).world.queue
    ensures id in After(run).world.log
    ensures |After(run).world.log[id]| - 1 == After(run).world.queue[id].retryCount <==> NoStale(run, id)
  {
    TrackedAlways(run, id);
  }

  /** And count, next date and scheduling history of the item agree exactly then. */
  lemma EveryItemGood(run: seq<Step>, id: ItemId)
    requires Valid(run) && id in After(run).world.queue
    ensures id in After(run).world.log
    ensures ItemGood(After(run).world.queue[id], After(run).world.log[id]) <==> NoStale(run, id)
  {
    TrackedAlways(run, id);
  }

  /** Passes that come one at a time never write from an old count. */
  lemma {:induction false} OneAtATimeIsNoStale(run: seq<Step>, id: ItemId)
    requires Valid(run) && OneAtATime(run)
    ensures NoStale(run, id)
  {
    if run != [] {
      var front := run[..|run| - 1];
      OneAtATimeIsNoStale(front, id);
      GoodOneAtATime(front);
    }
  }

  lemma DelaysGrow(count: nat, d: int, e: int)
    requires count < DEFAULT_CONFIG.maxRetries && Possible(count, d) && Possible(count + 1, e)
    ensures d < e
  {
    var r :| Unit(r) && d == Delay(DEFAULT_CONFIG, count, r).Floor;
    var s :| Unit(s) && e == Delay(DEFAULT_CONFIG, count + 1, s).Floor;
    DefaultDelaysApart(count, r, s);
    FloorsApart(Delay(DEFAULT_CONFIG, count, r), Delay(DEFAULT_CONFIG, count + 1, s));
  }

  /** Over any run without a stale write to an item: at most maxRetries + 1
      automatic updates for it; it has no next date exactly when it had them all,
      and is then never due again. */
  lemma RetriesAreBounded(run: seq<Step>, id: ItemId, now: int)
    requires Valid(run) && NoStale(run, id) && id in After(run).world.queue
    ensures var (item, log) := (After(run).world.queue[id], After(run).world.log);
            && id in log
            && |log[id]| - 1 == item.retryCount <= DEFAULT_CONFIG.maxRetries + 1
            && (item.nextRetryAt.None? <==> item.retryCount == DEFAULT_CONFIG.maxRetries + 1)
            && (item.retryCount == DEFAULT_CONFIG.maxRetries + 1 ==> !Due(After(run).world.queue, id, now))
  {
    EveryItemGood(run, id);
  }

  /** And whatever the jitters were, each delay the item was scheduled with is
      strictly longer than the one before, in whole milliseconds. */
  lemma DelaysAlwaysGrow(run: seq<Step>, id: ItemId, i: nat)
    requires Valid(run) && NoStale(run, id) && id in After(run).world.queue && id in After(run).world.log
    requires 0 < i < |After(run).world.log[id]| && i <= DEFAULT_CONFIG.maxRetries
    ensures var log := After(run).world.log[id];
            log[i - 1].Scheduled? && log[i].Scheduled? && log[i - 1].delay < log[i].delay
  {
    EveryItemGood(run, id);
    LogGrows(After(run).world.queue[id], After(run).world.log[id], i);
  }

  lemma LogGrows(item: Item, log: seq<Event>, i: nat)
    requires ItemGood(item, log) && 0 < i < |log| && i <= DEFAULT_CONFIG.maxRetries
    ensures log[i - 1].Scheduled? && log[i].Scheduled? && log[i - 1].delay < log[i].delay
  {
    DelaysGrow(i - 1, log[i - 1].delay, log[i].delay);
  }

  // ----- two passes at once

  const CALM := Chance(false, false, 0.5)

  /** The table holds one item, with this count and next date. */
  ghost predicate Holds(w: World, id: ItemId, count: nat, next: Option<int>) {
    && w.queue.Keys == {id}
    && w.queue[id].retryCount == count
    && w.queue[id].nextRetryAt == next
    && !w.queue[id].resolved
  }

  /** A table whose only item is due has one batch. */
  lemma ReadOne(x: System, pass: nat, id: ItemId, count: nat, t: int)
    requires Holds(x.world, id, count, Some(t)) && pass !in x.passes
    ensures Enabled(x, ReadStep(pass, [id], t))
    ensures Next(x, ReadStep(pass, [id], t)) == System(x.world, x.passes[pass := [Snapshot(id, count)]])
  {
    var q := x.world.queue;
    assert id in q.Keys;
    forall other | Due(q, other, t) ensures other in [id] {
      assert other in q.Keys;
    }
    assert Read(q, [id]) == [Snapshot(id, q[id].retryCount)];
  }

  lemma WriteOne(x: System, pass: nat, id: ItemId, read: nat, count: nat, next: Option<int>, t: int) returns (date: Option<int>)
    requires pass in x.passes && x.passes[pass] == [Snapshot(id, read)] && Holds(x.world, id, count, next)
    ensures Enabled(x, WriteStep(pass, CALM, t))
    ensures Holds(Next(x, WriteStep(pass, CALM, t)).world, id, read + 1, date)
    ensures date.None? <==> read >= DEFAULT_CONFIG.maxRetries
    ensures Next(x, WriteStep(pass, CALM, t)).passes == x.passes[pass := []]
  {
    assert id in x.world.queue.Keys;
    assert x.passes[pass][1..] == [];
    date := Next(x, WriteStep(pass, CALM, t)).world.queue[id].nextRetryAt;
  }

  /** A pass over the one item, from reading to the end. */
  lemma PassOverOne(run: seq<Step>, pass: nat, id: ItemId, count: nat, t: int) returns (longer: seq<Step>, date: Option<int>)
    requires Valid(run) && Holds(After(run).world, id, count, Some(t)) && pass !in After(run).passes
    ensures Valid(longer) && Holds(After(longer).world, id, count + 1, date)
    ensures date.None? <==> count >= DEFAULT_CONFIG.maxRetries
    ensures After(longer).passes == After(run).passes
    ensures OneAtATime(longer) <==> OneAtATime(run) && After(run).passes == map[]
  {
    ReadOne(After(run), pass, id, count, t);
    longer := Extend(run, ReadStep(pass, [id], t));
    date := WriteOne(After(longer), pass, id, count, count, Some(t), t);
    longer := Extend(longer, WriteStep(pass, CALM, t));
    longer := Extend(longer, StopStep(pass));
  }

  lemma {:induction false} Climb(id: ItemId, count: nat) returns (run: seq<Step>, t: int)
    requires count <= DEFAULT_CONFIG.maxRetries
    ensures Valid(run) && OneAtATime(run) && After(run).passes == map[]
    ensures Holds(After(run).world, id, count, Some(t))
  {
    if count == 0 {
      run := Extend([], AddStep(id, 0.5, 0));
      t := After(run).world.queue[id].nextRetryAt.value;
    } else {
      run, t := Climb(id, count - 1);
      var date;
      run, date := PassOverOne(run, 0, id, count - 1, t);
      t := date.value;
    }
  }

  lemma Extend(run: seq<Step>, s: Step) returns (longer: seq<Step>)
    requires Valid(run) && Enabled(After(run), s)
    ensures Valid(longer) && After(longer) == Next(After(run), s)
    ensures OneAtATime(longer) <==> OneAtATime(run) && (s.ReadStep? ==> After(run).passes == map[])
  {
    AfterSnoc(run, s);
    longer := run + [s];
  }

  /** Nothing in the code keeps passes apart, and with two under way an item that
      was given up is scheduled again: the later write comes from an old count. */
  lemma OverlapRevives(id: ItemId) returns (run: seq<Step>, s: Step)
    ensures Valid(run) && Enabled(After(run), s) && StaleWrite(After(run), s, id)
    ensures id in After(run).world.queue && After(run).world.queue[id].nextRetryAt.None?
    ensures var item := After(run).world.queue[id]; item.retryCount == DEFAULT_CONFIG.maxRetries + 1
    ensures id in Next(After(run), s).world.queue && Next(After(run), s).world.queue[id].nextRetryAt.Some?
  {
    var max := DEFAULT_CONFIG.maxRetries;
    var t, date;
    run, t := Climb(id, max - 1);
    ReadOne(After(run), 2, id, max - 1, t);
    run := Extend(run, ReadStep(2, [id], t));
    run, date := PassOverOne(run, 1, id, max - 1, t);
    run, date := PassOverOne(run, 1, id, max, date.value);
    s := WriteStep(2, CALM, t);
    date := WriteOne(After(run), 2, id, max - 1, max + 1, None, t);
  }

  // ----- the service

  class PaymentRetryService {
    var queue: map<ItemId, Item>
    ghost var log: map<ItemId, seq<Event>>

    ghost function State(): World
      reads this
    {
      World(queue, log)
    }

    constructor ()
      ensures State() == World(map[], map[])
    {
      queue, log := map[], map[];
    }

    method AddToRetryQueue(id: ItemId, random: real, now: int)
      modifies this
      ensures State() == Add(old(State()), id, random, now)
    {
      var next := NextRetryAt(DEFAULT_CONFIG, 0, random, now);
      queue := queue[id := Item(0, Some(next), None, false)];
      log := log[id := [Scheduled(next - now)]];
    }

    /** One pass over a batch; returns how many items were scheduled again. */
    method ProcessRetryQueue(visits: seq<Visit>, now: int) returns (processed: nat)
      requires Good(State()) && Batch(queue, Visited(visits), now) && forall v :: v in visits ==> Unit(v.chance.random)
      modifies this
      ensures State() == HandleAll(old(State()), visits, now) && Good(State())
      ensures processed == Rescheduled(old(State()), visits, now)
      ensures AttemptsEach(old(State()), visits, now, State()) && processed == |Again(old(State()), visits)|
    {
      forall v | v in visits ensures Due(queue, v.id, now) {
        var i :| 0 <= i < |visits| && visits[i] == v;
        assert Visited(visits)[i] in Visited(visits);
      }
      HandleAllKeepsGood(State(), visits, now);
      PassAttemptsEach(State(), visits, now);
      processed := VisitAll(visits, now);
    }

    method VisitAll(visits: seq<Visit>, now: int) returns (processed: nat)
      modifies this
      ensures State() == HandleAll(old(State()), visits, now)
      ensures processed == Rescheduled(old(State()), visits, now)
    {
      processed := 0;
      var i := 0;
      while i < |visits|
        invariant 0 <= i <= |visits| && processed == Rescheduled(old(State()), visits[..i], now)
        invariant State() == HandleAll(old(State()), visits[..i], now)
      {
        assert visits[..i + 1][..i] == visits[..i];
        var rescheduled := HandleItem(visits[i].id, visits[i].chance, now);
        if rescheduled {
          processed := processed + 1;
        }
        i := i + 1;
      }
      assert visits[..i] == visits;
    }

    method HandleItem(id: ItemId, chance: Chance, now: int) returns (rescheduled: bool)
      modifies this
      ensures State() == Handle(old(State()), id, chance, now)
      ensures rescheduled <==> Reschedules(old(State()), Visit(id, chance))
    {
      if id !in queue || chance.circuitOpen || chance.updateFails {
        return false;
      }
      var item := queue[id];
      if item.retryCount >= DEFAULT_CONFIG.maxRetries {
        queue := queue[id := item.(retryCount := item.retryCount + 1, lastRetryAt := Some(now), nextRetryAt := None)];
        log := log[id := LogOf(log, id) + [GivenUp]];
        return false;
      }
      var next := NextRetryAt(DEFAULT_CONFIG, item.retryCount + 1, chance.random, now);
      queue := queue[id := item.(retryCount := item.retryCount + 1, lastRetryAt := Some(now), nextRetryAt := Some(next))];
      log := log[id := LogOf(log, id) + [Scheduled(next - now)]];
      rescheduled := true;
    }

    method MarkAsResolved(id: ItemId) returns (found: bool)
      modifies this
      ensures State() == Resolve(old(State()), id) && (found <==> id in queue)
    {
      found := id in queue;
      if found {
        queue := queue[id := queue[id].(resolved := true)];
      }
    }
  }
}
