/**
 The decision loop of a retention policy.  Dry runs, file failures and the check
 for a newer valid backup (always true in the code) are not part of this model.
 Days are 24 hours of milliseconds.
 */
module BackupRetention {
  import opened Wrappers
  import opened StableSort
  import opened Numbers

  const DAY_MS := 86400000

  datatype Backup = Backup(id: string, timestamp: int, size: int)

  datatype Policy = Policy(retentionPeriod: int, minRetainCount: int, maxRetainCount: int, archiveAfterDays: Option<int>, archiveStorageEnabled: bool)

  datatype Decision = Keep | Archive | Delete

  function Cutoff(p: Policy, now: int): int {
    now - p.retentionPeriod * DAY_MS
  }

  /** No archiving when it is off, or when the number of days is missing or zero. */
  function ArchiveCutoff(p: Policy, now: int): Option<int> {
    if p.archiveStorageEnabled && p.archiveAfterDays.Some? && p.archiveAfterDays.value != 0
    then Some(now - p.archiveAfterDays.value * DAY_MS)
    else None
  }

  /** One backup, when `kept` newer ones were kept or archived. */
  function Decide(b: Backup, kept: int, p: Policy, now: int): Decision {
    if kept < p.minRetainCount then Keep
    else if kept >= p.maxRetainCount then Delete
    else if ArchiveCutoff(p, now).Some? && b.timestamp < ArchiveCutoff(p, now).value then Archive
    else if b.timestamp < Cutoff(p, now) then Delete
    else Keep
  }

  function Count(ds: seq<Decision>, d: Decision): nat {
    if ds == [] then 0 else Count(ds[..|ds| - 1], d) + if ds[|ds| - 1] == d then 1 else 0
  }

  function Kept(ds: seq<Decision>): nat {
    Count(ds, Keep) + Count(ds, Archive)
  }

  function Decisions(bs: seq<Backup>, p: Policy, now: int): (ds: seq<Decision>)
    ensures |ds| == |bs|
  {
    if bs == [] then []
    else
      var front := Decisions(bs[..|bs| - 1], p, now);
      front + [Decide(bs[|bs| - 1], Kept(front), p, now)]
  }

  function Newest(): Backup -> real { (b: Backup) => -(b.timestamp as real) }

  ghost predicate NewestFirst(bs: seq<Backup>) {
    Sorted(bs, Newest())
  }

  lemma CountSnoc(ds: seq<Decision>, x: Decision, d: Decision)
    ensures Count(ds + [x], d) == Count(ds, d) + if x == d then 1 else 0
  {
    assert (ds + [x])[..|ds|] == ds;
  }

  // ----- by age

  /** More than that many days old: a day has 24 hours of 60 minutes of 60 seconds
      of 1000 milliseconds. */
  predicate OlderThan(b: Backup, days: int, now: int) {
    now - b.timestamp > days * 24 * 60 * 60 * 1000
  }

  /** Archiving is on, and the backup is old enough for it. */
  predicate Archivable(b: Backup, p: Policy, now: int) {
    p.archiveStorageEnabled && p.archiveAfterDays.Some? && p.archiveAfterDays.value != 0 && OlderThan(b, p.archiveAfterDays.value, now)
  }

  /** How many of the first i backups stay, in place or in the archive. */
  ghost function Staying(ds: seq<Decision>, i: nat): set<nat>
    requires i <= |ds|
  {
    set j: nat | j < i && ds[j] != Delete
  }

  lemma {:induction false} KeptIsStaying(ds: seq<Decision>, i: nat)
    requires i <= |ds|
    ensures Kept(ds[..i]) == |Staying(ds, i)|
  {
    if i == 0 {
      assert Staying(ds, 0) == {};
    } else {
      KeptIsStaying(ds, i - 1);
      assert ds[..i][..i - 1] == ds[..i - 1];
      assert Staying(ds, i) == if ds[i - 1] != Delete then Staying(ds, i - 1) + {i - 1} else Staying(ds, i - 1);
    }
  }

  lemma {:induction false} DecisionsPrefix(bs: seq<Backup>, p: Policy, now: int, i: nat)
    requires i <= |bs|
    ensures Decisions(bs, p, now)[..i] == Decisions(bs[..i], p, now)
  {
    if i < |bs| {
      var front := bs[..|bs| - 1];
      DecisionsPrefix(front, p, now, i);
      assert front[..i] == bs[..i];
      assert Decisions(bs, p, now)[..|front|] == Decisions(front, p, now);
      assert Decisions(bs, p, now)[..i] == Decisions(front, p, now)[..i];
    } else {
      assert bs[..i] == bs;
    }
  }

  /** For every policy and list: a backup is decided by the number of earlier ones
      that stay and by its age in days. */
  lemma DecidedByAge(bs: seq<Backup>, p: Policy, now: int, i: nat)
    requires i < |bs|
    ensures var (ds, b) := (Decisions(bs, p, now), bs[i]);
            var stay := |Staying(ds, i)|;
            && (ds[i] == Archive <==> p.minRetainCount <= stay < p.maxRetainCount && Archivable(b, p, now))
            && (ds[i] == Delete <==>
                  && p.minRetainCount <= stay
                  && (p.maxRetainCount <= stay || (!Archivable(b, p, now) && OlderThan(b, p.retentionPeriod, now))))
  {
    var ds := Decisions(bs, p, now);
    DecisionsPrefix(bs, p, now, i);
    DecisionsPrefix(bs, p, now, i + 1);
    KeptIsStaying(ds, i);
    assert bs[..i + 1][..i] == bs[..i];
    assert ds[i] == ds[..i + 1][i];
  }

  // ----- shape

  function Rank(d: Decision): int {
    match d case Keep => 0 case Archive => 1 case Delete => 2
  }

  /** keep* archive* delete* */
  ghost predicate InPhases(ds: seq<Decision>) {
    ds == [] ||
    var (front, last) := (ds[..|ds| - 1], ds[|ds| - 1]);
    InPhases(front) && forall d :: d in front ==> Rank(d) <= Rank(last)
  }

  lemma {:induction false} InPhasesMeans(ds: seq<Decision>, i: nat, j: nat)
    requires InPhases(ds) && i < j < |ds|
    ensures Rank(ds[i]) <= Rank(ds[j])
  {
    var front := ds[..|ds| - 1];
    assert ds[i] == front[i] && front[i] in front;
    if j < |front| {
      InPhasesMeans(front, i, j);
    }
  }

  /** Archiving is off, or an archivable backup is never past retention first, or
      the limits leave no room between the two. */
  predicate Coherent(p: Policy, now: int) {
    || ArchiveCutoff(p, now).None?
    || Cutoff(p, now) <= ArchiveCutoff(p, now).value
    || p.maxRetainCount <= p.minRetainCount
    || p.maxRetainCount <= 0
  }

  /** What a deletion or an archiving already made says about later backups. */
  lemma {:induction false} PhaseLasts(bs: seq<Backup>, p: Policy, now: int)
    requires NewestFirst(bs) && Coherent(p, now) && bs != []
    ensures var (ds, t) := (Decisions(bs, p, now), bs[|bs| - 1].timestamp);
            && (Delete in ds ==>
                  && Kept(ds) >= p.minRetainCount
                  && (Kept(ds) >= p.maxRetainCount || (ArchiveCutoff(p, now).None? && t < Cutoff(p, now))))
            && (Archive in ds ==>
                  && Kept(ds) >= p.minRetainCount
                  && ArchiveCutoff(p, now).Some? && t < ArchiveCutoff(p, now).value)
  {
    var front := bs[..|bs| - 1];
    var (fds, d) := (Decisions(front, p, now), Decide(bs[|bs| - 1], Kept(Decisions(front, p, now)), p, now));
    CountSnoc(fds, d, Keep);
    CountSnoc(fds, d, Archive);
    if front != [] {
      PhaseLasts(front, p, now);
      assert front[|front| - 1] in front;
      assert Newest()(front[|front| - 1]) <= Newest()(bs[|bs| - 1]);
    }
  }

  lemma InPhasesSnoc(ds: seq<Decision>, d: Decision)
    requires InPhases(ds)
    requires Delete in ds ==> d == Delete
    requires Archive in ds ==> d != Keep
    ensures InPhases(ds + [d])
  {
    assert (ds + [d])[..|ds|] == ds;
    forall x | x in ds ensures Rank(x) <= Rank(d) {
    }
  }

  lemma NewestFirstSnoc(bs: seq<Backup>, b: Backup)
    ensures NewestFirst(bs + [b]) <==> NewestFirst(bs) && forall x :: x in bs ==> b.timestamp <= x.timestamp
  {
    SortedSnoc(bs, b, Newest());
    assert forall x :: x in bs ==> (Newest()(x) <= Newest()(b) <==> b.timestamp <= x.timestamp);
  }

  lemma {:induction false} ShapeHolds(bs: seq<Backup>, p: Policy, now: int)
    requires NewestFirst(bs) && Coherent(p, now)
    ensures InPhases(Decisions(bs, p, now))
  {
    if bs != [] {
      var (front, b) := (bs[..|bs| - 1], bs[|bs| - 1]);
      assert bs == front + [b];
      NewestFirstSnoc(front, b);
      var fds := Decisions(front, p, now);
      ShapeHolds(front, p, now);
      if front != [] {
        PhaseLasts(front, p, now);
        assert front[|front| - 1] in front;
      }
      InPhasesSnoc(fds, Decide(b, Kept(fds), p, now));
    }
  }

  /** n backups all taken at one time. */
  function Copies(n: nat, t: int): seq<Backup> {
    if n == 0 then [] else Copies(n - 1, t) + [Backup("b", t, 0)]
  }

  lemma {:induction false} CopiesKept(n: nat, t: int, p: Policy, now: int)
    requires n <= Max(0, p.minRetainCount)
    ensures NewestFirst(Copies(n, t)) && Kept(Decisions(Copies(n, t), p, now)) == n == |Copies(n, t)|
    ensures forall b :: b in Copies(n, t) ==> b.timestamp == t
  {
    if n > 0 {
      var front := Copies(n - 1, t);
      CopiesKept(n - 1, t, p, now);
      assert Copies(n, t)[..n - 1] == front;
      NewestFirstSnoc(front, Backup("b", t, 0));
      CountSnoc(Decisions(front, p, now), Keep, Keep);
      CountSnoc(Decisions(front, p, now), Keep, Archive);
    }
  }

  lemma DecisionsSnoc(bs: seq<Backup>, b: Backup, p: Policy, now: int)
    ensures Decisions(bs + [b], p, now)
            == Decisions(bs, p, now) + [Decide(b, Kept(Decisions(bs, p, now)), p, now)]
  {
    assert (bs + [b])[..|bs|] == bs;
  }

  /** Under an incoherent policy, with the minimum kept, a backup as old as the
      archive cutoff is deleted and any older one archived. */
  lemma IncoherentDecides(p: Policy, now: int, kept: nat)
    requires !Coherent(p, now)
    requires kept == Max(0, p.minRetainCount)
    ensures var a := ArchiveCutoff(p, now).value;
            && Decide(Backup("m", a, 0), kept, p, now) == Delete
            && Decide(Backup("o", a - 1, 0), kept, p, now) == Archive
  {
  }

  lemma ArchivedAfterDeletion(bs: seq<Backup>, middle: Backup, older: Backup, p: Policy, now: int)
    requires var kept := Kept(Decisions(bs, p, now));
             Decide(middle, kept, p, now) == Delete && Decide(older, kept, p, now) == Archive
    ensures !InPhases(Decisions(bs + [middle] + [older], p, now))
  {
    var ds := Decisions(bs, p, now);
    DecisionsSnoc(bs, middle, p, now);
    CountSnoc(ds, Delete, Keep);
    CountSnoc(ds, Delete, Archive);
    DecisionsSnoc(bs + [middle], older, p, now);
    ArchiveAfterDelete(ds);
  }

  /** An incoherent policy deletes a backup and archives an older one. */
  lemma IncoherentBreaksShape(p: Policy, now: int) returns (bs: seq<Backup>)
    requires !Coherent(p, now)
    ensures NewestFirst(bs) && !InPhases(Decisions(bs, p, now))
  {
    var n: nat := Max(0, p.minRetainCount);
    var a := ArchiveCutoff(p, now).value;
    var (kept, middle, older) := (Copies(n, a), Backup("m", a, 0), Backup("o", a - 1, 0));
    CopiesKept(n, a, p, now);
    IncoherentDecides(p, now, n);
    ArchivedAfterDeletion(kept, middle, older, p, now);
    NewestFirstSnoc(kept, middle);
    NewestFirstSnoc(kept + [middle], older);
    bs := kept + [middle] + [older];
  }

  lemma ArchiveAfterDelete(ds: seq<Decision>)
    ensures !InPhases(ds + [Delete] + [Archive])
  {
    assert (ds + [Delete] + [Archive])[..|ds| + 1] == ds + [Delete];
    assert Delete in ds + [Delete];
  }

  /** Decisions come in the phases keep, archive, delete on every list exactly
      for coherent policies. */
  lemma ShapeIff(p: Policy, now: int)
    ensures (forall bs :: NewestFirst(bs) ==> InPhases(Decisions(bs, p, now))) <==> Coherent(p, now)
  {
    if Coherent(p, now) {
      forall bs | NewestFirst(bs) ensures InPhases(Decisions(bs, p, now)) {
        ShapeHolds(bs, p, now);
      }
    } else {
      var bs := IncoherentBreaksShape(p, now);
    }
  }

  // ----- counts

  lemma {:induction false} NewestUntouched(bs: seq<Backup>, p: Policy, now: int)
    ensures forall i :: 0 <= i < |bs| && i < p.minRetainCount ==> Decisions(bs, p, now)[i] == Keep
    ensures |bs| <= p.minRetainCount ==> Kept(Decisions(bs, p, now)) == |bs|
  {
    if bs != [] {
      var front := Decisions(bs[..|bs| - 1], p, now);
      NewestUntouched(bs[..|bs| - 1], p, now);
      CountSnoc(front, Keep, Keep);
      CountSnoc(front, Keep, Archive);
    }
  }

  lemma {:induction false} KeptBounded(bs: seq<Backup>, p: Policy, now: int)
    ensures Kept(Decisions(bs, p, now)) <= Max(0, Max(p.minRetainCount, p.maxRetainCount))
  {
    if bs != [] {
      var front := Decisions(bs[..|bs| - 1], p, now);
      KeptBounded(bs[..|bs| - 1], p, now);
      var d := Decide(bs[|bs| - 1], Kept(front), p, now);
      CountSnoc(front, d, Keep);
      CountSnoc(front, d, Archive);
    }
  }

  /** Kept plus archived stay within the maximum on every list exactly when the
      maximum is not below the minimum (nor below zero). */
  lemma MaximumRespectedIff(p: Policy, now: int)
    ensures (forall bs :: Kept(Decisions(bs, p, now)) <= p.maxRetainCount)
            <==> p.minRetainCount <= p.maxRetainCount && 0 <= p.maxRetainCount
  {
    if p.minRetainCount <= p.maxRetainCount && 0 <= p.maxRetainCount {
      forall bs ensures Kept(Decisions(bs, p, now)) <= p.maxRetainCount {
        KeptBounded(bs, p, now);
      }
    } else if p.maxRetainCount < 0 {
      assert Kept(Decisions([], p, now)) == 0;
    } else {
      CopiesKept(p.minRetainCount, 0, p, now);
    }
  }

  /** For a coherent policy, newest first, no count of earlier decisions is needed:
      the place in the list and the age in days decide. */
  lemma CoherentByAge(bs: seq<Backup>, p: Policy, now: int, i: nat)
    requires NewestFirst(bs) && Coherent(p, now) && i < |bs|
    ensures var (d, b) := (Decisions(bs, p, now)[i], bs[i]);
            && (d == Keep <==>
                  i < p.minRetainCount
                  || (i < p.maxRetainCount && !Archivable(b, p, now) && !OlderThan(b, p.retentionPeriod, now)))
            && (d == Archive <==> p.minRetainCount <= i < p.maxRetainCount && Archivable(b, p, now))
  {
    var ds := Decisions(bs, p, now);
    DecidedByAge(bs, p, now, i);
    if j: nat :| j < i && ds[j] == Delete {
      ShapeHolds(bs, p, now);
      InPhasesMeans(ds, j, i);
      DeletedByAge(bs, p, now, j, i);
    } else {
      AllStay(ds, i);
    }
  }

  lemma AllStay(ds: seq<Decision>, i: nat)
    requires i <= |ds| && forall j: nat :: j < i ==> ds[j] != Delete
    ensures |Staying(ds, i)| == i
  {
    if i == 0 {
      assert Staying(ds, 0) == {};
    } else {
      AllStay(ds, i - 1);
      assert Staying(ds, i) == Staying(ds, i - 1) + {i - 1};
    }
  }

  lemma StayingAtMost(ds: seq<Decision>, i: nat)
    requires i <= |ds|
    ensures |Staying(ds, i)| <= i
  {
    if i == 0 {
      assert Staying(ds, 0) == {};
    } else {
      StayingAtMost(ds, i - 1);
      assert Staying(ds, i) == if ds[i - 1] != Delete then Staying(ds, i - 1) + {i - 1} else Staying(ds, i - 1);
    }
  }

  /** After a deletion, place and age say delete for every older backup. */
  lemma DeletedByAge(bs: seq<Backup>, p: Policy, now: int, j: nat, i: nat)
    requires NewestFirst(bs) && Coherent(p, now) && j < i < |bs| && Decisions(bs, p, now)[j] == Delete
    ensures p.minRetainCount <= i
    ensures p.maxRetainCount <= i || (!Archivable(bs[i], p, now) && OlderThan(bs[i], p.retentionPeriod, now))
  {
    DecidedByAge(bs, p, now, j);
    StayingAtMost(Decisions(bs, p, now), j);
    SortedMeans(bs, Newest());
    assert Newest()(bs[j]) <= Newest()(bs[i]);
  }

  // ----- the loop

  function Chosen(bs: seq<Backup>, ds: seq<Decision>, d: Decision): seq<Backup>
    requires |bs| == |ds|
  {
    if bs == [] then []
    else Chosen(bs[..|bs| - 1], ds[..|ds| - 1], d) + if ds[|ds| - 1] == d then [bs[|bs| - 1]] else []
  }

  function Size(bs: seq<Backup>): int {
    if bs == [] then 0 else Size(bs[..|bs| - 1]) + bs[|bs| - 1].size
  }

  lemma SizeSnoc(bs: seq<Backup>, b: Backup)
    ensures Size(bs + [b]) == Size(bs) + b.size
  {
    assert (bs + [b])[..|bs|] == bs;
  }

  lemma {:induction false} SizeOfInsert(bs: seq<Backup>, b: Backup)
    ensures Size(Insert(bs, b, Newest())) == Size(bs) + b.size
  {
    if bs == [] || Newest()(bs[|bs| - 1]) <= Newest()(b) {
      SizeSnoc(bs, b);
    } else {
      SizeOfInsert(bs[..|bs| - 1], b);
      SizeSnoc(Insert(bs[..|bs| - 1], b, Newest()), bs[|bs| - 1]);
    }
  }

  lemma {:induction false} SizeOfSorted(bs: seq<Backup>)
    ensures Size(SortBy(bs, Newest())) == Size(bs)
  {
    if bs != [] {
      SizeOfSorted(bs[..|bs| - 1]);
      SizeOfInsert(SortBy(bs[..|bs| - 1], Newest()), bs[|bs| - 1]);
    }
  }

  lemma ChosenSnoc(bs: seq<Backup>, b: Backup, ds: seq<Decision>, d: Decision, e: Decision)
    requires |bs| == |ds|
    ensures Chosen(bs + [b], ds + [d], e) == Chosen(bs, ds, e) + if d == e then [b] else []
  {
    assert (bs + [b])[..|bs|] == bs && (ds + [d])[..|ds|] == ds;
  }

  lemma Regroup(k: multiset<Backup>, a: multiset<Backup>, d: multiset<Backup>, m: multiset<Backup>)
    ensures (k + m) + a + d == k + a + d + m
    ensures k + (a + m) + d == k + a + d + m
    ensures k + a + (d + m) == k + a + d + m
  {
  }

  ghost function Placed(bs: seq<Backup>, ds: seq<Decision>): multiset<Backup>
    requires |bs| == |ds|
  {
    multiset(Chosen(bs, ds, Keep)) + multiset(Chosen(bs, ds, Archive)) + multiset(Chosen(bs, ds, Delete))
  }

  /** Every backup ends up in exactly one place. */
  lemma {:induction false} NothingLost(bs: seq<Backup>, ds: seq<Decision>)
    requires |bs| == |ds|
    ensures Placed(bs, ds) == multiset(bs)
  {
    if bs != [] {
      var (fb, b, fd, d) := (bs[..|bs| - 1], bs[|bs| - 1], ds[..|ds| - 1], ds[|ds| - 1]);
      assert bs == fb + [b] && ds == fd + [d];
      NothingLost(fb, fd);
      PlacedSnoc(fb, b, fd, d);
    }
  }

  lemma PlacedSnoc(bs: seq<Backup>, b: Backup, ds: seq<Decision>, d: Decision)
    requires |bs| == |ds|
    ensures Placed(bs + [b], ds + [d]) == Placed(bs, ds) + multiset{b}
  {
    ChosenSnoc(bs, b, ds, d, Keep);
    ChosenSnoc(bs, b, ds, d, Archive);
    ChosenSnoc(bs, b, ds, d, Delete);
    Regroup(multiset(Chosen(bs, ds, Keep)), multiset(Chosen(bs, ds, Archive)), multiset(Chosen(bs, ds, Delete)), multiset{b});
  }

  /** The loop's variables. */
  datatype Progress = Progress(kept: seq<Backup>, archived: seq<Backup>, deleted: seq<Backup>, keptCount: int, result: Report)

  datatype Report = Report(processed: nat, deleted: nat, archived: nat, spaceSaved: int)

  const START := Progress([], [], [], 0, Report(0, 0, 0, 0))

  function Advance(x: Progress, b: Backup, p: Policy, now: int): Progress {
    var r := x.result;
    match Decide(b, x.keptCount, p, now)
    case Keep => x.(kept := x.kept + [b], keptCount := x.keptCount + 1)
    case Archive =>
      x.(archived := x.archived + [b], keptCount := x.keptCount + 1,
         result := r.(archived := r.archived + 1, spaceSaved := r.spaceSaved + b.size))
    case Delete =>
      x.(deleted := x.deleted + [b], result := r.(deleted := r.deleted + 1, spaceSaved := r.spaceSaved + b.size))
  }

  function Process(bs: seq<Backup>, p: Policy, now: int): Progress {
    if bs == [] then START else Advance(Process(bs[..|bs| - 1], p, now), bs[|bs| - 1], p, now)
  }

  ghost predicate Sifted(bs: seq<Backup>, ds: seq<Decision>, x: Progress)
    requires |bs| == |ds|
  {
    && x.kept == Chosen(bs, ds, Keep)
    && x.archived == Chosen(bs, ds, Archive)
    && x.deleted == Chosen(bs, ds, Delete)
    && x.keptCount == Kept(ds)
  }

  /** The counters count what was decided, and the space saved is the size of
      what is no longer in place. */
  ghost predicate Counted(bs: seq<Backup>, ds: seq<Decision>, x: Progress) {
    && x.result.deleted == Count(ds, Delete) == |x.deleted|
    && x.result.archived == Count(ds, Archive) == |x.archived|
    && x.result.spaceSaved == Size(x.archived) + Size(x.deleted) == Size(bs) - Size(x.kept)
  }

  lemma AdvanceAccounts(bs: seq<Backup>, ds: seq<Decision>, x: Progress, b: Backup, p: Policy, now: int)
    requires |bs| == |ds| && Sifted(bs, ds, x) && Counted(bs, ds, x)
    ensures var (d, y) := (Decide(b, Kept(ds), p, now), Advance(x, b, p, now));
            Sifted(bs + [b], ds + [d], y) && Counted(bs + [b], ds + [d], y)
  {
    var d := Decide(b, Kept(ds), p, now);
    ChosenSnoc(bs, b, ds, d, Keep);
    ChosenSnoc(bs, b, ds, d, Archive);
    ChosenSnoc(bs, b, ds, d, Delete);
    CountSnoc(ds, d, Keep);
    CountSnoc(ds, d, Archive);
    CountSnoc(ds, d, Delete);
    SizeSnoc(bs, b);
    match d
    case Keep => SizeSnoc(x.kept, b);
    case Archive => SizeSnoc(x.archived, b);
    case Delete => SizeSnoc(x.deleted, b);
  }

  lemma {:induction false} ProcessAccounts(bs: seq<Backup>, p: Policy, now: int)
    ensures Sifted(bs, Decisions(bs, p, now), Process(bs, p, now))
    ensures Counted(bs, Decisions(bs, p, now), Process(bs, p, now))
  {
    if bs != [] {
      var front := bs[..|bs| - 1];
      assert bs == front + [bs[|bs| - 1]];
      ProcessAccounts(front, p, now);
      AdvanceAccounts(front, Decisions(front, p, now), Process(front, p, now), bs[|bs| - 1], p, now);
    }
  }

  method DecideAll(backups: seq<Backup>, p: Policy, now: int) returns (x: Progress)
    ensures Sifted(backups, Decisions(backups, p, now), x)
    ensures Counted(backups, Decisions(backups, p, now), x)
  {
    x := START;
    var i := 0;
    while i < |backups|
      invariant 0 <= i <= |backups|
      invariant x == Process(backups[..i], p, now)
    {
      assert backups[..i + 1][..i] == backups[..i];
      x := Advance(x, backups[i], p, now);
      i := i + 1;
    }
    assert backups[..i] == backups;
    ProcessAccounts(backups, p, now);
  }

  class BackupStore {
    /** Backups still in place, and those moved to the archive. */
    var live: seq<Backup>
    var archive: seq<Backup>

    method ApplyRetentionPolicy(p: Policy, now: int) returns (report: Report)
      modifies this
      ensures var sorted := SortBy(old(live), Newest());
              var ds := Decisions(sorted, p, now);
              && NewestFirst(sorted) && multiset(sorted) == multiset(old(live)) == Placed(sorted, ds)
              && live == Chosen(sorted, ds, Keep)
              && archive == old(archive) + Chosen(sorted, ds, Archive)
              && report == Report(|sorted|, Count(ds, Delete), Count(ds, Archive), Size(old(live)) - Size(live))
    {
      var backups := SortBy(live, Newest());
      SortByMeans(live, Newest());
      SizeOfSorted(live);
      var x := DecideAll(backups, p, now);
      NothingLost(backups, Decisions(backups, p, now));
      live, archive := x.kept, archive + x.archived;
      report := x.result.(processed := |backups|);
    }
  }
}
