/**
 Slugs: their normal form, and how a restaurant gets one of its own.  Lower-casing
 is a given function; the lemmas say what is assumed of it, if anything.
 */
module Slugs {
  import opened Sequences

  predicate AlphaNum(c: char)
    ensures AlphaNum(c) <==> 48 <= c as int <= 57 || 97 <= c as int <= 122
  {
    'a' <= c <= 'z' || '0' <= c <= '9'
  }

  // ----- the chain of replacements

  /** Each run of other characters becomes one dash. */
  function DashRuns(s: string): string {
    if s == "" then ""
    else
      var (front, c) := (s[..|s| - 1], s[|s| - 1]);
      if AlphaNum(c) then DashRuns(front) + [c]
      else if front != "" && !AlphaNum(front[|front| - 1]) then DashRuns(front)
      else DashRuns(front) + "-"
  }

  /** Each run of dashes becomes one dash. */
  function Collapse(s: string): string {
    if s == "" then ""
    else
      var (front, c) := (s[..|s| - 1], s[|s| - 1]);
      if c == '-' && front != "" && front[|front| - 1] == '-' then Collapse(front) else Collapse(front) + [c]
  }

  /** One dash is taken off either end. */
  function Trim(s: string): string {
    var t := if s != "" && s[0] == '-' then s[1..] else s;
    if t != "" && t[|t| - 1] == '-' then t[..|t| - 1] else t
  }

  function Slugify(input: string, lower: string -> string): string {
    Trim(Collapse(DashRuns(lower(input))))
  }

  // ----- the normal form

  predicate DoubleDash(s: string, i: int)
    requires 0 < i < |s|
  {
    s[i - 1] == '-' && s[i] == '-'
  }

  ghost predicate SingleDashes(s: string) {
    forall i :: 0 < i < |s| ==> !DoubleDash(s, i)
  }

  lemma SingleDashesSnoc(s: string, c: char)
    ensures SingleDashes(s + [c]) <==> SingleDashes(s) && !(s != "" && s[|s| - 1] == '-' && c == '-')
  {
    var t := s + [c];
    forall i | 0 < i < |s| ensures DoubleDash(t, i) <==> DoubleDash(s, i) {
    }
    if s != "" {
      assert DoubleDash(t, |s|) <==> s[|s| - 1] == '-' && c == '-';
    }
  }

  /** Letters, digits and single inner dashes only. */
  ghost predicate Normal(s: string) {
    && (forall c :: c in s ==> AlphaNum(c) || c == '-')
    && SingleDashes(s)
    && (s != "" ==> s[0] != '-' && s[|s| - 1] != '-')
  }

  /** The words of a text: its maximal runs of letters and digits. */
  function Words(s: string): seq<string> {
    if s == "" then []
    else
      var (front, c) := (s[..|s| - 1], s[|s| - 1]);
      var ws := Words(front);
      if !AlphaNum(c) then ws
      else if front != "" && AlphaNum(front[|front| - 1]) && ws != [] then ws[..|ws| - 1] + [ws[|ws| - 1] + [c]]
      else ws + [[c]]
  }

  function Join(ws: seq<string>): string
    decreases |ws|, 0
  {
    if ws == [] then "" else Before(ws[..|ws| - 1]) + ws[|ws| - 1]
  }

  /** What stands before the next word. */
  function Before(ws: seq<string>): string
    decreases |ws|, 1
  {
    if ws == [] then "" else Join(ws) + "-"
  }

  predicate IsWord(w: string) {
    w != "" && forall c :: c in w ==> AlphaNum(c)
  }

  predicate AllWords(ws: seq<string>) {
    forall w :: w in ws ==> IsWord(w)
  }

  lemma AllWordsSnoc(ws: seq<string>, w: string)
    ensures AllWords(ws + [w]) <==> AllWords(ws) && IsWord(w)
  {
    if AllWords(ws + [w]) {
      assert w in ws + [w];
      assert forall v :: v in ws ==> v in ws + [w];
    }
  }

  lemma LongerWord(w: string, c: char)
    requires IsWord(w) && AlphaNum(c)
    ensures IsWord(w + [c])
  {
  }

  /** A text has no words exactly when it has no letters or digits. */
  lemma {:induction false} WordsEmptyIff(s: string)
    ensures Words(s) == [] <==> forall c :: c in s ==> !AlphaNum(c)
  {
    if s != "" {
      var (front, c) := (s[..|s| - 1], s[|s| - 1]);
      assert s == front + [c];
      WordsEmptyIff(front);
    }
  }

  lemma {:induction false} WordsAreWords(s: string)
    ensures AllWords(Words(s))
  {
    if s != "" {
      var (front, c) := (s[..|s| - 1], s[|s| - 1]);
      var ws := Words(front);
      WordsAreWords(front);
      if AlphaNum(c) && front != "" && AlphaNum(front[|front| - 1]) && ws != [] {
        var (init, last) := (ws[..|ws| - 1], ws[|ws| - 1]);
        assert ws == init + [last];
        AllWordsSnoc(init, last);
        LongerWord(last, c);
        AllWordsSnoc(init, last + [c]);
      } else if AlphaNum(c) {
        AllWordsSnoc(ws, [c]);
      }
    }
  }

  lemma WordsNonempty(s: string)
    ensures AllWords(Words(s))
    ensures s != "" && AlphaNum(s[|s| - 1]) ==> Words(s) != []
    ensures Words(s) == [] <==> forall c :: c in s ==> !AlphaNum(c)
  {
    WordsAreWords(s);
    WordsEmptyIff(s);
  }

  lemma JoinSnoc(ws: seq<string>, w: string)
    ensures Join(ws + [w]) == Before(ws) + w
  {
    assert (ws + [w])[..|ws|] == ws;
  }

  lemma JoinExtend(ws: seq<string>, c: char)
    requires ws != []
    ensures Join(ws[..|ws| - 1] + [ws[|ws| - 1] + [c]]) == Join(ws) + [c]
  {
    var (front, w) := (ws[..|ws| - 1], ws[|ws| - 1]);
    JoinSnoc(front, w + [c]);
    ConcatAssociative(Before(front), w, [c]);
  }

  function Lead(s: string): string {
    if s != "" && AlphaNum(s[0]) then "" else "-"
  }

  function Trail(s: string): string {
    if s != "" && AlphaNum(s[|s| - 1]) then "" else "-"
  }

  /** A dash in front, the joined words, a dash behind. */
  function Framed(s: string): string {
    if Words(s) != [] then Lead(s) + Join(Words(s)) + Trail(s)
    else if s == "" then ""
    else "-"
  }

  lemma WordsSnoc(front: string, c: char)
    ensures var ws := Words(front);
            Words(front + [c]) == if !AlphaNum(c) then ws
                                  else if front != "" && AlphaNum(front[|front| - 1]) && ws != []
                                  then ws[..|ws| - 1] + [ws[|ws| - 1] + [c]]
                                  else ws + [[c]]
  {
    assert (front + [c])[..|front|] == front;
  }

  lemma GlueLetter(lead: string, joined: string, c: char)
    ensures lead + (joined + [c]) + "" == lead + joined + "" + [c]
  {
  }

  lemma GlueWord(lead: string, joined: string, c: char)
    ensures lead + (joined + "-" + [c]) + "" == lead + joined + "-" + [c]
  {
  }

  lemma FramedSnocLetter(front: string, c: char)
    requires AlphaNum(c)
    ensures Framed(front + [c]) == Framed(front) + [c]
  {
    WordsNonempty(front);
    if Words(front) == [] {
      FramedFirstLetter(front, c);
    } else if AlphaNum(front[|front| - 1]) {
      WordsSnoc(front, c);
      JoinExtend(Words(front), c);
      GlueLetter(Lead(front), Join(Words(front)), c);
    } else {
      WordsSnoc(front, c);
      JoinSnoc(Words(front), [c]);
      GlueWord(Lead(front), Join(Words(front)), c);
    }
  }

  lemma FramedFirstLetter(front: string, c: char)
    requires AlphaNum(c) && Words(front) == []
    ensures Framed(front + [c]) == Framed(front) + [c]
  {
    WordsNonempty(front);
    WordsSnoc(front, c);
    assert [] + [[c]] == [[c]];
    assert Join([[c]]) == "" + [c] == [c];
    if front != "" {
      assert front[0] in front;
    }
    assert Framed(front + [c]) == (if front == "" then "" else "-") + [c] + "";
  }

  lemma FramedSnocOther(front: string, c: char)
    requires !AlphaNum(c)
    ensures Framed(front + [c])
            == if front != "" && !AlphaNum(front[|front| - 1]) then Framed(front) else Framed(front) + "-"
  {
    WordsNonempty(front);
    WordsSnoc(front, c);
    if front != "" {
      assert front[|front| - 1] in front;
    }
  }

  lemma {:induction false} DashRunsFrames(s: string)
    ensures DashRuns(s) == Framed(s)
  {
    if s != "" {
      var (front, c) := (s[..|s| - 1], s[|s| - 1]);
      assert s == front + [c];
      DashRunsFrames(front);
      if AlphaNum(c) {
        FramedSnocLetter(front, c);
      } else {
        FramedSnocOther(front, c);
      }
    }
  }

  lemma NormalSnocWord(s: string, w: string)
    requires Normal(s) && IsWord(w)
    ensures Normal(if s == "" then w else s + "-" + w)
  {
    assert !AlphaNum('-');
    var t := if s == "" then w else s + "-" + w;
    assert w[0] in w && w[|w| - 1] in w;
    forall i | 0 < i < |t| ensures !DoubleDash(t, i) {
      var o := |t| - |w|;
      if i >= o {
        assert t[i] == w[i - o] && w[i - o] in w;
      } else if i < |s| {
        assert !DoubleDash(s, i);
      }
    }
    forall c | c in t ensures AlphaNum(c) || c == '-' {
      assert c in s || c == '-' || c in w;
    }
  }

  lemma {:induction false} JoinIsNormal(ws: seq<string>)
    requires AllWords(ws)
    ensures Normal(Join(ws)) && (Join(ws) == "" <==> ws == [])
  {
    if ws != [] {
      var (front, w) := (ws[..|ws| - 1], ws[|ws| - 1]);
      assert ws == front + [w];
      AllWordsSnoc(front, w);
      JoinIsNormal(front);
      NormalSnocWord(Join(front), w);
      assert "" + w == w;
    }
  }

  lemma {:induction false} CollapseSingle(s: string)
    requires SingleDashes(s)
    ensures Collapse(s) == s
  {
    if s != "" {
      var front := s[..|s| - 1];
      assert s == front + [s[|s| - 1]];
      SingleDashesSnoc(front, s[|s| - 1]);
      CollapseSingle(front);
    }
  }

  lemma TrimFramed(lead: string, s: string, trail: string)
    requires Normal(s) && s != "" && lead in {"", "-"} && trail in {"", "-"}
    ensures SingleDashes(lead + s + trail) && Trim(lead + s + trail) == s
  {
    var t := lead + s + trail;
    forall i | 0 < i < |t| ensures !DoubleDash(t, i) {
      if |lead| <= i - 1 && i < |lead| + |s| {
        assert !DoubleDash(s, i - |lead|);
      }
    }
    var u := if t[0] == '-' then t[1..] else t;
    assert u == s + trail;
  }

  /** What slugify means: the words of the lower-cased name joined by dashes. */
  lemma SlugifyJoinsWords(input: string, lower: string -> string)
    ensures Slugify(input, lower) == Join(Words(lower(input)))
    ensures Normal(Slugify(input, lower))
    ensures Slugify(input, lower) == "" <==> forall c :: c in lower(input) ==> !AlphaNum(c)
  {
    var s := lower(input);
    DashRunsFrames(s);
    WordsNonempty(s);
    JoinIsNormal(Words(s));
    if Words(s) == [] {
      CollapseSingle(DashRuns(s));
    } else {
      TrimFramed(Lead(s), Join(Words(s)), Trail(s));
      CollapseSingle(DashRuns(s));
    }
  }

  lemma {:induction false} DashRunsOfNormal(s: string)
    requires (forall c :: c in s ==> AlphaNum(c) || c == '-') && SingleDashes(s)
    ensures DashRuns(s) == s
  {
    if s != "" {
      var (front, c) := (s[..|s| - 1], s[|s| - 1]);
      assert s == front + [c];
      SingleDashesSnoc(front, c);
      DashRunsOfNormal(front);
      if front != "" {
        assert s[|s| - 2] == front[|front| - 1] && front[|front| - 1] in s;
      }
    }
  }

  /** A text is its own slug exactly when it is in normal form, provided
      lower-casing leaves texts in normal form alone... */
  lemma FixedIffNormal(s: string, lower: string -> string)
    requires forall t :: Normal(t) ==> lower(t) == t
    ensures Slugify(s, lower) == s <==> Normal(s)
  {
    SlugifyJoinsWords(s, lower);
    if Normal(s) {
      DashRunsOfNormal(s);
      CollapseSingle(s);
    }
  }

  /** ...so slugify is idempotent. */
  lemma SlugifyIdempotent(input: string, lower: string -> string)
    requires forall t :: Normal(t) ==> lower(t) == t
    ensures Slugify(Slugify(input, lower), lower) == Slugify(input, lower)
  {
    SlugifyJoinsWords(input, lower);
    FixedIffNormal(Slugify(input, lower), lower);
  }

  // ----- a slug of one's own

  function Digit(n: nat): char
    requires n < 10
  {
    "0123456789"[n]
  }

  function Decimal(n: nat): string {
    if n < 10 then [Digit(n)] else Decimal(n / 10) + [Digit(n % 10)]
  }

  /** All digits but the last. */
  function Leading(n: nat): string {
    if n < 10 then "" else Decimal(n / 10)
  }

  lemma {:induction false} DecimalInjective(m: nat, n: nat)
    requires Decimal(m) == Decimal(n)
    ensures m == n
  {
    assert Decimal(m) == Leading(m) + [Digit(m % 10)];
    assert Decimal(n) == Leading(n) + [Digit(n % 10)];
    LastEqual(Leading(m), Digit(m % 10), Leading(n), Digit(n % 10));
    DecimalNonempty(m / 10);
    DecimalNonempty(n / 10);
    DigitInjective(m % 10, n % 10);
    if m >= 10 {
      DecimalInjective(m / 10, n / 10);
    }
  }

  lemma DigitInjective(m: nat, n: nat)
    requires m < 10 && n < 10 && Digit(m) == Digit(n)
    ensures m == n
  {
  }

  lemma {:induction false} DecimalNonempty(n: nat)
    ensures Decimal(n) != "" && forall c :: c in Decimal(n) ==> AlphaNum(c)
  {
    if n >= 10 {
      DecimalNonempty(n / 10);
    }
  }

  /** The texts tried in turn: the base, then the base with -1, -2, ... */
  function Candidate(base: string, i: nat): string {
    if i == 0 then base else base + "-" + Decimal(i)
  }

  lemma CandidatesDiffer(base: string, i: nat, j: nat)
    requires i < j
    ensures Candidate(base, i) != Candidate(base, j)
  {
    DecimalNonempty(j);
    if i > 0 && Candidate(base, i) == Candidate(base, j) {
      var n := |base| + 1;
      assert Decimal(i) == Candidate(base, i)[n..] == Candidate(base, j)[n..] == Decimal(j);
      DecimalInjective(i, j);
    }
  }

  ghost function Tried(base: string, n: nat): (s: set<string>)
  {
    if n == 0 then {} else Tried(base, n - 1) + {Candidate(base, n - 1)}
  }

  lemma {:induction false} TriedIndex(base: string, n: nat, s: string) returns (i: nat)
    requires s in Tried(base, n)
    ensures i < n && s == Candidate(base, i)
  {
    if s == Candidate(base, n - 1) {
      i := n - 1;
    } else {
      i := TriedIndex(base, n - 1, s);
    }
  }

  lemma {:induction false} TriedCount(base: string, n: nat)
    ensures |Tried(base, n)| == n
  {
    if n > 0 {
      TriedCount(base, n - 1);
      if Candidate(base, n - 1) in Tried(base, n - 1) {
        var i := TriedIndex(base, n - 1, Candidate(base, n - 1));
        CandidatesDiffer(base, i, n - 1);
      }
    }
  }

  /** Pigeonhole: n different candidates cannot all be among fewer texts. */
  lemma TakenBound(base: string, n: nat, taken: set<string>)
    requires forall i: nat :: i < n ==> Candidate(base, i) in taken
    ensures n <= |taken|
  {
    TriedCount(base, n);
    forall s | s in Tried(base, n) ensures s in taken {
      var i := TriedIndex(base, n, s);
    }
    SubsetSize(Tried(base, n), taken);
  }

  lemma SubsetSize<T>(a: set<T>, b: set<T>)
    requires a <= b
    ensures |a| <= |b|
  {
    assert b == a + (b - a);
  }

  /** The first candidate that is free. */
  ghost predicate FirstFree(base: string, taken: set<string>, i: nat) {
    Candidate(base, i) !in taken && forall j: nat :: j < i ==> Candidate(base, j) in taken
  }

  function FreeFrom(base: string, taken: set<string>, i: nat): (r: nat)
    requires forall j: nat :: j < i ==> Candidate(base, j) in taken
    ensures FirstFree(base, taken, r) && r <= |taken|
    decreases |taken| + 1 - i
  {
    TakenBound(base, i, taken);
    if Candidate(base, i) in taken then
      TakenBound(base, i + 1, taken);
      FreeFrom(base, taken, i + 1)
    else i
  }

  function UniqueSlug(base: string, taken: set<string>): string {
    Candidate(base, FreeFrom(base, taken, 0))
  }

  /** A suffixed slug is in normal form except when the name had no letter or
      digit at all, which makes the base empty and the slug start with a dash. */
  lemma UniqueSlugNormalIff(base: string, taken: set<string>)
    requires Normal(base)
    ensures Normal(UniqueSlug(base, taken)) <==> base != "" || base !in taken
  {
    var i := FreeFrom(base, taken, 0);
    if i > 0 {
      assert Candidate(base, 0) in taken;
      DecimalNonempty(i);
      if base != "" {
        NormalSnocWord(base, Decimal(i));
      } else {
        assert Candidate(base, i)[0] == '-';
      }
    } else {
      assert Candidate(base, 0) == base;
    }
  }

  // ----- the repository

  type Id = string

  datatype Restaurant = Restaurant(id: Id, name: string, slug: string)

  datatype Catalog = Catalog(byId: map<Id, Restaurant>, idBySlug: map<string, Id>)

  function Store(c: Catalog, r: Restaurant): Catalog {
    Catalog(c.byId[r.id := r], c.idBySlug[r.slug := r.id])
  }

  /** The new restaurant: its slug is the first free one for its name. */
  function Built(c: Catalog, id: Id, name: string, lower: string -> string): (r: Restaurant)
    ensures r.id == id && r.slug !in c.idBySlug
  {
    Restaurant(id, name, UniqueSlug(Slugify(name, lower), c.idBySlug.Keys))
  }

  datatype Lookup = NotFound | Found(restaurant: Restaurant)

  /** An empty id counts as missing. */
  function GetBySlug(c: Catalog, slug: string): Lookup {
    if slug !in c.idBySlug || c.idBySlug[slug] == "" || c.idBySlug[slug] !in c.byId then NotFound
    else Found(c.byId[c.idBySlug[slug]])
  }

  datatype Request = Request(id: Id, name: string)

  function After(run: seq<Request>, lower: string -> string): Catalog
    decreases |run|, 0
  {
    if run == [] then Catalog(map[], map[])
    else Store(After(run[..|run| - 1], lower), Created(run, lower, |run| - 1))
  }

  /** The i-th restaurant created. */
  function Created(run: seq<Request>, lower: string -> string, i: nat): Restaurant
    requires i < |run|
    decreases i, 1
  {
    Built(After(run[..i], lower), run[i].id, run[i].name, lower)
  }

  /** Generated ids are fresh and never empty. */
  ghost predicate FreshIds(run: seq<Request>, lower: string -> string) {
    run == [] ||
    var (front, id) := (run[..|run| - 1], run[|run| - 1].id);
    FreshIds(front, lower) && id != "" && id !in After(front, lower).byId
  }

  /** The two maps are each other's inverse. */
  ghost predicate Inverse(c: Catalog) {
    && (forall id :: id in c.byId ==>
          var r := c.byId[id]; id != "" && r.id == id && r.slug in c.idBySlug && c.idBySlug[r.slug] == id)
    && (forall slug :: slug in c.idBySlug ==> c.idBySlug[slug] in c.byId && c.byId[c.idBySlug[slug]].slug == slug)
  }

  lemma StoreKeepsInverse(c: Catalog, r: Restaurant)
    requires Inverse(c) && r.id != "" && r.id !in c.byId && r.slug !in c.idBySlug
    ensures Inverse(Store(c, r)) && GetBySlug(Store(c, r), r.slug) == Found(r)
    ensures forall slug :: slug in c.idBySlug ==> GetBySlug(Store(c, r), slug) == GetBySlug(c, slug)
  {
  }

  lemma {:induction false} InverseAlways(run: seq<Request>, lower: string -> string)
    requires FreshIds(run, lower)
    ensures Inverse(After(run, lower))
  {
    if run != [] {
      InverseAlways(run[..|run| - 1], lower);
      StoreKeepsInverse(After(run[..|run| - 1], lower), Created(run, lower, |run| - 1));
    }
  }

  lemma StillFound(c: Catalog, r: Restaurant, slug: string)
    requires Inverse(c) && r.id != "" && r.id !in c.byId && r.slug !in c.idBySlug
    requires slug == r.slug || GetBySlug(c, slug).Found?
    ensures GetBySlug(Store(c, r), slug) == if slug == r.slug then Found(r) else GetBySlug(c, slug)
  {
    StoreKeepsInverse(c, r);
  }

  /** Every restaurant ever created is the one found under its slug, so no two
      share one. */
  lemma {:induction false} EveryRestaurantFound(run: seq<Request>, lower: string -> string, i: nat)
    requires FreshIds(run, lower) && i < |run|
    ensures GetBySlug(After(run, lower), Created(run, lower, i).slug) == Found(Created(run, lower, i))
  {
    var front := run[..|run| - 1];
    var (c, last) := (After(front, lower), Created(run, lower, |front|));
    InverseAlways(front, lower);
    assert After(run, lower) == Store(c, last) && last.id !in c.byId && last.slug !in c.idBySlug && last.id != "";
    if i < |front| {
      EarlierCreated(run, lower, i);
      EveryRestaurantFound(front, lower, i);
    }
    StillFound(c, last, Created(run, lower, i).slug);
  }

  lemma EarlierCreated(run: seq<Request>, lower: string -> string, i: nat)
    requires i < |run| - 1
    ensures Created(run[..|run| - 1], lower, i) == Created(run, lower, i)
  {
    assert run[..|run| - 1][..i] == run[..i];
  }

  /** The second restaurant whose name has no letter or digit gets a slug that is
      not in normal form. */
  lemma TwoNamelessRestaurants(first: Request, second: Request, lower: string -> string)
    requires first.id != "" && second.id != "" && first.id != second.id
    requires forall c :: c in lower(first.name) || c in lower(second.name) ==> !AlphaNum(c)
    ensures var run := [first, second];
            && FreshIds(run, lower)
            && Created(run, lower, 0).slug == ""
            && !Normal(Created(run, lower, 1).slug)
  {
    var run := [first, second];
    assert run[..1] == [first] && [first][..0] == [] && run[..0] == [];
    SlugifyJoinsWords(first.name, lower);
    SlugifyJoinsWords(second.name, lower);
    var none: map<string, Id> := map[];
    assert FirstFree("", none.Keys, FreeFrom("", none.Keys, 0)) && FreeFrom("", none.Keys, 0) == 0;
    assert After([first], lower).idBySlug == map["" := first.id];
    UniqueSlugNormalIff("", After([first], lower).idBySlug.Keys);
  }

  class RestaurantsRepository {
    var restaurantsById: map<Id, Restaurant>
    var idBySlug: map<string, Id>

    ghost function State(): Catalog
      reads this
    {
      Catalog(restaurantsById, idBySlug)
    }

    constructor ()
      ensures State() == Catalog(map[], map[])
    {
      restaurantsById, idBySlug := map[], map[];
    }

    method EnsureUniqueSlug(base: string) returns (slug: string, ghost tries: nat)
      ensures slug == UniqueSlug(base, idBySlug.Keys) && slug !in idBySlug
      ensures tries <= |idBySlug| + 1
    {
      slug := base;
      tries := 1;
      var i := 1;
      while slug in idBySlug
        invariant 1 <= i == tries <= |idBySlug.Keys| + 1
        invariant slug == Candidate(base, i - 1)
        invariant forall j: nat :: j < i - 1 ==> Candidate(base, j) in idBySlug
        decreases |idBySlug.Keys| + 1 - i
      {
        TakenBound(base, i, idBySlug.Keys);
        slug := base + "-" + Decimal(i);
        i, tries := i + 1, tries + 1;
      }
      FirstFreeUnique(base, idBySlug.Keys, i - 1, FreeFrom(base, idBySlug.Keys, 0));
    }

    method CreateRestaurant(id: Id, name: string, lower: string -> string) returns (r: Restaurant)
      requires Inverse(State()) && id != "" && id !in restaurantsById
      modifies this
      ensures r == Built(old(State()), id, name, lower) && State() == Store(old(State()), r)
      ensures Inverse(State()) && GetBySlug(State(), r.slug) == Found(r)
    {
      var slug, tries := EnsureUniqueSlug(Slugify(name, lower));
      r := Restaurant(id, name, slug);
      StoreKeepsInverse(State(), r);
      restaurantsById := restaurantsById[id := r];
      idBySlug := idBySlug[slug := id];
    }

    method FindBySlug(slug: string) returns (r: Lookup)
      ensures r == GetBySlug(State(), slug)
    {
      if slug !in idBySlug || idBySlug[slug] == "" {
        return NotFound;
      }
      var id := idBySlug[slug];
      r := if id in restaurantsById then Found(restaurantsById[id]) else NotFound;
    }
  }

  /** At most one candidate is the first free one. */
  lemma FirstFreeUnique(base: string, taken: set<string>, i: nat, j: nat)
    requires FirstFree(base, taken, i) && FirstFree(base, taken, j)
    ensures i == j
  {
  }
}
