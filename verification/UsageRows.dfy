/** The rows of both cuts in their orders, and that each cut conserves every total. */
module UsageRows {
  import opened Wrappers
  import opened Sorting
  import opened Text
  import opened Usage
  import opened UsageFold

  datatype DayUsage =
    DayUsage(day: string, cwd: string, t: Tokens, estCost: Option<nat>, costComplete: bool, sessions: nat)

  datatype FamilyUsage = FamilyUsage(family: string, t: Tokens, estCost: Option<nat>, sessions: nat)

  function EstCost(b: Bucket): Option<nat> { if b.priced then Some(b.cost) else None }

  function DayRow(c: Cut, b: Bucket): DayUsage
    requires c.DayCut?
  {
    DayUsage(c.day, c.cwd, b.t, EstCost(b), !b.unpriced, b.sessions)
  }

  function FamilyRow(c: Cut, b: Bucket): FamilyUsage
    requires c.FamilyCut?
  {
    FamilyUsage(c.fam, b.t, EstCost(b), b.sessions)
  }

  function DayCutOf(r: DayUsage): Cut { DayCut(r.day, r.cwd) }

  /** Key order of the ordered map: by day, then by directory. */
  predicate DayBefore(a: DayUsage, b: DayUsage) {
    Less(a.day, b.day) || (a.day == b.day && Less(a.cwd, b.cwd))
  }

  /** Largest cost first, no cost counting as zero, then most tokens in and out, then by name. */
  predicate Precedes(a: FamilyUsage, b: FamilyUsage) {
    var ca, cb := OrElse(a.estCost, 0), OrElse(b.estCost, 0);
    var ta, tb := a.t.input + a.t.output, b.t.input + b.t.output;
    ca > cb || (ca == cb && (ta > tb || (ta == tb && Less(a.family, b.family))))
  }

  const DAY_BEFORE: (DayUsage, DayUsage) -> bool := (a, b) => DayBefore(a, b)

  const PRECEDES: (FamilyUsage, FamilyUsage) -> bool := (a, b) => Precedes(a, b)

  lemma DayBeforeIsStrictOrder()
    ensures StrictOrder(DAY_BEFORE)
  {
    forall a ensures !DAY_BEFORE(a, a) { LessIrreflexive(a.day); LessIrreflexive(a.cwd); }
    forall a, b, c | DAY_BEFORE(a, b) && DAY_BEFORE(b, c) ensures DAY_BEFORE(a, c) {
      if Less(a.day, b.day) && Less(b.day, c.day) { LessTransitive(a.day, b.day, c.day); }
      if Less(a.cwd, b.cwd) && Less(b.cwd, c.cwd) { LessTransitive(a.cwd, b.cwd, c.cwd); }
    }
  }

  lemma PrecedesIsStrictOrder()
    ensures StrictOrder(PRECEDES)
  {
    forall a ensures !PRECEDES(a, a) { LessIrreflexive(a.family); }
    forall a, b, c | PRECEDES(a, b) && PRECEDES(b, c) ensures PRECEDES(a, c) {
      if Less(a.family, b.family) && Less(b.family, c.family) { LessTransitive(a.family, b.family, c.family); }
    }
  }

  // ---- What the rows are ----

  /** The row of its own key over the facts: sums of the four slots, a cost if and only if a priced
      family contributed, complete if and only if no unpriced one did, and distinct files. */
  ghost predicate IsDayRow(r: DayUsage, s: set<Fact>) {
    var at := At(s, ByDay, DayCutOf(r));
    && at != {}
    && r.t == TokensOf(at)
    && r.estCost == (if SomePriced(at) then Some(Sum(at, Cost)) else None)
    && (r.costComplete <==> !SomeUnpriced(at))
    && r.sessions == |PathsOf(at)|
  }

  ghost predicate IsFamilyRow(r: FamilyUsage, s: set<Fact>) {
    var at := At(s, ByFamily, FamilyCut(r.family));
    && at != {}
    && r.t == TokensOf(at)
    && r.estCost == (if SomePriced(at) then Some(Sum(at, Cost)) else None)
    && r.sessions == |PathsOf(at)|
  }

  ghost predicate DaysAre(days: seq<DayUsage>, s: set<Fact>) {
    SortedBy(DAY_BEFORE, days) && forall r :: r in days <==> IsDayRow(r, s)
  }

  ghost predicate FamiliesAre(families: seq<FamilyUsage>, s: set<Fact>) {
    SortedBy(PRECEDES, families) && forall r :: r in families <==> IsFamilyRow(r, s)
  }

  /** The facts leave no choice of rows or of their order, so neither does any order of iteration. */
  lemma RowsUnique(days: seq<DayUsage>, days': seq<DayUsage>, families: seq<FamilyUsage>,
                   families': seq<FamilyUsage>, s: set<Fact>)
    requires DaysAre(days, s) && DaysAre(days', s) && FamiliesAre(families, s) && FamiliesAre(families', s)
    ensures days == days' && families == families'
  {
    DayBeforeIsStrictOrder();
    SortedByUnique(DAY_BEFORE, days, days');
    PrecedesIsStrictOrder();
    SortedByUnique(PRECEDES, families, families');
  }

  // ---- Making them ----

  lemma DayRowIs(buckets: map<Cut, Bucket>, s: set<Fact>, c: Cut)
    requires Buckets(buckets, s, s, ByDay) && c in buckets
    ensures c.DayCut? && DayCutOf(DayRow(c, buckets[c])) == c && IsDayRow(DayRow(c, buckets[c]), s)
  {
    assert BucketIs(buckets, s, s, ByDay, c);
    var f :| f in At(s, ByDay, c);
  }

  lemma DayRowOnly(buckets: map<Cut, Bucket>, s: set<Fact>, r: DayUsage)
    requires Buckets(buckets, s, s, ByDay) && IsDayRow(r, s)
    ensures DayCutOf(r) in buckets && r == DayRow(DayCutOf(r), buckets[DayCutOf(r)])
  {
    assert BucketIs(buckets, s, s, ByDay, DayCutOf(r));
  }

  method DayRows(buckets: map<Cut, Bucket>, ghost s: set<Fact>) returns (days: seq<DayUsage>)
    requires Buckets(buckets, s, s, ByDay)
    ensures DaysAre(days, s)
  {
    DayBeforeIsStrictOrder();
    days := [];
    var left := buckets.Keys;
    forall r | IsDayRow(r, s) ensures DayCutOf(r) in left { DayRowOnly(buckets, s, r); }
    while left != {}
      invariant left <= buckets.Keys
      invariant SortedBy(DAY_BEFORE, days)
      invariant forall r :: r in days <==> IsDayRow(r, s) && DayCutOf(r) !in left
      decreases |left|
    {
      var c :| c in left;
      left := left - {c};
      DayRowIs(buckets, s, c);
      var row := DayRow(c, buckets[c]);
      forall r | r in days ensures r == row || DAY_BEFORE(row, r) || DAY_BEFORE(r, row) {
        LessTotal(r.day, row.day);
        LessTotal(r.cwd, row.cwd);
      }
      forall r | IsDayRow(r, s) && DayCutOf(r) == c ensures r == row { DayRowOnly(buckets, s, r); }
      InsertBySorted(DAY_BEFORE, days, row);
      days := InsertBy(DAY_BEFORE, days, row);
    }
  }

  lemma FamilyRowIs(buckets: map<Cut, Bucket>, s: set<Fact>, c: Cut)
    requires Buckets(buckets, s, s, ByFamily) && c in buckets
    ensures c.FamilyCut? && FamilyCut(FamilyRow(c, buckets[c]).family) == c && IsFamilyRow(FamilyRow(c, buckets[c]), s)
  {
    assert BucketIs(buckets, s, s, ByFamily, c);
    var f :| f in At(s, ByFamily, c);
  }

  lemma FamilyRowOnly(buckets: map<Cut, Bucket>, s: set<Fact>, r: FamilyUsage)
    requires Buckets(buckets, s, s, ByFamily) && IsFamilyRow(r, s)
    ensures FamilyCut(r.family) in buckets && r == FamilyRow(FamilyCut(r.family), buckets[FamilyCut(r.family)])
  {
    assert BucketIs(buckets, s, s, ByFamily, FamilyCut(r.family));
  }

  /** The family rows, sorted by the comparator; insertion stands for the library's sort. */
  method FamilyRows(buckets: map<Cut, Bucket>, ghost s: set<Fact>) returns (families: seq<FamilyUsage>)
    requires Buckets(buckets, s, s, ByFamily)
    ensures FamiliesAre(families, s)
  {
    PrecedesIsStrictOrder();
    families := [];
    var left := buckets.Keys;
    forall r | IsFamilyRow(r, s) ensures FamilyCut(r.family) in left { FamilyRowOnly(buckets, s, r); }
    while left != {}
      invariant left <= buckets.Keys
      invariant SortedBy(PRECEDES, families)
      invariant forall r :: r in families <==> IsFamilyRow(r, s) && FamilyCut(r.family) !in left
      decreases |left|
    {
      var c :| c in left;
      left := left - {c};
      FamilyRowIs(buckets, s, c);
      var row := FamilyRow(c, buckets[c]);
      forall r | r in families ensures r == row || PRECEDES(row, r) || PRECEDES(r, row) {
        LessTotal(r.family, row.family);
      }
      forall r | IsFamilyRow(r, s) && FamilyCut(r.family) == c ensures r == row { FamilyRowOnly(buckets, s, r); }
      InsertBySorted(PRECEDES, families, row);
      families := InsertBy(PRECEDES, families, row);
    }
  }

  /** Both passes over the cached aggregates. */
  method Rows(files: Aggregates, cutoff: Option<string>) returns (days: seq<DayUsage>, families: seq<FamilyUsage>)
    ensures DaysAre(days, Ranged(Facts(files), cutoff))
    ensures FamiliesAre(families, Ranged(Facts(files), cutoff))
  {
    var buckets := FoldBy(ByDay, files, cutoff);
    days := DayRows(buckets, Ranged(Facts(files), cutoff));
    var famBuckets := FoldBy(ByFamily, files, cutoff);
    families := FamilyRows(famBuckets, Ranged(Facts(files), cutoff));
  }

  // ---- Each total once ----

  function SlotOf(w: Weight, t: Tokens, cost: Option<nat>): nat {
    match w
    case Input => t.input
    case Output => t.output
    case Write => t.write
    case Read => t.read
    case Cost => OrElse(cost, 0)
  }

  function DaysTotal(days: seq<DayUsage>, w: Weight): nat {
    if days == [] then 0 else DaysTotal(days[..|days| - 1], w) + SlotOf(w, Last(days).t, Last(days).estCost)
  }

  function FamiliesTotal(families: seq<FamilyUsage>, w: Weight): nat {
    if families == [] then 0
    else FamiliesTotal(families[..|families| - 1], w) + SlotOf(w, Last(families).t, Last(families).estCost)
  }

  lemma {:induction false} NothingPriced(s: set<Fact>)
    requires !SomePriced(s)
    ensures Sum(s, Cost) == 0
    decreases |s|
  {
    if s != {} {
      var f :| f in s;
      SumTakesOut(s, f, Cost);
      NothingPriced(s - {f});
    }
  }

  lemma {:induction false} RowWeighs(at: set<Fact>, w: Weight)
    ensures SlotOf(w, TokensOf(at), if SomePriced(at) then Some(Sum(at, Cost)) else None) == Sum(at, w)
  {
    if !SomePriced(at) { NothingPriced(at); }
  }

  lemma WithoutCut(s: set<Fact>, dim: Dimension, c: Cut, w: Weight)
    ensures Sum(s, w) == Sum(s - At(s, dim, c), w) + Sum(At(s, dim, c), w)
    ensures forall e :: At(s - At(s, dim, c), dim, e) == if e == c then {} else At(s, dim, e)
  {
    assert (s - At(s, dim, c)) + At(s, dim, c) == s;
    SumOfUnion(s - At(s, dim, c), At(s, dim, c), w);
  }

  lemma {:induction false} DaysConserve(days: seq<DayUsage>, s: set<Fact>, w: Weight)
    requires DaysAre(days, s)
    ensures DaysTotal(days, w) == Sum(s, w)
  {
    if days == [] {
      NoRowsNoFacts(s, ByDay);
    } else {
      var init, r := days[..|days| - 1], Last(days);
      var c := DayCutOf(r);
      var rest := s - At(s, ByDay, c);
      assert days[|days| - 1] == r && r in days;
      RowWeighs(At(s, ByDay, c), w);
      WithoutCut(s, ByDay, c, w);
      DaysWithoutLast(days, s);
      DaysConserve(init, rest, w);
    }
  }

  lemma NoRowsNoFacts(s: set<Fact>, dim: Dimension)
    requires (dim.ByDay? && DaysAre([], s)) || (dim.ByFamily? && FamiliesAre([], s))
    ensures s == {}
  {
    if f :| f in s {
      var c := CutOf(dim, f.key);
      assert f in At(s, dim, c);
      var at := At(s, dim, c);
      var cost := if SomePriced(at) then Some(Sum(at, Cost)) else None;
      if dim.ByDay? {
        assert IsDayRow(DayUsage(f.key.day, f.key.cwd, TokensOf(at), cost, !SomeUnpriced(at), |PathsOf(at)|), s);
      } else {
        assert IsFamilyRow(FamilyUsage(f.key.fam, TokensOf(at), cost, |PathsOf(at)|), s);
      }
    }
  }

  lemma DaysWithoutLast(days: seq<DayUsage>, s: set<Fact>)
    requires DaysAre(days, s) && days != []
    ensures DaysAre(days[..|days| - 1], s - At(s, ByDay, DayCutOf(Last(days))))
  {
    var init, last := days[..|days| - 1], Last(days);
    var c := DayCutOf(last);
    WithoutCut(s, ByDay, c, Input);
    forall r ensures r in init <==> IsDayRow(r, s - At(s, ByDay, c)) {
      assert days == init + [last];
      assert r in days <==> r in init || r == last;
      assert IsDayRow(r, s - At(s, ByDay, c)) <==> IsDayRow(r, s) && DayCutOf(r) != c;
      if r in init {
        var i :| 0 <= i < |init| && init[i] == r;
        assert DAY_BEFORE(days[i], days[|days| - 1]);
        LessIrreflexive(r.day);
        LessIrreflexive(r.cwd);
      }
    }
  }

  lemma {:induction false} FamiliesConserve(families: seq<FamilyUsage>, s: set<Fact>, w: Weight)
    requires FamiliesAre(families, s)
    ensures FamiliesTotal(families, w) == Sum(s, w)
  {
    if families == [] {
      NoRowsNoFacts(s, ByFamily);
    } else {
      var init, r := families[..|families| - 1], Last(families);
      var c := FamilyCut(r.family);
      var rest := s - At(s, ByFamily, c);
      assert families[|families| - 1] == r && r in families;
      RowWeighs(At(s, ByFamily, c), w);
      WithoutCut(s, ByFamily, c, w);
      FamiliesWithoutLast(families, s);
      FamiliesConserve(init, rest, w);
    }
  }

  lemma SameFamilySameRow(a: FamilyUsage, b: FamilyUsage, s: set<Fact>)
    requires IsFamilyRow(a, s) && IsFamilyRow(b, s) && a.family == b.family
    ensures a == b
  {
  }

  lemma FamilyRowWithout(r: FamilyUsage, s: set<Fact>, c: Cut)
    requires c.FamilyCut?
    ensures IsFamilyRow(r, s - At(s, ByFamily, c)) <==> IsFamilyRow(r, s) && FamilyCut(r.family) != c
  {
    WithoutCut(s, ByFamily, c, Input);
  }

  lemma FamiliesWithoutLast(families: seq<FamilyUsage>, s: set<Fact>)
    requires FamiliesAre(families, s) && families != []
    ensures FamiliesAre(families[..|families| - 1], s - At(s, ByFamily, FamilyCut(Last(families).family)))
  {
    var init, last := families[..|families| - 1], Last(families);
    var c := FamilyCut(last.family);
    PrecedesIsStrictOrder();
    assert families == init + [last];
    assert last in families;
    forall r ensures r in init <==> IsFamilyRow(r, s - At(s, ByFamily, c)) {
      FamilyRowWithout(r, s, c);
      assert r in families <==> r in init || r == last;
      if r in init {
        var i :| 0 <= i < |init| && init[i] == r;
        assert PRECEDES(families[i], families[|families| - 1]);
        if r.family == last.family { SameFamilySameRow(r, last, s); }
      }
    }
  }

  /** Both cuts conserve: for each of the four slots and for cost the rows by day, the rows by family
      and the in-range facts have the same total. */
  lemma BothCutsConserve(days: seq<DayUsage>, families: seq<FamilyUsage>, s: set<Fact>, w: Weight)
    requires DaysAre(days, s) && FamiliesAre(families, s)
    ensures DaysTotal(days, w) == FamiliesTotal(families, w) == Sum(s, w)
  {
    DaysConserve(days, s, w);
    FamiliesConserve(families, s, w);
  }
}
