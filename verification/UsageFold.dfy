/** The two cuts of one range: rows by day and working directory, and rows by model family, folded
    independently from the same per-file aggregates. */
module UsageFold {
  import opened Wrappers
  import opened Usage

  datatype Dimension = ByDay | ByFamily

  datatype Cut = DayCut(day: string, cwd: string) | FamilyCut(fam: string)

  function CutOf(dim: Dimension, k: Key): Cut {
    if dim.ByDay? then DayCut(k.day, k.cwd) else FamilyCut(k.fam)
  }

  datatype Bucket = Bucket(t: Tokens, cost: nat, priced: bool, unpriced: bool, sessions: nat)

  const EMPTY: Bucket := Bucket(NO_TOKENS, 0, false, false, 0)

  // ---- What a bucket is, from the facts ----

  ghost function At(s: set<Fact>, dim: Dimension, c: Cut): set<Fact> {
    set f | f in s && CutOf(dim, f.key) == c
  }

  ghost function PathsOf(s: set<Fact>): set<FilePath> {
    set f | f in s :: f.path
  }

  ghost function TokensOf(s: set<Fact>): Tokens {
    Tokens(Sum(s, Input), Sum(s, Output), Sum(s, Write), Sum(s, Read))
  }

  ghost predicate SomePriced(s: set<Fact>) { exists f :: f in s && PriceFor(f.key.fam).Some? }

  ghost predicate SomeUnpriced(s: set<Fact>) { exists f :: f in s && PriceFor(f.key.fam).None? }

  /** Sums and flags over the facts `seen`, distinct files over the facts of `closed` files. */
  ghost function Expected(seen: set<Fact>, closed: set<Fact>): Bucket {
    Bucket(TokensOf(seen), Sum(seen, Cost), SomePriced(seen), SomeUnpriced(seen), |PathsOf(closed)|)
  }

  ghost predicate BucketIs(buckets: map<Cut, Bucket>, seen: set<Fact>, closed: set<Fact>, dim: Dimension, c: Cut) {
    && (c in buckets <==> At(seen, dim, c) != {})
    && (c in buckets ==> buckets[c] == Expected(At(seen, dim, c), At(closed, dim, c)))
  }

  ghost predicate Buckets(buckets: map<Cut, Bucket>, seen: set<Fact>, closed: set<Fact>, dim: Dimension) {
    forall c :: BucketIs(buckets, seen, closed, dim, c)
  }

  // ---- One entry ----

  function Absorb(b: Bucket, fam: string, t: Tokens): Bucket {
    b.(t := Plus(b.t, t), cost := b.cost + CostOf(fam, t),
       priced := b.priced || PriceFor(fam).Some?, unpriced := b.unpriced || PriceFor(fam).None?)
  }

  function OrEmpty(buckets: map<Cut, Bucket>, c: Cut): Bucket {
    if c in buckets then buckets[c] else EMPTY
  }

  lemma SumOneMore(s: set<Fact>, f: Fact, w: Weight)
    requires f !in s
    ensures Sum(s + {f}, w) == Sum(s, w) + Weigh(w, f.key.fam, f.t)
  {
    SumTakesOut(s + {f}, f, w);
    assert s + {f} - {f} == s;
  }

  lemma FlagsOneMore(s: set<Fact>, f: Fact)
    ensures SomePriced(s + {f}) <==> SomePriced(s) || PriceFor(f.key.fam).Some?
    ensures SomeUnpriced(s + {f}) <==> SomeUnpriced(s) || PriceFor(f.key.fam).None?
  {
  }

  lemma ExpectedOneMore(s: set<Fact>, closed: set<Fact>, f: Fact)
    requires f !in s
    ensures Expected(s + {f}, closed) == Absorb(Expected(s, closed), f.key.fam, f.t)
  {
    SumOneMore(s, f, Input);
    SumOneMore(s, f, Output);
    SumOneMore(s, f, Write);
    SumOneMore(s, f, Read);
    SumOneMore(s, f, Cost);
    FlagsOneMore(s, f);
  }

  lemma ExpectedOfNothing(dim: Dimension, c: Cut, closed: set<Fact>)
    requires At(closed, dim, c) == {}
    ensures Expected({}, At(closed, dim, c)) == EMPTY
  {
  }

  lemma AtOneMore(s: set<Fact>, f: Fact, dim: Dimension, c: Cut)
    ensures At(s + {f}, dim, c) == if CutOf(dim, f.key) == c then At(s, dim, c) + {f} else At(s, dim, c)
  {
  }

  function WithEntry(buckets: map<Cut, Bucket>, dim: Dimension, k: Key, t: Tokens): map<Cut, Bucket> {
    buckets[CutOf(dim, k) := Absorb(OrEmpty(buckets, CutOf(dim, k)), k.fam, t)]
  }

  lemma AbsorbBucket(buckets: map<Cut, Bucket>, seen: set<Fact>, closed: set<Fact>, dim: Dimension, f: Fact, c: Cut)
    requires BucketIs(buckets, seen, closed, dim, c) && f !in seen && closed <= seen
    ensures BucketIs(WithEntry(buckets, dim, f.key, f.t), seen + {f}, closed, dim, c)
  {
    AtOneMore(seen, f, dim, c);
    if CutOf(dim, f.key) == c {
      ExpectedOneMore(At(seen, dim, c), At(closed, dim, c), f);
      if c !in buckets {
        assert At(closed, dim, c) <= At(seen, dim, c);
        ExpectedOfNothing(dim, c, closed);
      }
    }
  }

  // ---- Closing a file ----

  ghost function Counted(buckets: map<Cut, Bucket>, touched: set<Cut>): map<Cut, Bucket> {
    map c | c in buckets :: if c in touched then buckets[c].(sessions := buckets[c].sessions + 1) else buckets[c]
  }

  lemma OneMorePath(closed: set<Fact>, seen: set<Fact>, p: FilePath)
    requires closed <= seen
    requires (forall f :: f in closed ==> f.path != p) && (forall f :: f in seen && f !in closed ==> f.path == p)
    ensures |PathsOf(seen)| == |PathsOf(closed)| + if seen != closed then 1 else 0
  {
    if seen != closed {
      var f :| f in seen && f !in closed;
      assert f.path in PathsOf(seen);
      forall q ensures q in PathsOf(seen) <==> q in PathsOf(closed) || q == p {
        if q in PathsOf(closed) { var g :| g in closed && g.path == q; assert g in seen; }
      }
      assert PathsOf(seen) == PathsOf(closed) + {p};
      assert p !in PathsOf(closed);
    }
  }

  lemma CloseBucket(buckets: map<Cut, Bucket>, seen: set<Fact>, closed: set<Fact>, dim: Dimension, touched: set<Cut>,
                    p: FilePath, c: Cut)
    requires BucketIs(buckets, seen, closed, dim, c) && closed <= seen
    requires (forall f :: f in closed ==> f.path != p) && (forall f :: f in seen && f !in closed ==> f.path == p)
    requires c in touched <==> At(seen, dim, c) != At(closed, dim, c)
    ensures BucketIs(Counted(buckets, touched), seen, seen, dim, c)
  {
    OneMorePath(At(closed, dim, c), At(seen, dim, c), p);
  }

  // ---- The loops ----

  ghost predicate TouchedIs(touched: set<Cut>, done: set<Fact>, dim: Dimension, c: Cut) {
    c in touched <==> At(done, dim, c) != {}
  }

  ghost predicate Folding(buckets: map<Cut, Bucket>, touched: set<Cut>, closed: set<Fact>, done: set<Fact>,
                          dim: Dimension) {
    Buckets(buckets, closed + done, closed, dim) && forall c :: TouchedIs(touched, done, dim, c)
  }

  lemma FoldOneMore(buckets: map<Cut, Bucket>, touched: set<Cut>, closed: set<Fact>, done: set<Fact>, dim: Dimension,
                    f: Fact)
    requires Folding(buckets, touched, closed, done, dim) && f !in closed && f !in done
    ensures Folding(WithEntry(buckets, dim, f.key, f.t), touched + {CutOf(dim, f.key)}, closed, done + {f}, dim)
  {
    var after := WithEntry(buckets, dim, f.key, f.t);
    assert closed + (done + {f}) == closed + done + {f};
    forall c ensures BucketIs(after, closed + (done + {f}), closed, dim, c) {
      AbsorbBucket(buckets, closed + done, closed, dim, f, c);
    }
    forall c ensures TouchedIs(touched + {CutOf(dim, f.key)}, done + {f}, dim, c) {
      assert TouchedIs(touched, done, dim, c);
      AtOneMore(done, f, dim, c);
    }
  }

  /** The entries of one file, in any order. */
  method FoldFile(dim: Dimension, p: FilePath, days: map<Key, Tokens>, cutoff: Option<string>,
                  buckets0: map<Cut, Bucket>, ghost closed: set<Fact>)
    returns (buckets: map<Cut, Bucket>, touched: set<Cut>)
    requires Buckets(buckets0, closed, closed, dim) && forall f :: f in closed ==> f.path != p
    ensures Folding(buckets, touched, closed, RangedFile(p, days, cutoff), dim)
  {
    buckets, touched := buckets0, {};
    var left := days.Keys;
    ghost var done := {};
    assert closed + done == closed;
    while left != {}
      invariant left <= days.Keys
      invariant forall f :: f in done <==> f in RangedFile(p, days, cutoff) && f.key !in left
      invariant Folding(buckets, touched, closed, done, dim)
      decreases |left|
    {
      var k :| k in left;
      left := left - {k};
      var t := days[k];
      if !InRange(k.day, cutoff) {
        continue;
      }
      ghost var f := Fact(p, k, t);
      FoldOneMore(buckets, touched, closed, done, dim, f);
      buckets := WithEntry(buckets, dim, k, t);
      touched := touched + {CutOf(dim, k)};
      done := done + {f};
    }
    assert done == RangedFile(p, days, cutoff);
  }

  method CountSessions(buckets0: map<Cut, Bucket>, touched: set<Cut>) returns (buckets: map<Cut, Bucket>)
    ensures buckets == Counted(buckets0, touched)
  {
    buckets := buckets0;
    var left := touched;
    while left != {}
      invariant left <= touched
      invariant buckets == Counted(buckets0, touched - left)
      decreases |left|
    {
      var k :| k in left;
      left := left - {k};
      if k in buckets {
        buckets := buckets[k := buckets[k].(sessions := buckets[k].sessions + 1)];
      }
    }
  }

  /** Either of the two passes: all files, in any order. */
  method FoldBy(dim: Dimension, files: Aggregates, cutoff: Option<string>) returns (buckets: map<Cut, Bucket>)
    ensures Buckets(buckets, Ranged(Facts(files), cutoff), Ranged(Facts(files), cutoff), dim)
  {
    buckets := map[];
    var left := files.Keys;
    ghost var closed := {};
    while left != {}
      invariant left <= files.Keys
      invariant forall f :: f in closed <==> f in Ranged(Facts(files), cutoff) && f.path !in left
      invariant Buckets(buckets, closed, closed, dim)
      decreases |left|
    {
      var p :| p in left;
      left := left - {p};
      var touched;
      ghost var file := RangedFile(p, files[p], cutoff);
      buckets, touched := FoldFile(dim, p, files[p], cutoff, buckets, closed);
      forall c ensures BucketIs(Counted(buckets, touched), closed + file, closed + file, dim, c) {
        assert TouchedIs(touched, file, dim, c);
        CloseFile(buckets, closed, file, dim, touched, p, c);
      }
      buckets := CountSessions(buckets, touched);
      closed := closed + file;
    }
    assert closed == Ranged(Facts(files), cutoff);
  }

  lemma CloseFile(buckets: map<Cut, Bucket>, closed: set<Fact>, file: set<Fact>, dim: Dimension, touched: set<Cut>,
                  p: FilePath, c: Cut)
    requires BucketIs(buckets, closed + file, closed, dim, c)
    requires (forall f :: f in closed ==> f.path != p) && (forall f :: f in file ==> f.path == p)
    requires TouchedIs(touched, file, dim, c)
    ensures BucketIs(Counted(buckets, touched), closed + file, closed + file, dim, c)
  {
    assert At(closed + file, dim, c) == At(closed, dim, c) + At(file, dim, c);
    if At(file, dim, c) != {} {
      var f :| f in At(file, dim, c);
      assert f !in At(closed, dim, c);
    }
    CloseBucket(buckets, closed + file, closed, dim, touched, p, c);
  }
}
