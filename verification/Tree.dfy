/** A symlink-free file tree as a map from absolute paths to entries, and the multiset of file
    contents it holds. */
module Tree {
  import opened Wrappers
  import opened Paths

  type Path = seq<Name>

  type Content = seq<byte>

  datatype Entry = File(content: Content) | Dir

  type Files = map<Path, Entry>

  predicate IsDir(fs: Files, p: Path) { p in fs && fs[p].Dir? }

  ghost predicate Grounded(fs: Files, p: Path) {
    forall k :: 0 <= k < |p| ==> IsDir(fs, p[..k])
  }

  /** Every entry sits in directories all the way up. */
  ghost predicate WellFormed(fs: Files) {
    IsDir(fs, []) && forall p :: p in fs ==> Grounded(fs, p)
  }

  /** Every entry's path is made of directory-entry names. */
  ghost predicate WellNamed(fs: Files) {
    forall p :: p in fs ==> AllNames(p)
  }

  function Below(fs: Files, s: Path): Files { map p | p in fs && s <= p :: fs[p] }

  function Without(fs: Files, s: Path): Files { map p | p in fs && !(s <= p) :: fs[p] }

  /** The path that q, under d, had under s. */
  function Back(q: Path, s: Path, d: Path): Path {
    if |d| <= |q| then s + q[|d|..] else s
  }

  function NewKeys(t: Files, s: Path, d: Path): set<Path> {
    set p | p in t && s <= p :: d + p[|s|..]
  }

  /** A subtree at s, set down at d. */
  function Rebased(t: Files, s: Path, d: Path): Files {
    map q | q in NewKeys(t, s, d) && Back(q, s, d) in t :: t[Back(q, s, d)]
  }

  function Moved(fs: Files, s: Path, d: Path): Files {
    Without(fs, s) + Rebased(Below(fs, s), s, d)
  }

  lemma BackThere(p: Path, s: Path, d: Path)
    requires s <= p
    ensures d <= d + p[|s|..] && Back(d + p[|s|..], s, d) == p
  {
  }

  /** Exactly the entries of t, each at its new place. */
  lemma RebasedAt(t: Files, s: Path, d: Path, q: Path)
    requires forall p :: p in t ==> s <= p
    ensures q in Rebased(t, s, d) <==> d <= q && Back(q, s, d) in t
    ensures q in Rebased(t, s, d) ==> Rebased(t, s, d)[q] == t[Back(q, s, d)]
  {
    if q in Rebased(t, s, d) {
      var p :| p in t && s <= p && q == d + p[|s|..];
    }
    if d <= q && Back(q, s, d) in t {
      var p := Back(q, s, d);
      assert p[|s|..] == q[|d|..];
      assert d + q[|d|..] == q;
      assert q in NewKeys(t, s, d);
    }
  }

  // ---- Contents ----

  function ContentOf(e: Entry): multiset<Content> {
    if e.File? then multiset{e.content} else multiset{}
  }

  ghost function Bag(t: Files): multiset<Content>
    decreases |t|
  {
    if t == map[] then multiset{} else var p := AnyKey(t); Bag(t - {p}) + ContentOf(t[p])
  }

  lemma RemoveTwice(t: Files, p: Path, q: Path)
    ensures t - {q} - {p} == t - {p} - {q}
  {
  }

  lemma {:induction false} BagTakesOut(t: Files, p: Path)
    requires p in t
    ensures Bag(t) == Bag(t - {p}) + ContentOf(t[p])
    decreases |t|
  {
    var q := AnyKey(t);
    if q != p {
      BagTakesOut(t - {q}, p);
      BagTakesOut(t - {p}, q);
      RemoveTwice(t, p, q);
    }
  }

  lemma BagPuts(t: Files, p: Path, e: Entry)
    requires p !in t
    ensures Bag(t[p := e]) == Bag(t) + ContentOf(e)
  {
    BagTakesOut(t[p := e], p);
    assert t[p := e] - {p} == t;
  }

  lemma UnionWithout(a: Files, b: Files, p: Path)
    requires a.Keys !! b.Keys && p in b
    ensures (a + b)[p] == b[p] && a + b - {p} == a + (b - {p})
  {
  }

  lemma BagUnionStep(a: Files, b: Files, p: Path)
    requires a.Keys !! b.Keys && p in b && Bag(a + (b - {p})) == Bag(a) + Bag(b - {p})
    ensures Bag(a + b) == Bag(a) + Bag(b)
  {
    UnionWithout(a, b, p);
    calc {
      Bag(a + b);
    ==  { BagTakesOut(a + b, p); }
      Bag(a) + Bag(b - {p}) + ContentOf(b[p]);
    ==  { BagTakesOut(b, p); }
      Bag(a) + Bag(b);
    }
  }

  lemma {:induction false} BagOfUnion(a: Files, b: Files)
    requires a.Keys !! b.Keys
    ensures Bag(a + b) == Bag(a) + Bag(b)
    decreases |b|
  {
    if b == map[] {
      assert a + b == a;
    } else {
      var p := AnyKey(b);
      BagOfUnion(a, b - {p});
      BagUnionStep(a, b, p);
    }
  }

  lemma BagOfParts(fs: Files, s: Path)
    ensures Bag(fs) == Bag(Without(fs, s)) + Bag(Below(fs, s))
  {
    assert Without(fs, s) + Below(fs, s) == fs;
    BagOfUnion(Without(fs, s), Below(fs, s));
  }

  lemma RebasedLess(t: Files, s: Path, d: Path, p: Path)
    requires p in t && forall x :: x in t ==> s <= x
    ensures var q := d + p[|s|..];
            q in Rebased(t, s, d) && Rebased(t, s, d)[q] == t[p] && Rebased(t, s, d) - {q} == Rebased(t - {p}, s, d)
  {
    var q := d + p[|s|..];
    BackThere(p, s, d);
    RebasedAt(t, s, d, q);
    forall x ensures x in Rebased(t, s, d) - {q} <==> x in Rebased(t - {p}, s, d)
      ensures x in Rebased(t - {p}, s, d) ==> Rebased(t - {p}, s, d)[x] == Rebased(t, s, d)[x]
    {
      RebasedAt(t, s, d, x);
      RebasedAt(t - {p}, s, d, x);
      if d <= x && Back(x, s, d) == p { SamePlace(x, p, s, d); }
    }
  }

  lemma SamePlace(x: Path, p: Path, s: Path, d: Path)
    requires d <= x && s <= p && Back(x, s, d) == p
    ensures x == d + p[|s|..]
  {
  }

  lemma {:induction false} BagOfRebased(t: Files, s: Path, d: Path)
    requires forall p :: p in t ==> s <= p
    ensures Bag(Rebased(t, s, d)) == Bag(t)
    decreases |t|
  {
    if t == map[] {
      assert Rebased(t, s, d) == map[];
    } else {
      var p := AnyKey(t);
      RebasedLess(t, s, d, p);
      BagTakesOut(Rebased(t, s, d), d + p[|s|..]);
      BagOfRebased(t - {p}, s, d);
    }
  }

  // ---- Free places ----

  lemma PrefixPresent(fs: Files, p: Path, d: Path)
    requires WellFormed(fs) && p in fs && d <= p
    ensures d in fs
  {
    assert Grounded(fs, p);
    if |d| < |p| { assert d == p[..|d|] && IsDir(fs, p[..|d|]); } else { assert d == p; }
  }

  /** Nothing lies below a place that is free. */
  lemma FreeBelow(fs: Files, d: Path, p: Path)
    requires WellFormed(fs) && d !in fs && p in fs
    ensures !(d <= p)
  {
    if d <= p { PrefixPresent(fs, p, d); }
  }

  lemma MoveConserves(fs: Files, s: Path, d: Path)
    requires WellFormed(fs) && d !in fs
    ensures Bag(Moved(fs, s, d)) == Bag(fs)
  {
    var below := Below(fs, s);
    forall q ensures !(q in Without(fs, s) && q in Rebased(below, s, d)) {
      RebasedAt(below, s, d, q);
      if q in fs { FreeBelow(fs, d, q); }
    }
    BagOfUnion(Without(fs, s), Rebased(below, s, d));
    BagOfRebased(below, s, d);
    BagOfParts(fs, s);
  }

  // ---- Changes keep trees well-formed ----

  lemma PutKeeps(fs: Files, p: Path, e: Entry)
    requires WellFormed(fs) && p !in fs && p != [] && IsDir(fs, p[..|p| - 1])
    ensures WellFormed(fs[p := e])
  {
    var t := fs[p := e];
    forall q | q in t ensures Grounded(t, q) {
      if q == p {
        assert Grounded(fs, p[..|p| - 1]);
        forall k | 0 <= k < |p| ensures IsDir(t, p[..k]) {
          if k < |p| - 1 { assert p[..k] == p[..|p| - 1][..k]; }
        }
      } else {
        assert Grounded(fs, q);
        forall k | 0 <= k < |q| ensures IsDir(t, q[..k]) { assert IsDir(fs, q[..k]); }
      }
    }
  }

  lemma WithoutKeeps(fs: Files, s: Path)
    requires WellFormed(fs) && s != []
    ensures WellFormed(Without(fs, s))
  {
  }

  lemma PrefixOfPrefix(s: Path, q: Path, k: nat)
    requires k <= |q| && s <= q[..k]
    ensures s <= q
  {
  }

  lemma MoveKeeps(fs: Files, s: Path, d: Path)
    requires WellFormed(fs) && s != [] && d != [] && d !in fs && IsDir(fs, d[..|d| - 1]) && !(s <= d)
    ensures WellFormed(Moved(fs, s, d))
  {
    var t := Moved(fs, s, d);
    WithoutKeeps(fs, s);
    RebasedAt(Below(fs, s), s, d, []);
    forall q | q in t ensures Grounded(t, q) {
      RebasedAt(Below(fs, s), s, d, q);
      if q in Rebased(Below(fs, s), s, d) { MovedGrounded(fs, s, d, q); } else { KeptGrounded(fs, s, d, q); }
    }
  }

  lemma KeptGrounded(fs: Files, s: Path, d: Path, q: Path)
    requires WellFormed(fs) && s != [] && d !in fs && q in Without(fs, s)
    ensures Grounded(Moved(fs, s, d), q)
  {
    WithoutKeeps(fs, s);
    assert Grounded(Without(fs, s), q);
    forall k | 0 <= k < |q| ensures IsDir(Moved(fs, s, d), q[..k]) {
      assert IsDir(Without(fs, s), q[..k]);
      RebasedAt(Below(fs, s), s, d, q[..k]);
      if d <= q[..k] { FreeBelow(fs, d, q[..k]); }
    }
  }

  lemma MovedGrounded(fs: Files, s: Path, d: Path, q: Path)
    requires WellFormed(fs) && s != [] && d != [] && d !in fs && IsDir(fs, d[..|d| - 1]) && !(s <= d)
    requires d <= q && Back(q, s, d) in fs
    ensures Grounded(Moved(fs, s, d), q)
  {
    var p := Back(q, s, d);
    assert Grounded(fs, p);
    forall k | 0 <= k < |q| ensures IsDir(Moved(fs, s, d), q[..k]) {
      if k < |d| { AboveTarget(fs, s, d, k); assert q[..k] == d[..k]; } else { InsideMoved(fs, s, d, q, k); }
    }
  }

  lemma AboveTarget(fs: Files, s: Path, d: Path, k: nat)
    requires WellFormed(fs) && s != [] && d != [] && d !in fs && IsDir(fs, d[..|d| - 1]) && !(s <= d) && k < |d|
    ensures IsDir(Moved(fs, s, d), d[..k])
  {
    var up := d[..|d| - 1];
    assert Grounded(fs, up);
    if k < |up| { assert d[..k] == up[..k]; } else { assert d[..k] == up; }
    assert IsDir(fs, d[..k]);
    if s <= d[..k] { PrefixOfPrefix(s, d, k); }
    RebasedAt(Below(fs, s), s, d, d[..k]);
  }

  lemma InsideMoved(fs: Files, s: Path, d: Path, q: Path, k: nat)
    requires d <= q && Back(q, s, d) in fs && Grounded(fs, Back(q, s, d)) && |d| <= k < |q|
    ensures IsDir(Moved(fs, s, d), q[..k])
  {
    var p := Back(q, s, d);
    var j := k - |d| + |s|;
    assert q[..k][|d|..] == q[|d|..][..k - |d|];
    assert Back(q[..k], s, d) == p[..j];
    assert IsDir(fs, p[..j]);
    RebasedAt(Below(fs, s), s, d, q[..k]);
  }
}
