/** The live watch's batch filter: raw changed paths to one deduplicated, capped event per root. */
module Watcher {
  import opened Wrappers
  import opened Paths
  import opened Text
  import Preview

  const WATCH_PATH_CAP: nat := 500

  /** Absolute paths as the operating system reports them, by their components. */
  type Path = seq<Name>

  /** A watched root: the string the front end knows it by, its canonical path, and which relative
      paths its `.gitignore` ignores, given whether they are directories. */
  datatype RootMatcher = RootMatcher(root: string, path: Path, ignores: set<(Path, bool)>)

  /** What the disk answers during the batch. */
  datatype Disk = Disk(existing: set<Path>, dirs: set<Path>)

  datatype FsEvent = Changed(root: string, relPaths: seq<string>) | WatchError(root: string, gone: Path)

  // ---- Routing ----

  function Utf8Width(c: char): (n: nat)
    ensures n == |Preview.Encode(c as int)|
  {
    if c as int < 0x80 then 1 else if c as int < 0x800 then 2 else if c as int < 0x1_0000 then 3 else 4
  }

  /** `as_os_str().len()` counts bytes. */
  function ByteLen(s: string): nat {
    if s == "" then 0 else Utf8Width(s[0]) + ByteLen(s[1..])
  }

  /** The filter and `max_by_key`: among the roots that contain p the longest in bytes, the last of
      them on a tie. */
  function Route(p: Path, roots: seq<RootMatcher>): Option<RootMatcher> {
    if roots == [] then None
    else
      var best, m := Route(p, roots[..|roots| - 1]), Last(roots);
      if !(m.path <= p) then best
      else if best.None? || ByteLen(Render(best.value.path)) <= ByteLen(Render(m.path)) then Some(m)
      else best
  }

  lemma {:induction false} ByteLenAdds(a: string, b: string)
    ensures ByteLen(a + b) == ByteLen(a) + ByteLen(b)
  {
    if a == "" {
      assert a + b == b;
    } else {
      assert (a + b)[1..] == a[1..] + b;
      ByteLenAdds(a[1..], b);
    }
  }

  lemma TailIsLong(names: seq<Name>)
    requires names != [] && IsName(names[0])
    ensures ByteLen(Tail(names)) >= 2
  {
  }

  /** Of two roots on one path the deeper has the longer text. */
  lemma DeeperIsLonger(a: Path, b: Path)
    requires AllNames(b) && a <= b && a != b
    ensures ByteLen(Render(a)) < ByteLen(Render(b))
  {
    var c := b[|a|..];
    assert b == a + c;
    TailOfConcat(a, c);
    ByteLenAdds(Tail(a), Tail(c));
    assert c[0] == b[|a|];
    TailIsLong(c);
    assert ByteLen("/") == 1 + ByteLen("");
  }

  /** So for prefixes of one path the order of byte lengths is the order of depths. */
  lemma ByteLengthIsDepth(p: Path, a: Path, b: Path)
    requires AllNames(p) && a <= p && b <= p
    ensures ByteLen(Render(a)) <= ByteLen(Render(b)) <==> |a| <= |b|
  {
    assert a == p[..|a|] && b == p[..|b|];
    if |a| < |b| {
      assert a == b[..|a|] && forall i :: 0 <= i < |b| ==> b[i] == p[i];
      DeeperIsLonger(a, b);
    } else if |b| < |a| {
      assert b == a[..|b|] && forall i :: 0 <= i < |a| ==> a[i] == p[i];
      DeeperIsLonger(b, a);
    }
  }

  ghost predicate Deepest(p: Path, roots: seq<RootMatcher>, m: RootMatcher) {
    && m in roots && m.path <= p
    && forall o :: o in roots && o.path <= p ==> |o.path| <= |m.path|
  }

  lemma InLonger(roots: seq<RootMatcher>, o: RootMatcher)
    requires roots != []
    ensures o in roots <==> o in roots[..|roots| - 1] || o == Last(roots)
  {
  }

  /** A path goes to its deepest containing root, and nowhere only if no root contains it. */
  lemma {:induction false} RouteIsDeepest(p: Path, roots: seq<RootMatcher>)
    requires AllNames(p)
    ensures Route(p, roots).None? <==> forall m :: m in roots ==> !(m.path <= p)
    ensures Route(p, roots).Some? ==> Deepest(p, roots, Route(p, roots).value)
  {
    if roots != [] {
      var init, m := roots[..|roots| - 1], Last(roots);
      RouteIsDeepest(p, init);
      forall o ensures o in roots <==> o in init || o == m { InLonger(roots, o); }
      var best := Route(p, init);
      if m.path <= p && best.Some? {
        ByteLengthIsDepth(p, best.value.path, m.path);
      }
    }
  }

  ghost predicate DistinctRoots(roots: seq<RootMatcher>) {
    && (forall a, b :: a in roots && b in roots && a.path == b.path ==> a == b)
    && (forall a, b :: a in roots && b in roots && a.root == b.root ==> a == b)
  }

  lemma RouteOrderFree(p: Path, roots: seq<RootMatcher>, others: seq<RootMatcher>)
    requires AllNames(p) && DistinctRoots(roots)
    requires forall m :: m in roots <==> m in others
    ensures Route(p, roots) == Route(p, others)
  {
    RouteIsDeepest(p, roots);
    RouteIsDeepest(p, others);
    if Route(p, roots).Some? && Route(p, others).Some? {
      var a, b := Route(p, roots).value, Route(p, others).value;
      assert |a.path| == |b.path|;
      assert a.path == p[..|a.path|] == b.path;
    }
  }

  // ---- One path ----

  /** What one raw path does to the batch: nothing, an entry under a root (the whole-root sentinel
      `*` is one), or the report that the root itself is gone. */
  datatype Verdict = Dropped | Entry(root: string, rel: string) | Vanished(root: string, path: Path)

  predicate IsGitInternal(rel: Path) { ".git" in rel }

  function SlashChar(c: char): char { if c == '\\' then '/' else c }

  function Slashed(s: string): string { seq(|s|, i requires 0 <= i < |s| => SlashChar(s[i])) }

  function RelToWireString(rel: Path): string { Slashed(Joined(rel)) }

  lemma WireEmpty(rel: Path)
    requires AllNames(rel)
    ensures RelToWireString(rel) == "" <==> rel == []
  {
  }

  predicate Ignored(m: RootMatcher, p: Path, disk: Disk) {
    |m.path| <= |p| && (p[|m.path|..], p in disk.dirs) in m.ignores
  }

  function Judge(p: Path, roots: seq<RootMatcher>, disk: Disk, showIgnored: bool): Verdict {
    match Route(p, roots)
    case None => Dropped
    case Some(m) =>
      if |m.path| > |p| || IsGitInternal(p[|m.path|..]) then Dropped
      else if RelToWireString(p[|m.path|..]) == "" then
        if p in disk.existing then Entry(m.root, "*") else Vanished(m.root, p)
      else if Ignored(m, p, disk) && !showIgnored then Dropped
      else Entry(m.root, RelToWireString(p[|m.path|..]))
  }

  function Verdicts(raw: seq<Path>, roots: seq<RootMatcher>, disk: Disk, showIgnored: bool): seq<Verdict> {
    seq(|raw|, i requires 0 <= i < |raw| => Judge(raw[i], roots, disk, showIgnored))
  }

  // ---- The batch ----

  ghost function EntryRoots(vs: seq<Verdict>): set<string> {
    set v | v in vs && v.Entry? :: v.root
  }

  ghost function EntriesUnder(vs: seq<Verdict>, root: string): set<string> {
    set v | v in vs && v.Entry? && v.root == root :: v.rel
  }

  ghost function VanishedRoots(vs: seq<Verdict>): set<string> {
    set v | v in vs && v.Vanished? :: v.root
  }

  function FirstVanished(vs: seq<Verdict>, root: string): Path {
    if vs == [] then []
    else if vs[0].Vanished? && vs[0].root == root then vs[0].path
    else FirstVanished(vs[1..], root)
  }

  /** The strictly sorted listing of a set. */
  ghost function Listing(s: set<string>): (r: seq<string>)
    ensures forall x :: x in r <==> x in s
    decreases |s|
  {
    if s == {} then [] else var x :| x in s; Insert(Listing(s - {x}), x)
  }

  lemma {:induction false} ListingSorted(s: set<string>)
    ensures StrictlySorted(Listing(s)) && |Listing(s)| == |s|
    decreases |s|
  {
    if s != {} {
      var x :| x in s && Listing(s) == Insert(Listing(s - {x}), x);
      ListingSorted(s - {x});
      InsertSorted(Listing(s - {x}), x);
    }
  }

  function RelPaths(sorted: seq<string>): seq<string> {
    if |sorted| > WATCH_PATH_CAP || "*" in sorted then ["*"] else sorted
  }

  ghost function ChangeOf(vs: seq<Verdict>, root: string): FsEvent {
    Changed(root, RelPaths(Listing(EntriesUnder(vs, root))))
  }

  function ErrorOf(vs: seq<Verdict>, root: string): FsEvent {
    WatchError(root, FirstVanished(vs, root))
  }

  ghost function ChangedFor(keys: seq<string>, vs: seq<Verdict>): seq<FsEvent> {
    seq(|keys|, i requires 0 <= i < |keys| => ChangeOf(vs, keys[i]))
  }

  ghost function ErrorsFor(keys: seq<string>, vs: seq<Verdict>): seq<FsEvent> {
    seq(|keys|, i requires 0 <= i < |keys| => ErrorOf(vs, keys[i]))
  }

  ghost function Output(vs: seq<Verdict>): seq<FsEvent> {
    ChangedFor(Listing(EntryRoots(vs)), vs) + ErrorsFor(Listing(VanishedRoots(vs)), vs)
  }

  // ---- The loop ----

  lemma ListingInsert(s: set<string>, x: string)
    ensures Insert(Listing(s), x) == Listing(s + {x})
  {
    ListingSorted(s);
    ListingSorted(s + {x});
    InsertSorted(Listing(s), x);
    SortedUnique(Insert(Listing(s), x), Listing(s + {x}));
  }

  lemma EntriesStep(vs: seq<Verdict>, v: Verdict, root: string)
    ensures EntriesUnder(vs + [v], root)
            == EntriesUnder(vs, root) + (if v.Entry? && v.root == root then {v.rel} else {})
  {
  }

  lemma RootsStep(vs: seq<Verdict>, v: Verdict)
    ensures EntryRoots(vs + [v]) == EntryRoots(vs) + (if v.Entry? then {v.root} else {})
    ensures VanishedRoots(vs + [v]) == VanishedRoots(vs) + (if v.Vanished? then {v.root} else {})
  {
  }

  lemma {:induction false} FirstStays(vs: seq<Verdict>, v: Verdict, root: string)
    ensures root in VanishedRoots(vs) ==> FirstVanished(vs + [v], root) == FirstVanished(vs, root)
    ensures root !in VanishedRoots(vs) && v.Vanished? && v.root == root ==> FirstVanished(vs + [v], root) == v.path
  {
    if vs == [] {
      assert (vs + [v])[0] == v;
    } else {
      assert (vs + [v])[0] == vs[0] && (vs + [v])[1..] == vs[1..] + [v];
      FirstStays(vs[1..], v, root);
      if root in VanishedRoots(vs) && !(vs[0].Vanished? && vs[0].root == root) {
        var w :| w in vs && w.Vanished? && w.root == root;
        assert w in vs[1..];
      }
      if root in VanishedRoots(vs[1..]) {
        var w :| w in vs[1..] && w.Vanished? && w.root == root;
        assert w in vs;
      }
      if root !in VanishedRoots(vs) && vs[0].Vanished? { assert vs[0] in vs; assert vs[0].root != root; }
    }
  }

  ghost predicate BucketOk(buckets: map<string, seq<string>>, vs: seq<Verdict>, k: string) {
    && (k in buckets <==> k in EntryRoots(vs))
    && (k in buckets ==> buckets[k] == Listing(EntriesUnder(vs, k)))
  }

  ghost predicate GoneOk(gone: map<string, Path>, vs: seq<Verdict>, k: string) {
    && (k in gone <==> k in VanishedRoots(vs))
    && (k in gone ==> gone[k] == FirstVanished(vs, k))
  }

  ghost predicate Holds(keys: seq<string>, buckets: map<string, seq<string>>, vs: seq<Verdict>) {
    keys == Listing(EntryRoots(vs)) && forall k :: BucketOk(buckets, vs, k)
  }

  ghost predicate Missing(keys: seq<string>, gone: map<string, Path>, vs: seq<Verdict>) {
    keys == Listing(VanishedRoots(vs)) && forall k :: GoneOk(gone, vs, k)
  }

  function Bucket(buckets: map<string, seq<string>>, k: string): seq<string> {
    if k in buckets then buckets[k] else []
  }

  lemma NoEntries(vs: seq<Verdict>, k: string)
    requires k !in EntryRoots(vs)
    ensures EntriesUnder(vs, k) == {}
  {
  }

  function WithEntry(buckets: map<string, seq<string>>, root: string, rel: string): map<string, seq<string>> {
    buckets[root := Insert(Bucket(buckets, root), rel)]
  }

  lemma EntryBucket(buckets: map<string, seq<string>>, vs: seq<Verdict>, v: Verdict, k: string)
    requires v.Entry? && BucketOk(buckets, vs, k)
    ensures BucketOk(WithEntry(buckets, v.root, v.rel), vs + [v], k)
  {
    RootsStep(vs, v);
    EntriesStep(vs, v, k);
    if k == v.root {
      if k !in buckets { NoEntries(vs, k); }
      ListingInsert(EntriesUnder(vs, k), v.rel);
    } else {
      assert EntriesUnder(vs + [v], k) == EntriesUnder(vs, k);
    }
  }

  lemma EntryHolds(keys: seq<string>, buckets: map<string, seq<string>>, vs: seq<Verdict>, v: Verdict)
    requires Holds(keys, buckets, vs) && v.Entry?
    ensures Holds(Insert(keys, v.root), WithEntry(buckets, v.root, v.rel), vs + [v])
  {
    RootsStep(vs, v);
    ListingInsert(EntryRoots(vs), v.root);
    forall k ensures BucketOk(WithEntry(buckets, v.root, v.rel), vs + [v], k) { EntryBucket(buckets, vs, v, k); }
  }

  lemma OtherBucket(buckets: map<string, seq<string>>, vs: seq<Verdict>, v: Verdict, k: string)
    requires !v.Entry? && BucketOk(buckets, vs, k)
    ensures BucketOk(buckets, vs + [v], k)
  {
    RootsStep(vs, v);
    EntriesStep(vs, v, k);
    assert EntriesUnder(vs + [v], k) == EntriesUnder(vs, k);
  }

  lemma OtherHolds(keys: seq<string>, buckets: map<string, seq<string>>, vs: seq<Verdict>, v: Verdict)
    requires Holds(keys, buckets, vs) && !v.Entry?
    ensures Holds(keys, buckets, vs + [v])
  {
    RootsStep(vs, v);
    assert EntryRoots(vs + [v]) == EntryRoots(vs);
    forall k ensures BucketOk(buckets, vs + [v], k) { OtherBucket(buckets, vs, v, k); }
  }

  function WithGone(gone: map<string, Path>, root: string, path: Path): map<string, Path> {
    if root in gone then gone else gone[root := path]
  }

  lemma GoneStep(gone: map<string, Path>, vs: seq<Verdict>, v: Verdict, k: string)
    requires GoneOk(gone, vs, k) && (v.Vanished? ==> GoneOk(gone, vs, v.root))
    ensures GoneOk(if v.Vanished? then WithGone(gone, v.root, v.path) else gone, vs + [v], k)
  {
    RootsStep(vs, v);
    FirstStays(vs, v, k);
  }

  lemma VanishedMissing(keys: seq<string>, gone: map<string, Path>, vs: seq<Verdict>, v: Verdict)
    requires Missing(keys, gone, vs) && v.Vanished?
    ensures Missing(Insert(keys, v.root), WithGone(gone, v.root, v.path), vs + [v])
  {
    RootsStep(vs, v);
    ListingInsert(VanishedRoots(vs), v.root);
    forall k ensures GoneOk(WithGone(gone, v.root, v.path), vs + [v], k) { GoneStep(gone, vs, v, k); }
  }

  lemma OtherMissing(keys: seq<string>, gone: map<string, Path>, vs: seq<Verdict>, v: Verdict)
    requires Missing(keys, gone, vs) && !v.Vanished?
    ensures Missing(keys, gone, vs + [v])
  {
    RootsStep(vs, v);
    assert VanishedRoots(vs + [v]) == VanishedRoots(vs);
    forall k ensures GoneOk(gone, vs + [v], k) { GoneStep(gone, vs, v, k); }
  }

  method FindOwner(p: Path, roots: seq<RootMatcher>) returns (r: Option<RootMatcher>)
    ensures r == Route(p, roots)
  {
    r := None;
    var i := 0;
    while i < |roots|
      invariant 0 <= i <= |roots|
      invariant r == Route(p, roots[..i])
    {
      assert roots[..i + 1][..i] == roots[..i] && Last(roots[..i + 1]) == roots[i];
      var m := roots[i];
      if m.path <= p && (r.None? || ByteLen(Render(r.value.path)) <= ByteLen(Render(m.path))) {
        r := Some(m);
      }
      i := i + 1;
    }
    assert roots[..i] == roots;
  }

  method JudgePath(p: Path, roots: seq<RootMatcher>, disk: Disk, showIgnored: bool) returns (v: Verdict)
    requires AllNames(p)
    ensures v == Judge(p, roots, disk, showIgnored)
  {
    var owner := FindOwner(p, roots);
    if owner.None? {
      return Dropped;
    }
    var m := owner.value;
    RouteIsDeepest(p, roots);
    var rel := p[|m.path|..];
    if IsGitInternal(rel) {
      return Dropped;
    }
    var relStr := RelToWireString(rel);
    if relStr == "" {
      return if p in disk.existing then Entry(m.root, "*") else Vanished(m.root, p);
    }
    var isDirHint := p in disk.dirs;
    if (rel, isDirHint) in m.ignores && !showIgnored {
      return Dropped;
    }
    v := Entry(m.root, relStr);
  }

  /** What the loop has gathered. */
  datatype Batch =
    Batch(keys: seq<string>, buckets: map<string, seq<string>>, goneKeys: seq<string>, gone: map<string, Path>)

  function Absorb(b: Batch, v: Verdict): Batch {
    match v
    case Dropped => b
    case Entry(root, rel) => b.(keys := Insert(b.keys, root), buckets := WithEntry(b.buckets, root, rel))
    case Vanished(root, path) => b.(goneKeys := Insert(b.goneKeys, root), gone := WithGone(b.gone, root, path))
  }

  ghost predicate Gathered(b: Batch, vs: seq<Verdict>) {
    Holds(b.keys, b.buckets, vs) && Missing(b.goneKeys, b.gone, vs)
  }

  lemma AbsorbGathers(b: Batch, vs: seq<Verdict>, v: Verdict)
    requires Gathered(b, vs)
    ensures Gathered(Absorb(b, v), vs + [v])
  {
    if v.Entry? { EntryHolds(b.keys, b.buckets, vs, v); } else { OtherHolds(b.keys, b.buckets, vs, v); }
    if v.Vanished? { VanishedMissing(b.goneKeys, b.gone, vs, v); } else { OtherMissing(b.goneKeys, b.gone, vs, v); }
  }

  lemma VerdictsStep(raw: seq<Path>, i: nat, roots: seq<RootMatcher>, disk: Disk, showIgnored: bool)
    requires i < |raw|
    ensures Verdicts(raw[..i + 1], roots, disk, showIgnored)
         == Verdicts(raw[..i], roots, disk, showIgnored) + [Judge(raw[i], roots, disk, showIgnored)]
  {
  }

  /** `build_changed_events`; sorted sequences stand for the ordered sets and map keys. */
  method BuildChangedEvents(raw: seq<Path>, roots: seq<RootMatcher>, disk: Disk, showIgnored: bool)
    returns (out: seq<FsEvent>)
    requires forall i :: 0 <= i < |raw| ==> AllNames(raw[i])
    ensures out == Output(Verdicts(raw, roots, disk, showIgnored))
  {
    var keys, buckets, goneKeys, gone := [], map[], [], map[];
    ghost var vs := [];
    var i := 0;
    while i < |raw|
      invariant 0 <= i <= |raw|
      invariant vs == Verdicts(raw[..i], roots, disk, showIgnored)
      invariant Gathered(Batch(keys, buckets, goneKeys, gone), vs)
    {
      var v := JudgePath(raw[i], roots, disk, showIgnored);
      VerdictsStep(raw, i, roots, disk, showIgnored);
      AbsorbGathers(Batch(keys, buckets, goneKeys, gone), vs, v);
      match v {
        case Entry(root, rel) =>
          keys := Insert(keys, root);
          buckets := WithEntry(buckets, root, rel);
        case Vanished(root, path) =>
          goneKeys := Insert(goneKeys, root);
          gone := WithGone(gone, root, path);
        case Dropped =>
      }
      vs := vs + [v];
      i := i + 1;
    }
    assert raw[..i] == raw;
    var changed := Emit(keys, buckets, vs);
    var errors := EmitErrors(goneKeys, gone, vs);
    out := changed + errors;
  }

  lemma OneChange(keys: seq<string>, buckets: map<string, seq<string>>, vs: seq<Verdict>, i: nat)
    requires Holds(keys, buckets, vs) && i < |keys|
    ensures keys[i] in buckets && Changed(keys[i], RelPaths(buckets[keys[i]])) == ChangeOf(vs, keys[i])
  {
    assert keys[i] in keys && BucketOk(buckets, vs, keys[i]);
  }

  method Emit(keys: seq<string>, buckets: map<string, seq<string>>, ghost vs: seq<Verdict>) returns (out: seq<FsEvent>)
    requires Holds(keys, buckets, vs)
    ensures out == ChangedFor(keys, vs)
  {
    out := [];
    var i := 0;
    while i < |keys|
      invariant 0 <= i == |out| <= |keys|
      invariant forall j :: 0 <= j < i ==> out[j] == ChangeOf(vs, keys[j])
    {
      OneChange(keys, buckets, vs, i);
      out := out + [Changed(keys[i], RelPaths(buckets[keys[i]]))];
      i := i + 1;
    }
  }

  method EmitErrors(keys: seq<string>, gone: map<string, Path>, ghost vs: seq<Verdict>) returns (out: seq<FsEvent>)
    requires Missing(keys, gone, vs)
    ensures out == ErrorsFor(keys, vs)
  {
    out := [];
    var i := 0;
    while i < |keys|
      invariant 0 <= i == |out| <= |keys|
      invariant forall j :: 0 <= j < i ==> out[j] == ErrorOf(vs, keys[j])
    {
      assert keys[i] in keys && GoneOk(gone, vs, keys[i]);
      out := out + [WatchError(keys[i], gone[keys[i]])];
      i := i + 1;
    }
  }

  // ---- Order and repetition do not matter ----

  ghost predicate SameElements<T(!new)>(a: seq<T>, b: seq<T>) { forall x :: x in a <==> x in b }

  /** A vanished root's path is the root's own. */
  ghost predicate OnePathPerRoot(vs: seq<Verdict>) {
    forall v, w :: v in vs && w in vs && v.Vanished? && w.Vanished? && v.root == w.root ==> v.path == w.path
  }

  lemma {:induction false} FirstVanishedIsIn(vs: seq<Verdict>, root: string)
    requires root in VanishedRoots(vs)
    ensures Vanished(root, FirstVanished(vs, root)) in vs
  {
    if !(vs[0].Vanished? && vs[0].root == root) {
      var w :| w in vs && w.Vanished? && w.root == root;
      assert w in vs[1..];
      FirstVanishedIsIn(vs[1..], root);
    }
  }

  lemma SameSets(vs: seq<Verdict>, ws: seq<Verdict>)
    requires SameElements(vs, ws)
    ensures EntryRoots(vs) == EntryRoots(ws) && VanishedRoots(vs) == VanishedRoots(ws)
  {
  }

  lemma SameChange(vs: seq<Verdict>, ws: seq<Verdict>, k: string)
    requires SameElements(vs, ws)
    ensures ChangeOf(vs, k) == ChangeOf(ws, k)
  {
    assert EntriesUnder(vs, k) == EntriesUnder(ws, k);
  }

  lemma SameError(vs: seq<Verdict>, ws: seq<Verdict>, k: string)
    requires SameElements(vs, ws) && OnePathPerRoot(vs) && k in VanishedRoots(vs) && k in VanishedRoots(ws)
    ensures ErrorOf(vs, k) == ErrorOf(ws, k)
  {
    FirstVanishedIsIn(vs, k);
    FirstVanishedIsIn(ws, k);
  }

  lemma SameErrors(keys: seq<string>, vs: seq<Verdict>, ws: seq<Verdict>)
    requires SameElements(vs, ws) && OnePathPerRoot(vs)
    requires forall k :: k in keys ==> k in VanishedRoots(vs) && k in VanishedRoots(ws)
    ensures ErrorsFor(keys, vs) == ErrorsFor(keys, ws)
  {
    forall i | 0 <= i < |keys| ensures ErrorsFor(keys, vs)[i] == ErrorsFor(keys, ws)[i] { SameError(vs, ws, keys[i]); }
  }

  lemma SameChanges(keys: seq<string>, vs: seq<Verdict>, ws: seq<Verdict>)
    requires SameElements(vs, ws)
    ensures ChangedFor(keys, vs) == ChangedFor(keys, ws)
  {
    forall i | 0 <= i < |keys| ensures ChangedFor(keys, vs)[i] == ChangedFor(keys, ws)[i] {
      SameChange(vs, ws, keys[i]);
    }
  }

  lemma SameOutput(vs: seq<Verdict>, ws: seq<Verdict>)
    requires SameElements(vs, ws) && OnePathPerRoot(vs)
    ensures Output(vs) == Output(ws)
  {
    SameSets(vs, ws);
    SameChanges(Listing(EntryRoots(vs)), vs, ws);
    SameErrors(Listing(VanishedRoots(vs)), vs, ws);
  }

  lemma VerdictIn(raw: seq<Path>, roots: seq<RootMatcher>, disk: Disk, showIgnored: bool, v: Verdict)
    ensures v in Verdicts(raw, roots, disk, showIgnored)
            <==> exists p :: p in raw && Judge(p, roots, disk, showIgnored) == v
  {
    var vs := Verdicts(raw, roots, disk, showIgnored);
    if v in vs {
      var i :| 0 <= i < |vs| && vs[i] == v;
      assert raw[i] in raw && Judge(raw[i], roots, disk, showIgnored) == v;
    }
    if p :| p in raw && Judge(p, roots, disk, showIgnored) == v {
      var i :| 0 <= i < |raw| && raw[i] == p;
      assert vs[i] == v;
    }
  }

  lemma VanishedIsItsRoot(p: Path, roots: seq<RootMatcher>, disk: Disk, showIgnored: bool)
    requires AllNames(p) && Judge(p, roots, disk, showIgnored).Vanished?
    ensures Route(p, roots).Some? && Route(p, roots).value.path == p
    ensures Judge(p, roots, disk, showIgnored) == Vanished(Route(p, roots).value.root, p)
  {
  }

  lemma RootsNamePaths(raw: seq<Path>, roots: seq<RootMatcher>, disk: Disk, showIgnored: bool)
    requires (forall p :: p in raw ==> AllNames(p)) && DistinctRoots(roots)
    ensures OnePathPerRoot(Verdicts(raw, roots, disk, showIgnored))
  {
    var vs := Verdicts(raw, roots, disk, showIgnored);
    forall v, w | v in vs && w in vs && v.Vanished? && w.Vanished? && v.root == w.root ensures v.path == w.path {
      VerdictIn(raw, roots, disk, showIgnored, v);
      VerdictIn(raw, roots, disk, showIgnored, w);
      var p :| p in raw && Judge(p, roots, disk, showIgnored) == v;
      var q :| q in raw && Judge(q, roots, disk, showIgnored) == w;
      VanishedIsItsRoot(p, roots, disk, showIgnored);
      VanishedIsItsRoot(q, roots, disk, showIgnored);
      RouteIsDeepest(p, roots);
      RouteIsDeepest(q, roots);
    }
  }

  /** With distinct roots the events depend only on which roots are watched and which paths changed,
      not on the order of either nor on how often a path is reported. */
  lemma OrderFree(raw: seq<Path>, again: seq<Path>, roots: seq<RootMatcher>, others: seq<RootMatcher>, disk: Disk,
                  showIgnored: bool)
    requires DistinctRoots(roots) && forall p :: p in raw ==> AllNames(p)
    requires SameElements(raw, again) && SameElements(roots, others)
    ensures Output(Verdicts(raw, roots, disk, showIgnored)) == Output(Verdicts(again, others, disk, showIgnored))
  {
    var vs, ws := Verdicts(raw, roots, disk, showIgnored), Verdicts(again, others, disk, showIgnored);
    forall p | p in raw ensures Judge(p, roots, disk, showIgnored) == Judge(p, others, disk, showIgnored) {
      RouteOrderFree(p, roots, others);
    }
    forall v ensures v in vs <==> v in ws {
      VerdictIn(raw, roots, disk, showIgnored, v);
      VerdictIn(again, others, disk, showIgnored, v);
    }
    RootsNamePaths(raw, roots, disk, showIgnored);
    SameOutput(vs, ws);
  }

  /** Two strings for one canonical root break this: the one listed last gets the event. */
  lemma SameRootTwice()
    ensures var a, b := RootMatcher("/a", ["x"], {}), RootMatcher("/b", ["x"], {});
            && Judge(["x", "f"], [a, b], Disk({}, {}), false) == Entry("/b", "f")
            && Judge(["x", "f"], [b, a], Disk({}, {}), false) == Entry("/a", "f")
  {
    var a, b, p := RootMatcher("/a", ["x"], {}), RootMatcher("/b", ["x"], {}), ["x", "f"];
    assert ["x"] <= p && p[1..] == ["f"];
    assert [a, b][..1] == [a] && [b, a][..1] == [b] && [a][..0] == [] && [b][..0] == [];
    assert Route(p, [a]) == Some(a) && Route(p, [b]) == Some(b);
    assert Route(p, [a, b]) == Some(b) && Route(p, [b, a]) == Some(a);
    assert Joined(["f"]) == "f" + Tail([]) == "f";
    assert Slashed("f") == "f";
    assert ".git" !in ["f"];
  }

  // ---- When the order of roots matters ----

  /** The last matcher for a path of its own gets it. */
  lemma LastOwnerWins(roots: seq<RootMatcher>, m: RootMatcher)
    requires AllNames(m.path)
    ensures Route(m.path, roots + [m]) == Some(m)
  {
    assert (roots + [m])[..|roots|] == roots;
    RouteIsDeepest(m.path, roots);
    var best := Route(m.path, roots);
    if best.Some? { ByteLengthIsDepth(m.path, best.value.path, m.path); }
  }

  /** What a change of the root itself is reported as. */
  function OwnVerdict(m: RootMatcher, disk: Disk): Verdict {
    if m.path in disk.existing then Entry(m.root, "*") else Vanished(m.root, m.path)
  }

  lemma JudgeOwnPath(roots: seq<RootMatcher>, m: RootMatcher, disk: Disk, showIgnored: bool)
    requires AllNames(m.path)
    ensures Verdicts([m.path], roots + [m], disk, showIgnored) == [OwnVerdict(m, disk)]
  {
    LastOwnerWins(roots, m);
    assert m.path[|m.path|..] == [];
    WireEmpty([]);
  }

  lemma ListingOfOne(x: string)
    ensures Listing({x}) == [x]
  {
    ListingSorted({x});
    assert Listing({x})[0] in Listing({x});
  }

  lemma OneVerdictNamesItsRoot(v: Verdict)
    requires !v.Dropped?
    ensures |Output([v])| == 1 && Output([v])[0].root == v.root
  {
    if v.Entry? {
      assert EntryRoots([v]) == {v.root} by { assert v in [v]; }
      assert VanishedRoots([v]) == {};
    } else {
      assert VanishedRoots([v]) == {v.root} by { assert v in [v]; }
      assert EntryRoots([v]) == {};
    }
    ListingOfOne(v.root);
    ListingSorted({});
  }

  /** Two strings for one canonical root always break it: whatever else is watched and wherever the two
      stand, a change of the root itself is reported under the one listed last. */
  lemma OrderMatters(rest: seq<RootMatcher>, a: RootMatcher, b: RootMatcher, disk: Disk, showIgnored: bool)
    requires AllNames(a.path) && a.path == b.path && a.root != b.root
    ensures Output(Verdicts([a.path], rest + [a] + [b], disk, showIgnored))
         != Output(Verdicts([a.path], rest + [b] + [a], disk, showIgnored))
  {
    JudgeOwnPath(rest + [a], b, disk, showIgnored);
    JudgeOwnPath(rest + [b], a, disk, showIgnored);
    OneVerdictNamesItsRoot(OwnVerdict(a, disk));
    OneVerdictNamesItsRoot(OwnVerdict(b, disk));
  }

  /** Each watched string has one matcher: its canonical path and rules are computed from it. */
  ghost predicate OneMatcherPerString(roots: seq<RootMatcher>) {
    forall a, b :: a in roots && b in roots && a.root == b.root ==> a == b
  }

  ghost predicate SameEitherWay(raw: seq<Path>, roots: seq<RootMatcher>, others: seq<RootMatcher>, disk: Disk,
                                showIgnored: bool) {
    Output(Verdicts(raw, roots, disk, showIgnored)) == Output(Verdicts(raw, others, disk, showIgnored))
  }

  ghost predicate IsReordering(others: seq<RootMatcher>, roots: seq<RootMatcher>) {
    multiset(others) == multiset(roots)
  }

  /** No batch tells one order of the roots from another. */
  ghost predicate RootOrderFree(roots: seq<RootMatcher>) {
    forall raw, others, disk, showIgnored ::
      (forall p :: p in raw ==> AllNames(p)) && IsReordering(others, roots)
      ==> SameEitherWay(raw, roots, others, disk, showIgnored)
  }

  lemma BothAtTheEnd(roots: seq<RootMatcher>, i: nat, j: nat) returns (rest: seq<RootMatcher>)
    requires i < j < |roots|
    ensures IsReordering(rest + [roots[i]] + [roots[j]], roots) && IsReordering(rest + [roots[j]] + [roots[i]], roots)
  {
    rest := roots[..i] + roots[i + 1..j] + roots[j + 1..];
    assert roots == roots[..i] + [roots[i]] + roots[i + 1..j] + [roots[j]] + roots[j + 1..];
  }

  lemma TwoOrdersDiffer(raw: seq<Path>, roots: seq<RootMatcher>, one: seq<RootMatcher>, two: seq<RootMatcher>,
                        disk: Disk, showIgnored: bool)
    requires (forall p :: p in raw ==> AllNames(p)) && IsReordering(one, roots) && IsReordering(two, roots)
    requires Output(Verdicts(raw, one, disk, showIgnored)) != Output(Verdicts(raw, two, disk, showIgnored))
    ensures !RootOrderFree(roots)
  {
    assert !(SameEitherWay(raw, roots, one, disk, showIgnored) && SameEitherWay(raw, roots, two, disk, showIgnored));
  }

  lemma SharedPathBreaksOrder(roots: seq<RootMatcher>, i: nat, j: nat)
    requires i < j < |roots| && AllNames(roots[i].path)
    requires roots[i].path == roots[j].path && roots[i].root != roots[j].root
    ensures !RootOrderFree(roots)
  {
    var a, b, disk := roots[i], roots[j], Disk({}, {});
    var rest := BothAtTheEnd(roots, i, j);
    OrderMatters(rest, a, b, disk, false);
    TwoOrdersDiffer([a.path], roots, rest + [a] + [b], rest + [b] + [a], disk, false);
  }

  lemma DistinctIsOrderFree(roots: seq<RootMatcher>)
    requires DistinctRoots(roots)
    ensures RootOrderFree(roots)
  {
    forall raw, others, disk, showIgnored | (forall p :: p in raw ==> AllNames(p)) && IsReordering(others, roots)
      ensures SameEitherWay(raw, roots, others, disk, showIgnored)
    {
      forall m ensures m in roots <==> m in others { assert m in multiset(roots) <==> m in multiset(others); }
      OrderFree(raw, raw, roots, others, disk, showIgnored);
    }
  }

  /** The order of roots matters to some batch if and only if two of them share a canonical path. */
  lemma OrderFreeExactly(roots: seq<RootMatcher>)
    requires OneMatcherPerString(roots) && forall m :: m in roots ==> AllNames(m.path)
    ensures RootOrderFree(roots) <==> DistinctRoots(roots)
  {
    if DistinctRoots(roots) {
      DistinctIsOrderFree(roots);
    } else {
      var a, b :| a in roots && b in roots && a.path == b.path && a != b;
      var i :| 0 <= i < |roots| && roots[i] == a;
      var j :| 0 <= j < |roots| && roots[j] == b;
      SharedPathBreaksOrder(roots, if i < j then i else j, if i < j then j else i);
    }
  }
}
