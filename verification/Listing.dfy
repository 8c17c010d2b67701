/** One-level directory listing, and what listing lazily from the root adds up to. */
module Listing {
  import opened Wrappers
  import opened Paths
  import opened Tree
  import opened Explorer

  datatype FsEntry = FsEntry(name: Name, relPath: string, isDir: bool, size: nat, isIgnored: bool)

  /** The disk, the order in which each directory's children are read, and which paths an applicable
      `.gitignore` rule covers. */
  datatype World = World(fs: Files, order: map<Path, seq<Name>>, ignored: set<Path>)

  ghost predicate Reads(w: World, dir: Path) {
    && dir in w.order
    && (forall i, j :: 0 <= i < j < |w.order[dir]| ==> w.order[dir][i] != w.order[dir][j])
    && (forall n :: n in w.order[dir] <==> dir + [n] in w.fs)
  }

  ghost predicate Sound(w: World) {
    && WellFormed(w.fs)
    && WellNamed(w.fs)
    && (forall dir :: IsDir(w.fs, dir) ==> Reads(w, dir))
  }

  function TrimSlashes(rel: string): string {
    if rel != "" && Last(rel) == '/' then TrimSlashes(rel[..|rel| - 1]) else rel
  }

  function SizeOf(fs: Files, p: Path): nat {
    if p in fs && fs[p].File? then |fs[p].content| else 0
  }

  function EntryAt(w: World, dir: Path, rel: string, name: Name): FsEntry {
    FsEntry(name, if rel == "" then name else rel + "/" + name, IsDir(w.fs, dir + [name]),
            SizeOf(w.fs, dir + [name]), dir + [name] in w.ignored)
  }

  predicate Skipped(w: World, dir: Path, name: Name, includeIgnored: bool) {
    name == ".git" || (dir + [name] in w.ignored && !includeIgnored)
  }

  function Entries(w: World, dir: Path, rel: string, names: seq<Name>, includeIgnored: bool): seq<FsEntry> {
    if names == [] then []
    else
      var before := Entries(w, dir, rel, names[..|names| - 1], includeIgnored);
      if Skipped(w, dir, Last(names), includeIgnored) then before else before + [EntryAt(w, dir, rel, Last(names))]
  }

  function OrderOf(w: World, dir: Path): seq<Name> { if dir in w.order then w.order[dir] else [] }

  function ListDir(w: World, root: Path, rel: string, includeIgnored: bool): Result<seq<FsEntry>, FsError> {
    match ValidateWithin(w.fs, root, ReadRel(rel))
    case Err(e) => Err(e)
    case Ok(dir) =>
      if !IsDir(w.fs, dir) then Err(NotFound)
      else Ok(Entries(w, dir, TrimSlashes(rel), OrderOf(w, dir), includeIgnored))
  }

  function WithoutGit(names: seq<Name>): seq<Name> {
    if names == [] then []
    else
      var before := WithoutGit(names[..|names| - 1]);
      if Last(names) == ".git" then before else before + [Last(names)]
  }

  lemma {:induction false} GitDropsOut(w: World, dir: Path, rel: string, names: seq<Name>, includeIgnored: bool)
    ensures Entries(w, dir, rel, WithoutGit(names), includeIgnored) == Entries(w, dir, rel, names, includeIgnored)
  {
    if names != [] {
      var init := names[..|names| - 1];
      GitDropsOut(w, dir, rel, init, includeIgnored);
      if Last(names) != ".git" { assert (WithoutGit(init) + [Last(names)])[..|WithoutGit(init)|] == WithoutGit(init); }
    }
  }

  method ReadDirChildren(names: seq<Name>) returns (out: seq<Name>)
    ensures out == WithoutGit(names)
  {
    out := [];
    var i := 0;
    while i < |names|
      invariant 0 <= i <= |names|
      invariant out == WithoutGit(names[..i])
    {
      assert names[..i + 1][..i] == names[..i];
      if names[i] != ".git" {
        out := out + [names[i]];
      }
      i := i + 1;
    }
    assert names[..i] == names;
  }

  method ListDirInner(w: World, root: Path, rel: string, includeIgnored: bool)
    returns (r: Result<seq<FsEntry>, FsError>)
    ensures r == ListDir(w, root, rel, includeIgnored)
  {
    var validated := ValidateWithin(w.fs, root, ReadRel(rel));
    if validated.Err? {
      return Err(validated.error);
    }
    var dir := validated.value;
    if !IsDir(w.fs, dir) {
      return Err(NotFound);
    }
    var children := ReadDirChildren(OrderOf(w, dir));
    forall i | 0 <= i < |children| ensures children[i] != ".git" { WithoutGitHasNone(OrderOf(w, dir), i); }
    var out := Annotate(w, dir, TrimSlashes(rel), children, includeIgnored);
    GitDropsOut(w, dir, TrimSlashes(rel), OrderOf(w, dir), includeIgnored);
    r := Ok(out);
  }

  method Annotate(w: World, dir: Path, relTrimmed: string, children: seq<Name>, includeIgnored: bool)
    returns (out: seq<FsEntry>)
    requires forall i :: 0 <= i < |children| ==> children[i] != ".git"
    ensures out == Entries(w, dir, relTrimmed, children, includeIgnored)
  {
    out := [];
    var i := 0;
    while i < |children|
      invariant 0 <= i <= |children|
      invariant out == Entries(w, dir, relTrimmed, children[..i], includeIgnored)
    {
      var name := children[i];
      assert children[..i + 1] == children[..i] + [name];
      i := i + 1;
      var isIgnored := dir + [name] in w.ignored;
      if isIgnored && !includeIgnored {
        continue;
      }
      out := out + [EntryAt(w, dir, relTrimmed, name)];
    }
    assert children[..i] == children;
  }

  lemma {:induction false} WithoutGitHasNone(names: seq<Name>, i: nat)
    requires i < |WithoutGit(names)|
    ensures WithoutGit(names)[i] != ".git"
  {
    var init := names[..|names| - 1];
    if i < |WithoutGit(init)| { WithoutGitHasNone(init, i); }
  }

  // ---- The short listing is the long one, filtered ----

  function Shown(entries: seq<FsEntry>): seq<FsEntry> {
    if entries == [] then []
    else
      var before := Shown(entries[..|entries| - 1]);
      if Last(entries).isIgnored then before else before + [Last(entries)]
  }

  lemma {:induction false} EntriesShown(w: World, dir: Path, rel: string, names: seq<Name>)
    ensures Entries(w, dir, rel, names, false) == Shown(Entries(w, dir, rel, names, true))
  {
    if names != [] {
      var init := names[..|names| - 1];
      EntriesShown(w, dir, rel, init);
      var long := Entries(w, dir, rel, init, true);
      assert (long + [EntryAt(w, dir, rel, Last(names))])[..|long|] == long;
    }
  }

  /** The listing without ignored entries is the order-preserving filter of the full one. */
  lemma HidingIgnoredFilters(w: World, root: Path, rel: string)
    ensures ListDir(w, root, rel, false).Ok? <==> ListDir(w, root, rel, true).Ok?
    ensures ListDir(w, root, rel, true).Ok? ==>
              ListDir(w, root, rel, false).value == Shown(ListDir(w, root, rel, true).value)
  {
    var v := ValidateWithin(w.fs, root, ReadRel(rel));
    if v.Ok? { EntriesShown(w, v.value, TrimSlashes(rel), OrderOf(w, v.value)); }
  }

  // ---- A relative path addresses the entry it names ----

  lemma {:induction false} WalkNames(fs: Files, root: Path, names: Path)
    requires WellFormed(fs) && root + names in fs && AllNames(names)
    ensures Walk(fs, root, names) == Some(root + names)
  {
    if names == [] {
      assert root + names == root;
    } else {
      var init := names[..|names| - 1];
      assert Grounded(fs, root + names);
      assert (root + names)[..|root| + |init|] == root + init;
      assert IsDir(fs, root + init);
      WalkNames(fs, root, init);
      assert root + init + [Last(names)] == root + names;
      assert IsName(names[|names| - 1]);
    }
  }

  lemma RelAddresses(fs: Files, root: Path, names: Path)
    requires WellFormed(fs) && root + names in fs && AllNames(names) && root in fs
    ensures ValidateWithin(fs, root, ReadRel(Joined(names))) == Ok(root + names)
  {
    WalkNames(fs, root, names);
    if names != [] {
      SplitJoined(names);
      assert Joined(names)[0] == names[0][0];
      assert '/' !in names[0];
    }
  }

  lemma JoinedHasNoTrailingSlash(names: Path)
    requires AllNames(names)
    ensures TrimSlashes(Joined(names)) == Joined(names)
  {
    if names != [] {
      var init, last := names[..|names| - 1], names[|names| - 1];
      assert init + [last] == names;
      TailOfConcat(init, [last]);
      assert Tail([last]) == "/" + last + Tail([]);
      assert Tail(names) == "/" + Joined(names);
      assert Last(Tail(names)) == Last(last);
      assert Last(Joined(names)) == Last(Tail(names));
    }
  }

  lemma ChildRel(names: Path, n: Name)
    requires AllNames(names)
    ensures (if Joined(names) == "" then n else Joined(names) + "/" + n) == Joined(names + [n])
  {
    JoinedLast(names, n);
    if names != [] { assert IsName(names[0]) && |Joined(names)| >= |names[0]|; }
  }

  lemma {:induction false} EntryIn(w: World, dir: Path, rel: string, names: seq<Name>, includeIgnored: bool, e: FsEntry)
    ensures e in Entries(w, dir, rel, names, includeIgnored) <==>
              e.name in names && !Skipped(w, dir, e.name, includeIgnored) && e == EntryAt(w, dir, rel, e.name)
  {
    if names != [] {
      EntryIn(w, dir, rel, names[..|names| - 1], includeIgnored, e);
      assert names == names[..|names| - 1] + [Last(names)];
    }
  }

  /** One name stands before another among those read. */
  predicate Before(names: seq<Name>, n: Name, m: Name) {
    exists a, b :: 0 <= a < b < |names| && names[a] == n && names[b] == m
  }

  lemma {:induction false} EntriesInOrder(w: World, dir: Path, rel: string, names: seq<Name>, includeIgnored: bool,
                                          i: nat, j: nat)
    requires i < j < |Entries(w, dir, rel, names, includeIgnored)|
    ensures Before(names, Entries(w, dir, rel, names, includeIgnored)[i].name,
                   Entries(w, dir, rel, names, includeIgnored)[j].name)
  {
    var init := names[..|names| - 1];
    var before := Entries(w, dir, rel, init, includeIgnored);
    if j < |before| {
      EntriesInOrder(w, dir, rel, init, includeIgnored, i, j);
      var a, b :| 0 <= a < b < |init| && init[a] == before[i].name && init[b] == before[j].name;
      assert names[a] == init[a] && names[b] == init[b];
    } else {
      EntryIn(w, dir, rel, init, includeIgnored, before[i]);
      var a :| 0 <= a < |init| && init[a] == before[i].name;
      assert names[a] == init[a] && names[|names| - 1] == Last(names);
    }
  }

  // ---- What a listing shows ----

  /** A path without the slashes at its end. */
  predicate Bare(rel: string, stem: string) {
    && stem <= rel
    && (forall i :: |stem| <= i < |rel| ==> rel[i] == '/')
    && (stem != "" ==> Last(stem) != '/')
  }

  lemma {:induction false} TrimmedIsBare(rel: string, stem: string)
    ensures Bare(rel, stem) <==> stem == TrimSlashes(rel)
  {
    if rel != "" && Last(rel) == '/' {
      var init := rel[..|rel| - 1];
      TrimmedIsBare(init, stem);
      if Bare(rel, stem) {
        assert stem != rel;
        assert stem == rel[..|stem|] == init[..|stem|];
      }
      if Bare(init, stem) { assert stem == init[..|stem|] == rel[..|stem|]; }
    } else {
      assert Bare(rel, rel);
    }
  }

  /** An entry told from the disk: a child of the directory other than `.git`, under its path relative to
      the root; a file has the size of its content and a directory 0. */
  predicate Tells(w: World, dir: Path, stem: string, includeIgnored: bool, e: FsEntry) {
    && dir + [e.name] in w.fs && e.name != ".git"
    && (e.isIgnored <==> dir + [e.name] in w.ignored) && (e.isIgnored ==> includeIgnored)
    && e.relPath == (if stem == "" then e.name else stem + "/" + e.name)
    && match w.fs[dir + [e.name]]
       case Dir => e.isDir && e.size == 0
       case File(content) => !e.isDir && e.size == |content|
  }

  /** A listing that succeeds holds exactly the entries told by the disk, in the order in which the
      directory is read; it fails with the error of the path, or as not found on what is no directory. */
  lemma ListingIs(w: World, root: Path, rel: string, includeIgnored: bool, stem: string, e: FsEntry, x: FsError)
    requires Sound(w) && Bare(rel, stem)
    ensures var r, at := ListDir(w, root, rel, includeIgnored), ValidateWithin(w.fs, root, ReadRel(rel));
            && (r == Err(x) <==> at == Err(x) || (at.Ok? && !IsDir(w.fs, at.value) && x == NotFound))
            && (r.Ok? ==>
                  && (e in r.value <==> Tells(w, at.value, stem, includeIgnored, e))
                  && forall i, j :: 0 <= i < j < |r.value| ==>
                       Before(w.order[at.value], r.value[i].name, r.value[j].name))
  {
    var r, at := ListDir(w, root, rel, includeIgnored), ValidateWithin(w.fs, root, ReadRel(rel));
    if r.Ok? {
      var dir := at.value;
      assert Reads(w, dir);
      TrimmedIsBare(rel, stem);
      EntryIn(w, dir, stem, w.order[dir], includeIgnored, e);
      forall i, j | 0 <= i < j < |r.value| ensures Before(w.order[dir], r.value[i].name, r.value[j].name) {
        EntriesInOrder(w, dir, stem, w.order[dir], includeIgnored, i, j);
      }
    }
  }

  // ---- Lazy descent ----

  /** One entry met on the way down, with the components of the path it stands for. */
  datatype Visit = Visit(names: Path, entry: FsEntry)

  ghost predicate Ready(w: World, root: Path, names: Path) {
    Sound(w) && root in w.fs && IsDir(w.fs, root + names)
  }

  lemma NamesBelow(w: World, root: Path, names: Path)
    requires Sound(w) && root + names in w.fs
    ensures AllNames(names)
  {
    assert AllNames(root + names);
    assert forall i :: 0 <= i < |names| ==> names[i] == (root + names)[|root| + i];
  }

  /** A relative path lists the directory it names, under that same path. */
  lemma ListingOf(w: World, root: Path, names: Path)
    requires Ready(w, root, names)
    ensures ListDir(w, root, Joined(names), true)
            == Ok(Entries(w, root + names, Joined(names), w.order[root + names], true))
  {
    NamesBelow(w, root, names);
    RelAddresses(w.fs, root, names);
    JoinedHasNoTrailingSlash(names);
    assert Reads(w, root + names);
  }

  /** What listing by a relative path returns. */
  ghost function EntriesOf(w: World, root: Path, names: Path): (entries: seq<FsEntry>)
    requires Ready(w, root, names)
    ensures entries == Entries(w, root + names, Joined(names), w.order[root + names], true)
  {
    ListingOf(w, root, names);
    ListDir(w, root, Joined(names), true).value
  }

  lemma ChildIsSmaller(fs: Files, p: Path, n: Name)
    requires p in fs
    ensures |Below(fs, p + [n])| < |Below(fs, p)|
  {
    var child := Below(fs, p + [n]).Keys;
    forall q | q in child ensures q in Below(fs, p) && q != p {
      assert p <= p + [n] <= q;
    }
    ProperSubset(child, Below(fs, p).Keys, p);
  }

  lemma ProperSubset(a: set<Path>, b: set<Path>, x: Path)
    requires a <= b && x in b && x !in a
    ensures |a| < |b|
  {
    assert a <= b - {x};
    Subset(a, b - {x});
  }

  lemma {:induction false} Subset(a: set<Path>, b: set<Path>)
    requires a <= b
    ensures |a| <= |b|
  {
    if a != {} {
      var x :| x in a;
      Subset(a - {x}, b - {x});
    }
  }

  /** The entry that stands for the path with these components below the root. */
  function Shows(w: World, root: Path, names: Path): FsEntry
    requires names != []
  {
    FsEntry(Last(names), Joined(names), IsDir(w.fs, root + names), SizeOf(w.fs, root + names),
            root + names in w.ignored)
  }

  lemma EntryStands(w: World, root: Path, names: Path, i: nat)
    requires Ready(w, root, names) && i < |EntriesOf(w, root, names)|
    ensures var e := EntriesOf(w, root, names)[i];
            && e.name != ".git"
            && root + (names + [e.name]) in w.fs
            && AllNames(names + [e.name])
            && e.relPath == Joined(names + [e.name])
            && e == Shows(w, root, names + [e.name])
  {
    EntryIn(w, root + names, Joined(names), w.order[root + names], true, EntriesOf(w, root, names)[i]);
    var e := EntriesOf(w, root, names)[i];
    assert Reads(w, root + names);
    assert root + names + [e.name] == root + (names + [e.name]);
    NamesBelow(w, root, names);
    NamesBelow(w, root, names + [e.name]);
    ChildRel(names, e.name);
  }

  /** List a directory by its relative path, and do the same for each subdirectory met; its relative path
      is the one its entry carries (`EntryStands`). */
  ghost function Descend(w: World, root: Path, names: Path): seq<Visit>
    requires Ready(w, root, names)
    decreases |Below(w.fs, root + names)|, |EntriesOf(w, root, names)| + 1
  {
    VisitFrom(w, root, names, 0)
  }

  /** From the i-th entry of one listing on. */
  ghost function VisitFrom(w: World, root: Path, names: Path, i: nat): seq<Visit>
    requires Ready(w, root, names) && i <= |EntriesOf(w, root, names)|
    decreases |Below(w.fs, root + names)|, |EntriesOf(w, root, names)| - i
  {
    if i == |EntriesOf(w, root, names)| then []
    else
      EntryStands(w, root, names, i);
      var e := EntriesOf(w, root, names)[i];
      var child := names + [e.name];
      ChildIsSmaller(w.fs, root + names, e.name);
      assert root + names + [e.name] == root + child;
      [Visit(child, e)] + (if e.isDir then Descend(w, root, child) else []) + VisitFrom(w, root, names, i + 1)
  }

  /** A visit's entry addresses the path it stands for. */
  ghost predicate VisitOk(w: World, root: Path, names: Path, v: Visit) {
    && |names| < |v.names| && names <= v.names
    && root + v.names in w.fs
    && (forall k :: |names| <= k < |v.names| ==> v.names[k] != ".git")
    && v.entry == Shows(w, root, v.names)
  }

  /** The entry under which a visit was found. */
  ghost predicate StepsTo(v: Visit, names: Path, n: Name) {
    |names| < |v.names| && v.names[|names|] == n
  }

  ghost predicate UnderSome(v: Visit, names: Path, entries: seq<FsEntry>, i: nat) {
    exists j :: i <= j < |entries| && StepsTo(v, names, entries[j].name)
  }

  lemma HeadOk(w: World, root: Path, names: Path, i: nat)
    requires Ready(w, root, names) && i < |EntriesOf(w, root, names)|
    ensures var e := EntriesOf(w, root, names)[i];
            VisitOk(w, root, names, Visit(names + [e.name], e)) && StepsTo(Visit(names + [e.name], e), names, e.name)
  {
    EntryStands(w, root, names, i);
  }

  lemma OkFromChild(w: World, root: Path, names: Path, n: Name, v: Visit)
    requires VisitOk(w, root, names + [n], v) && n != ".git"
    ensures VisitOk(w, root, names, v) && StepsTo(v, names, n)
  {
  }

  ghost function BelowEntry(w: World, root: Path, names: Path, i: nat): seq<Visit>
    requires Ready(w, root, names) && i < |EntriesOf(w, root, names)|
  {
    EntryStands(w, root, names, i);
    var e := EntriesOf(w, root, names)[i];
    if e.isDir then Descend(w, root, names + [e.name]) else []
  }

  lemma Unfolded(w: World, root: Path, names: Path, i: nat)
    requires Ready(w, root, names) && i < |EntriesOf(w, root, names)|
    ensures var e := EntriesOf(w, root, names)[i];
            VisitFrom(w, root, names, i)
            == [Visit(names + [e.name], e)] + BelowEntry(w, root, names, i) + VisitFrom(w, root, names, i + 1)
  {
  }

  lemma OneDown(root: Path, names: Path, n: Name)
    ensures root + names + [n] == root + (names + [n])
  {
  }

  lemma StepShrinks(w: World, root: Path, names: Path, n: Name)
    requires Ready(w, root, names)
    ensures |Below(w.fs, root + (names + [n]))| < |Below(w.fs, root + names)|
  {
    OneDown(root, names, n);
    ChildIsSmaller(w.fs, root + names, n);
  }

  lemma Shrinks(w: World, root: Path, names: Path, i: nat)
    requires Ready(w, root, names) && i < |EntriesOf(w, root, names)|
    ensures var child := names + [EntriesOf(w, root, names)[i].name];
            |Below(w.fs, root + child)| < |Below(w.fs, root + names)|
            && (EntriesOf(w, root, names)[i].isDir ==> Ready(w, root, child))
  {
    StepShrinks(w, root, names, EntriesOf(w, root, names)[i].name);
    EntryStands(w, root, names, i);
  }

  lemma InThree<T>(x: T, ys: seq<T>, zs: seq<T>, v: T)
    ensures v in [x] + ys + zs <==> v == x || v in ys || v in zs
  {
  }

  /** Every visit stands for an entry below, found under one of the listed entries. */
  lemma {:induction false} VisitsOk(w: World, root: Path, names: Path, i: nat, v: Visit)
    requires Ready(w, root, names) && i <= |EntriesOf(w, root, names)| && v in VisitFrom(w, root, names, i)
    ensures VisitOk(w, root, names, v) && UnderSome(v, names, EntriesOf(w, root, names), i)
    decreases |Below(w.fs, root + names)|, |EntriesOf(w, root, names)| - i
  {
    Unfolded(w, root, names, i);
    Shrinks(w, root, names, i);
    HeadOk(w, root, names, i);
    var e := EntriesOf(w, root, names)[i];
    InThree(Visit(names + [e.name], e), BelowEntry(w, root, names, i), VisitFrom(w, root, names, i + 1), v);
    if v in BelowEntry(w, root, names, i) {
      VisitsOk(w, root, names + [e.name], 0, v);
      EntryStands(w, root, names, i);
      OkFromChild(w, root, names, e.name, v);
    } else if v in VisitFrom(w, root, names, i + 1) {
      VisitsOk(w, root, names, i + 1, v);
    }
  }

  // ---- Once each ----

  ghost predicate Distinct(vs: seq<Visit>) {
    forall a, b :: 0 <= a < b < |vs| ==> vs[a].names != vs[b].names
  }

  lemma DistinctThree(x: Visit, ys: seq<Visit>, zs: seq<Visit>)
    requires Distinct(ys) && Distinct(zs)
    requires forall y :: y in ys ==> y.names != x.names
    requires forall z :: z in zs ==> z.names != x.names
    requires forall y, z :: y in ys && z in zs ==> y.names != z.names
    ensures Distinct([x] + ys + zs)
  {
  }

  lemma StepsDiffer(w: World, root: Path, names: Path, i: nat, v: Visit)
    requires Ready(w, root, names) && i < |EntriesOf(w, root, names)|
    requires UnderSome(v, names, EntriesOf(w, root, names), i + 1)
    ensures !StepsTo(v, names, EntriesOf(w, root, names)[i].name)
  {
    var entries := EntriesOf(w, root, names);
    var j :| i + 1 <= j < |entries| && StepsTo(v, names, entries[j].name);
    assert Reads(w, root + names);
    EntriesInOrder(w, root + names, Joined(names), w.order[root + names], true, i, j);
  }

  lemma {:induction false} VisitsDistinct(w: World, root: Path, names: Path, i: nat)
    requires Ready(w, root, names) && i <= |EntriesOf(w, root, names)|
    ensures Distinct(VisitFrom(w, root, names, i))
    decreases |Below(w.fs, root + names)|, |EntriesOf(w, root, names)| - i
  {
    if i < |EntriesOf(w, root, names)| {
      Unfolded(w, root, names, i);
      Shrinks(w, root, names, i);
      HeadOk(w, root, names, i);
      var e := EntriesOf(w, root, names)[i];
      var child, below, rest := names + [e.name], BelowEntry(w, root, names, i), VisitFrom(w, root, names, i + 1);
      if e.isDir { VisitsDistinct(w, root, child, 0); }
      VisitsDistinct(w, root, names, i + 1);
      forall v | v in below ensures v.names != child && StepsTo(v, names, e.name) { BelowSteps(w, root, names, i, v); }
      forall v | v in rest ensures !StepsTo(v, names, e.name) {
        VisitsOk(w, root, names, i + 1, v);
        StepsDiffer(w, root, names, i, v);
      }
      DistinctThree(Visit(child, e), below, rest);
    }
  }

  lemma BelowSteps(w: World, root: Path, names: Path, i: nat, v: Visit)
    requires Ready(w, root, names) && i < |EntriesOf(w, root, names)| && v in BelowEntry(w, root, names, i)
    ensures var n := EntriesOf(w, root, names)[i].name; v.names != names + [n] && StepsTo(v, names, n)
  {
    EntryStands(w, root, names, i);
    Shrinks(w, root, names, i);
    var n := EntriesOf(w, root, names)[i].name;
    VisitsOk(w, root, names + [n], 0, v);
    OkFromChild(w, root, names, n, v);
  }

  // ---- All of them ----

  lemma {:induction false} LaterVisits(w: World, root: Path, names: Path, i: nat, j: nat, v: Visit)
    requires Ready(w, root, names) && i <= j <= |EntriesOf(w, root, names)| && v in VisitFrom(w, root, names, j)
    ensures v in VisitFrom(w, root, names, i)
    decreases j - i
  {
    if i < j {
      LaterVisits(w, root, names, i + 1, j, v);
      Unfolded(w, root, names, i);
    }
  }

  lemma EntryIndex(w: World, root: Path, names: Path, n: Name) returns (j: nat)
    requires Ready(w, root, names) && root + names + [n] in w.fs && n != ".git"
    ensures j < |EntriesOf(w, root, names)| && EntriesOf(w, root, names)[j].name == n
  {
    assert Reads(w, root + names);
    EntryIn(w, root + names, Joined(names), w.order[root + names], true, EntryAt(w, root + names, Joined(names), n));
    var entries := EntriesOf(w, root, names);
    j :| 0 <= j < |entries| && entries[j] == EntryAt(w, root + names, Joined(names), n);
  }

  lemma FirstStep(fs: Files, dir: Path, t: Path)
    requires WellFormed(fs) && t != [] && dir + t in fs
    ensures dir + [t[0]] in fs && dir + [t[0]] + t[1..] == dir + t
    ensures |t| > 1 ==> IsDir(fs, dir + [t[0]])
  {
    assert Grounded(fs, dir + t);
    assert (dir + t)[..|dir| + 1] == dir + [t[0]];
    if |t| == 1 { assert dir + t == dir + [t[0]]; } else { assert IsDir(fs, (dir + t)[..|dir| + 1]); }
  }

  lemma HeadIsVisited(w: World, root: Path, names: Path, j: nat)
    requires Ready(w, root, names) && j < |EntriesOf(w, root, names)|
    ensures Visit(names + [EntriesOf(w, root, names)[j].name], EntriesOf(w, root, names)[j]) in Descend(w, root, names)
  {
    var e := EntriesOf(w, root, names)[j];
    Unfolded(w, root, names, j);
    var v := Visit(names + [e.name], e);
    InThree(v, BelowEntry(w, root, names, j), VisitFrom(w, root, names, j + 1), v);
    LaterVisits(w, root, names, 0, j, v);
  }

  lemma BelowIsVisited(w: World, root: Path, names: Path, j: nat, v: Visit)
    requires Ready(w, root, names) && j < |EntriesOf(w, root, names)| && v in BelowEntry(w, root, names, j)
    ensures v in Descend(w, root, names)
  {
    var e := EntriesOf(w, root, names)[j];
    Unfolded(w, root, names, j);
    InThree(Visit(names + [e.name], e), BelowEntry(w, root, names, j), VisitFrom(w, root, names, j + 1), v);
    LaterVisits(w, root, names, 0, j, v);
  }

  lemma BelowDirectory(w: World, root: Path, names: Path, j: nat, n: Name)
    requires Ready(w, root, names) && j < |EntriesOf(w, root, names)| && EntriesOf(w, root, names)[j].name == n
    requires IsDir(w.fs, root + names + [n])
    ensures Ready(w, root, names + [n]) && BelowEntry(w, root, names, j) == Descend(w, root, names + [n])
  {
    OneDown(root, names, n);
    EntryStands(w, root, names, j);
  }

  /** With more than one component to go, the first step leads to a directory that is listed next. */
  lemma StepDown(w: World, root: Path, names: Path, t: Path) returns (j: nat)
    requires Ready(w, root, names) && |t| > 1 && root + names + t in w.fs && t[0] != ".git"
    ensures Ready(w, root, names + [t[0]]) && root + (names + [t[0]]) + t[1..] in w.fs
    ensures j < |EntriesOf(w, root, names)| && BelowEntry(w, root, names, j) == Descend(w, root, names + [t[0]])
  {
    FirstStep(w.fs, root + names, t);
    OneDown(root, names, t[0]);
    j := EntryIndex(w, root, names, t[0]);
    BelowDirectory(w, root, names, j, t[0]);
  }

  lemma LastStep(w: World, root: Path, names: Path, t: Path) returns (v: Visit)
    requires Ready(w, root, names) && |t| == 1 && root + names + t in w.fs && t[0] != ".git"
    ensures v in Descend(w, root, names) && v.names == names + t
  {
    assert t == [t[0]];
    var j := EntryIndex(w, root, names, t[0]);
    HeadIsVisited(w, root, names, j);
    v := Visit(names + t, EntriesOf(w, root, names)[j]);
  }

  /** Components none of which is `.git`. */
  predicate OutsideGit(t: Path) {
    forall k :: 0 <= k < |t| ==> t[k] != ".git"
  }

  lemma OneLess(names: Path, t: Path)
    requires OutsideGit(t) && t != []
    ensures OutsideGit(t[1..]) && t[0] != ".git" && names + [t[0]] + t[1..] == names + t
  {
  }

  lemma {:induction false} EveryEntryVisited(w: World, root: Path, names: Path, t: Path) returns (v: Visit)
    requires Ready(w, root, names) && t != [] && root + names + t in w.fs && OutsideGit(t)
    ensures v in Descend(w, root, names) && v.names == names + t
    decreases |t|
  {
    OneLess(names, t);
    if |t| == 1 {
      v := LastStep(w, root, names, t);
    } else {
      var j := StepDown(w, root, names, t);
      v := EveryEntryVisited(w, root, names + [t[0]], t[1..]);
      BelowIsVisited(w, root, names, j, v);
    }
  }

  ghost predicate DistinctRels(vs: seq<Visit>) {
    forall a, b :: 0 <= a < b < |vs| ==> vs[a].entry.relPath != vs[b].entry.relPath
  }

  lemma RelsDiffer(w: World, root: Path, vs: seq<Visit>)
    requires Sound(w) && Distinct(vs) && forall v :: v in vs ==> VisitOk(w, root, [], v)
    ensures DistinctRels(vs)
  {
    forall a, b | 0 <= a < b < |vs| ensures vs[a].entry.relPath != vs[b].entry.relPath {
      assert vs[a] in vs && vs[b] in vs;
      NamesBelow(w, root, vs[a].names);
      NamesBelow(w, root, vs[b].names);
      if Joined(vs[a].names) == Joined(vs[b].names) { JoinedInjective(vs[a].names, vs[b].names); }
    }
  }

  /** Listing the directory by this relative path gives exactly the visits one step below it. */
  ghost predicate ListsVisitsBelow(w: World, root: Path, rel: string, names: Path, vs: seq<Visit>) {
    && ListDir(w, root, rel, true).Ok?
    && (forall e :: e in ListDir(w, root, rel, true).value <==> OneBelow(vs, names, e))
  }

  ghost predicate OneBelow(vs: seq<Visit>, names: Path, e: FsEntry) {
    exists v :: v in vs && v.entry == e && |v.names| == |names| + 1 && names <= v.names
  }

  lemma VisitedAs(w: World, root: Path, t: Path) returns (v: Visit)
    requires Ready(w, root, []) && t != [] && root + t in w.fs && OutsideGit(t)
    ensures v in Descend(w, root, []) && v.names == t && v.entry == Shows(w, root, t)
  {
    assert root + [] + t == root + t;
    assert [] + t == t;
    v := EveryEntryVisited(w, root, [], t);
    VisitsOk(w, root, [], 0, v);
  }

  lemma ListedIsVisited(w: World, root: Path, names: Path, i: nat)
    requires Ready(w, root, []) && Ready(w, root, names) && OutsideGit(names) && i < |EntriesOf(w, root, names)|
    ensures OneBelow(Descend(w, root, []), names, EntriesOf(w, root, names)[i])
  {
    EntryStands(w, root, names, i);
    var v := VisitedAs(w, root, names + [EntriesOf(w, root, names)[i].name]);
  }

  lemma VisitedIsListed(w: World, root: Path, names: Path, v: Visit)
    requires Ready(w, root, names) && VisitOk(w, root, [], v) && |v.names| == |names| + 1 && names <= v.names
    ensures v.entry in EntriesOf(w, root, names)
  {
    var n := v.names[|names|];
    assert v.names == names + [n];
    assert root + names + [n] == root + v.names;
    var j := EntryIndex(w, root, names, n);
    EntryStands(w, root, names, j);
  }

  lemma VisitsAreListings(w: World, root: Path, names: Path)
    requires Ready(w, root, []) && Ready(w, root, names) && OutsideGit(names)
    ensures ListsVisitsBelow(w, root, Joined(names), names, Descend(w, root, []))
  {
    var vs, entries := Descend(w, root, []), EntriesOf(w, root, names);
    ListingOf(w, root, names);
    forall e ensures e in entries <==> OneBelow(vs, names, e) {
      if e in entries {
        var i :| 0 <= i < |entries| && entries[i] == e;
        ListedIsVisited(w, root, names, i);
      }
      if OneBelow(vs, names, e) {
        var v :| v in vs && v.entry == e && |v.names| == |names| + 1 && names <= v.names;
        VisitsOk(w, root, [], 0, v);
        VisitedIsListed(w, root, names, v);
      }
    }
  }

  /** Lazy descent from the root is complete: it meets each entry outside `.git` exactly once, by a
      relative path of its own that addresses it; and listing the root by the empty path, or a directory met
      by the path its entry carries, returns exactly the entries met one step below. */
  lemma DescentIsComplete(w: World, root: Path, t: Path)
    requires Sound(w) && IsDir(w.fs, root)
    ensures Ready(w, root, [])
    ensures Distinct(Descend(w, root, [])) && DistinctRels(Descend(w, root, []))
    ensures (exists v :: v in Descend(w, root, []) && v.names == t)
            <==> t != [] && root + t in w.fs && OutsideGit(t)
    ensures forall v :: v in Descend(w, root, []) ==>
              && v.names != [] && v.entry == Shows(w, root, v.names)
              && ValidateWithin(w.fs, root, ReadRel(v.entry.relPath)) == Ok(root + v.names)
    ensures ListsVisitsBelow(w, root, "", [], Descend(w, root, []))
    ensures forall v :: v in Descend(w, root, []) && v.entry.isDir ==>
              ListsVisitsBelow(w, root, v.entry.relPath, v.names, Descend(w, root, []))
  {
    assert root + [] == root;
    VisitsDistinct(w, root, [], 0);
    VisitsAreListings(w, root, []);
    forall v | v in Descend(w, root, []) && v.entry.isDir
      ensures ListsVisitsBelow(w, root, v.entry.relPath, v.names, Descend(w, root, []))
    {
      VisitsOk(w, root, [], 0, v);
      VisitsAreListings(w, root, v.names);
    }
    forall v | v in Descend(w, root, [])
      ensures VisitOk(w, root, [], v) && ValidateWithin(w.fs, root, ReadRel(v.entry.relPath)) == Ok(root + v.names)
    {
      VisitsOk(w, root, [], 0, v);
      NamesBelow(w, root, v.names);
      RelAddresses(w.fs, root, v.names);
    }
    RelsDiffer(w, root, Descend(w, root, []));
    if t != [] && root + t in w.fs && OutsideGit(t) {
      assert root + [] + t == root + t;
      var v := EveryEntryVisited(w, root, [], t);
      assert [] + t == t;
    }
  }
}
