/** From the watcher's events to the directory listings the front end drops. */
module WatchCoverage {
  import opened Wrappers
  import opened Paths
  import opened Text
  import opened Watcher

  // ---- changedPathsToParentDirs ----

  /** `lastIndexOf("/")`. */
  function LastSlash(s: string): (k: int)
    ensures -1 <= k < |s|
  {
    if s == "" then -1 else if Last(s) == '/' then |s| - 1 else LastSlash(s[..|s| - 1])
  }

  function DirnameOf(rel: string): string {
    if LastSlash(rel) == -1 then "" else rel[..LastSlash(rel)]
  }

  function ParentOf(rel: string): string {
    if rel == "*" then "*" else DirnameOf(rel)
  }

  /** The parents in order of first appearance. */
  function ParentDirs(rels: seq<string>): seq<string> {
    if rels == [] then []
    else
      var before, parent := ParentDirs(rels[..|rels| - 1]), ParentOf(Last(rels));
      if parent in before then before else before + [parent]
  }

  method ChangedPathsToParentDirs(changedRelPaths: seq<string>) returns (out: seq<string>)
    ensures out == ParentDirs(changedRelPaths)
  {
    out := [];
    var seen := {};
    var i := 0;
    while i < |changedRelPaths|
      invariant 0 <= i <= |changedRelPaths|
      invariant out == ParentDirs(changedRelPaths[..i])
      invariant forall x :: x in seen <==> x in out
    {
      assert changedRelPaths[..i + 1][..i] == changedRelPaths[..i];
      var rel := changedRelPaths[i];
      var parent := if rel == "*" then "*" else DirnameOf(rel);
      if parent !in seen {
        seen := seen + {parent};
        out := out + [parent];
      }
      i := i + 1;
    }
    assert changedRelPaths[..i] == changedRelPaths;
  }

  /** Exactly the parents of the changed paths, each once. */
  lemma {:induction false} ParentDirsAre(rels: seq<string>, x: string)
    ensures x in ParentDirs(rels) <==> exists i :: 0 <= i < |rels| && ParentOf(rels[i]) == x
    ensures forall i, j :: 0 <= i < j < |ParentDirs(rels)| ==> ParentDirs(rels)[i] != ParentDirs(rels)[j]
  {
    if rels != [] {
      var init := rels[..|rels| - 1];
      ParentDirsAre(init, x);
      assert forall i :: 0 <= i < |init| ==> rels[i] == init[i];
      assert rels[|rels| - 1] == Last(rels);
    }
  }

  // ---- The shape of a batch's events ----

  ghost predicate WellShaped(e: FsEvent, vs: seq<Verdict>) {
    e.Changed? ==>
      && 1 <= |e.relPaths| <= 500
      && StrictlySorted(e.relPaths)
      && ("*" in e.relPaths ==> e.relPaths == ["*"])
      && (forall x :: x in e.relPaths && x != "*" ==> Entry(e.root, x) in vs)
  }

  lemma RelPathsShape(s: set<string>)
    requires s != {}
    ensures var r := RelPaths(Listing(s));
            && 1 <= |r| <= WATCH_PATH_CAP && StrictlySorted(r)
            && ("*" in r ==> r == ["*"])
            && (forall x :: x in r && x != "*" ==> x in s)
  {
    ListingSorted(s);
  }

  lemma ChangeShape(vs: seq<Verdict>, root: string)
    requires root in EntryRoots(vs)
    ensures WellShaped(ChangeOf(vs, root), vs)
  {
    var v :| v in vs && v.Entry? && v.root == root;
    assert v.rel in EntriesUnder(vs, root);
    RelPathsShape(EntriesUnder(vs, root));
  }

  /** Every `Changed` list has 1 to 500 strictly sorted entries, `*` stands alone, and every other
      entry comes from a path of the batch. */
  lemma OutputShape(vs: seq<Verdict>, e: FsEvent)
    requires e in Output(vs)
    ensures WellShaped(e, vs)
  {
    var keys := Listing(EntryRoots(vs));
    if e in ChangedFor(keys, vs) {
      var i :| 0 <= i < |keys| && ChangeOf(vs, keys[i]) == e;
      assert keys[i] in keys;
      ChangeShape(vs, keys[i]);
    } else {
      assert e in ErrorsFor(Listing(VanishedRoots(vs)), vs);
    }
  }

  // ---- Which listing a path belongs to ----

  lemma {:induction false} LastSlashIs(s: string, k: int)
    requires -1 <= k < |s| && (k >= 0 ==> s[k] == '/') && forall i :: k < i < |s| ==> s[i] != '/'
    ensures LastSlash(s) == k
  {
    if s != "" && Last(s) != '/' {
      assert k < |s| - 1;
      LastSlashIs(s[..|s| - 1], k);
    }
  }

  lemma SlashedAdds(a: string, b: string)
    ensures Slashed(a + b) == Slashed(a) + Slashed(b)
  {
  }

  lemma SlashedFixes(s: string)
    ensures Slashed(s) == s <==> '\\' !in s
  {
  }

  predicate OnlyFirst(s: string) { s != "" && s[0] == '\\' && '\\' !in s[1..] }

  function LastBackslash(s: string): (k: int)
    ensures -1 <= k < |s|
    ensures k >= 0 ==> s[k] == '\\'
    ensures forall i :: k < i < |s| ==> s[i] != '\\'
  {
    if s == "" then -1 else if Last(s) == '\\' then |s| - 1 else LastBackslash(s[..|s| - 1])
  }

  lemma LastSlashAfter(pre: string, t: string)
    requires pre == "" || Last(pre) == '/'
    ensures LastSlash(pre + t) == if LastSlash(t) >= 0 then |pre| + LastSlash(t) else |pre| - 1
  {
    LastSlashFound(t);
    LastSlashIs(pre + t, if LastSlash(t) >= 0 then |pre| + LastSlash(t) else |pre| - 1);
  }

  lemma {:induction false} LastSlashFound(s: string)
    ensures LastSlash(s) >= 0 ==> s[LastSlash(s)] == '/'
    ensures forall i :: LastSlash(s) < i < |s| ==> s[i] != '/'
  {
    if s != "" && Last(s) != '/' { LastSlashFound(s[..|s| - 1]); }
  }

  lemma LastSlashOfName(last: Name)
    requires '/' !in last
    ensures LastSlash(Slashed(last)) == LastBackslash(last)
  {
    var k := LastBackslash(last);
    assert forall i :: 0 <= i < |last| ==> Slashed(last)[i] == SlashChar(last[i]);
    LastSlashIs(Slashed(last), k);
  }

  lemma WireLastSlash(parents: Path, last: Name)
    requires '/' !in last
    ensures var offset := if parents == [] then 0 else |Joined(parents)| + 1;
            LastSlash(RelToWireString(parents + [last])) ==
              (if LastBackslash(last) >= 0 then offset + LastBackslash(last) else offset - 1)
  {
    JoinedLast(parents, last);
    LastSlashOfName(last);
    var pre := if parents == [] then "" else Joined(parents) + "/";
    SlashedAdds(pre, last);
    assert RelToWireString(parents + [last]) == Slashed(pre) + Slashed(last);
    LastSlashAfter(Slashed(pre), Slashed(last));
  }

  lemma KeyWithBackslashInName(parents: Path, last: Name)
    requires '/' !in last && '\\' in last
    ensures DirnameOf(RelToWireString(parents + [last])) == Joined(parents) <==> parents == [] && OnlyFirst(last)
  {
    WireLastSlash(parents, last);
    var k := LastBackslash(last);
    assert k >= 0;
    if k == 0 { assert '\\' !in last[1..]; }
    if k > 0 { assert last[1..][k - 1] == '\\'; }
  }

  lemma KeyWithPlainName(parents: Path, last: Name)
    requires '/' !in last && '\\' !in last
    ensures DirnameOf(RelToWireString(parents + [last])) == Joined(parents) <==> '\\' !in Joined(parents)
  {
    WireLastSlash(parents, last);
    JoinedLast(parents, last);
    assert LastBackslash(last) == -1;
    SlashedFixes(Joined(parents));
    if parents != [] {
      SlashedAdds(Joined(parents), "/" + last);
      assert Joined(parents) + ("/" + last) == Joined(parents) + "/" + last;
      var wire := RelToWireString(parents + [last]);
      assert wire[..|Joined(parents)|] == Slashed(Joined(parents));
    }
  }

  /** The key computed for an entry is the listing it appears in exactly when no name on its path
      holds a backslash, or it is a top-level entry whose only backslash comes first: replacing
      backslashes is not a no-op on Unix. */
  lemma KeyIsDirectory(parents: Path, last: Name)
    requires '/' !in last
    ensures DirnameOf(RelToWireString(parents + [last])) == Joined(parents)
        <==> ('\\' !in Joined(parents) && '\\' !in last) || (parents == [] && OnlyFirst(last))
  {
    if '\\' in last { KeyWithBackslashInName(parents, last); } else { KeyWithPlainName(parents, last); }
    if OnlyFirst(last) { assert last[0] == '\\'; }
  }

  lemma BackslashMissesListing()
    ensures DirnameOf(RelToWireString(["src", "a\\b"])) != Joined(["src"])
  {
  }

  // ---- Coverage ----

  /** Not filtered: outside `.git`, and shown or not ignored (a root's own path is never ignored). */
  predicate Kept(p: Path, roots: seq<RootMatcher>, disk: Disk, showIgnored: bool) {
    && Route(p, roots).Some?
    && var m := Route(p, roots).value;
       && m.path <= p && ".git" !in p[|m.path|..]
       && (p == m.path || showIgnored || (p[|m.path|..], p in disk.dirs) !in m.ignores)
  }

  /** The event answers for p: its root is reported gone, or everything under the root is refreshed,
      or the key computed for p is among the dropped ones. */
  predicate Answers(e: FsEvent, p: Path, m: RootMatcher, disk: Disk)
    requires m.path <= p
  {
    && e.root == m.root
    && match e
       case WatchError(_, gone) => p == m.path && p !in disk.existing
       case Changed(_, rels) =>
         var dirs := ParentDirs(rels);
         "*" in dirs || (p != m.path && ParentOf(RelToWireString(p[|m.path|..])) in dirs)
  }

  lemma VerdictOfKept(p: Path, roots: seq<RootMatcher>, disk: Disk, showIgnored: bool)
    requires AllNames(p) && Kept(p, roots, disk, showIgnored)
    ensures var m := Route(p, roots).value;
            Judge(p, roots, disk, showIgnored) ==
              (if p != m.path then Entry(m.root, RelToWireString(p[|m.path|..]))
               else if p in disk.existing then Entry(m.root, "*") else Vanished(m.root, p))
  {
  }

  /** What is not kept leaves no trace. */
  lemma UnkeptIsDropped(p: Path, roots: seq<RootMatcher>, disk: Disk, showIgnored: bool)
    requires AllNames(p) && !Kept(p, roots, disk, showIgnored)
    ensures Judge(p, roots, disk, showIgnored) == Dropped
  {
    RouteIsDeepest(p, roots);
    if Route(p, roots).Some? {
      var m := Route(p, roots).value;
      WireEmpty(p[|m.path|..]);
      assert p == m.path + p[|m.path|..];
    }
  }

  /** An entry's path is one of the batch, kept, and owned by a root of that name. */
  lemma EntryHasSource(raw: seq<Path>, roots: seq<RootMatcher>, disk: Disk, showIgnored: bool, root: string, x: string)
    requires Entry(root, x) in Verdicts(raw, roots, disk, showIgnored) && x != "*"
    requires forall p :: p in raw ==> AllNames(p)
    ensures exists p :: p in raw && Kept(p, roots, disk, showIgnored) && Route(p, roots).value.root == root
              && x == RelToWireString(p[|Route(p, roots).value.path|..])
  {
    VerdictIn(raw, roots, disk, showIgnored, Entry(root, x));
    var p :| p in raw && Judge(p, roots, disk, showIgnored) == Entry(root, x);
    if !Kept(p, roots, disk, showIgnored) { UnkeptIsDropped(p, roots, disk, showIgnored); }
    VerdictOfKept(p, roots, disk, showIgnored);
  }

  lemma SentinelOrParent(s: set<string>, x: string)
    requires x in s
    ensures var dirs := ParentDirs(RelPaths(Listing(s))); "*" in dirs || (x != "*" && ParentOf(x) in dirs)
  {
    var sorted := Listing(s);
    var r := RelPaths(sorted);
    ParentDirsAre(r, "*");
    ParentDirsAre(r, ParentOf(x));
    if r == ["*"] {
      assert ParentOf(r[0]) == "*";
    } else {
      var i :| 0 <= i < |sorted| && sorted[i] == x;
      assert ParentOf(r[i]) == ParentOf(x);
      assert x in sorted;
    }
  }

  lemma EntryAnswered(vs: seq<Verdict>, root: string, x: string)
    requires Entry(root, x) in vs
    ensures ChangeOf(vs, root) in Output(vs)
    ensures var dirs := ParentDirs(ChangeOf(vs, root).relPaths); "*" in dirs || (x != "*" && ParentOf(x) in dirs)
  {
    assert root in EntryRoots(vs);
    var keys := Listing(EntryRoots(vs));
    assert root in keys;
    var i :| 0 <= i < |keys| && keys[i] == root;
    assert ChangedFor(keys, vs)[i] == ChangeOf(vs, root);
    assert Output(vs)[i] == ChangedFor(keys, vs)[i];
    assert x in EntriesUnder(vs, root);
    SentinelOrParent(EntriesUnder(vs, root), x);
  }

  lemma VanishedAnswered(vs: seq<Verdict>, root: string, path: Path)
    requires Vanished(root, path) in vs
    ensures ErrorOf(vs, root) in Output(vs)
  {
    assert root in VanishedRoots(vs);
    var keys := Listing(VanishedRoots(vs));
    assert root in keys;
    var i :| 0 <= i < |keys| && keys[i] == root;
    var changed := ChangedFor(Listing(EntryRoots(vs)), vs);
    assert ErrorsFor(keys, vs)[i] == ErrorOf(vs, root);
    assert Output(vs)[|changed| + i] == ErrorsFor(keys, vs)[i];
  }

  /** End to end: every kept path is answered by an event of the batch. */
  lemma Coverage(raw: seq<Path>, roots: seq<RootMatcher>, disk: Disk, showIgnored: bool, p: Path)
    requires p in raw && AllNames(p) && Kept(p, roots, disk, showIgnored)
    ensures exists e :: e in Output(Verdicts(raw, roots, disk, showIgnored))
                        && Answers(e, p, Route(p, roots).value, disk)
  {
    var vs, m := Verdicts(raw, roots, disk, showIgnored), Route(p, roots).value;
    VerdictOfKept(p, roots, disk, showIgnored);
    VerdictIn(raw, roots, disk, showIgnored, Judge(p, roots, disk, showIgnored));
    if p == m.path && p !in disk.existing {
      VanishedAnswered(vs, m.root, p);
      assert Answers(ErrorOf(vs, m.root), p, m, disk);
    } else {
      EntryAnswered(vs, m.root, if p == m.path then "*" else RelToWireString(p[|m.path|..]));
      assert Answers(ChangeOf(vs, m.root), p, m, disk);
    }
  }

  lemma PlainKey(root: Path, parents: Path, last: Name)
    requires AllNames(root + parents + [last]) && '\\' !in Joined(parents + [last])
    ensures (root + parents + [last])[|root|..] == parents + [last] && root + parents + [last] != root
    ensures ParentOf(RelToWireString(parents + [last])) in ["*", Joined(parents)]
  {
    assert last == (root + parents + [last])[|root + parents|];
    JoinedLast(parents, last);
    KeyIsDirectory(parents, last);
  }

  lemma AnswerBelow(e: FsEvent, p: Path, m: RootMatcher, disk: Disk, key: string)
    requires m.path <= p && p != m.path && Answers(e, p, m, disk)
    requires ParentOf(RelToWireString(p[|m.path|..])) in ["*", key]
    ensures e.Changed? && e.root == m.root && ("*" in ParentDirs(e.relPaths) || key in ParentDirs(e.relPaths))
  {
  }

  /** With no backslash on the path, the listing that shows the entry is dropped, or its whole root
      is refreshed. */
  lemma ListingIsDropped(raw: seq<Path>, roots: seq<RootMatcher>, disk: Disk, showIgnored: bool, p: Path,
                         parents: Path, last: Name)
    requires p in raw && AllNames(p) && Kept(p, roots, disk, showIgnored)
    requires p == Route(p, roots).value.path + parents + [last] && '\\' !in Joined(parents + [last])
    ensures exists e :: e in Output(Verdicts(raw, roots, disk, showIgnored)) && e.Changed?
              && e.root == Route(p, roots).value.root
              && ("*" in ParentDirs(e.relPaths) || Joined(parents) in ParentDirs(e.relPaths))
  {
    var m := Route(p, roots).value;
    Coverage(raw, roots, disk, showIgnored, p);
    var e :| e in Output(Verdicts(raw, roots, disk, showIgnored)) && Answers(e, p, m, disk);
    PlainKey(m.path, parents, last);
    AnswerBelow(e, p, m, disk, Joined(parents));
  }

  // ---- The events of a batch, told from its paths ----

  /** Kept, and owned by the root of this name. */
  predicate KeptUnder(p: Path, roots: seq<RootMatcher>, disk: Disk, showIgnored: bool, root: string) {
    Kept(p, roots, disk, showIgnored) && Route(p, roots).value.root == root
  }

  predicate IsRootItself(p: Path, roots: seq<RootMatcher>) {
    Route(p, roots).Some? && p == Route(p, roots).value.path
  }

  /** The path below its root, joined with slashes and with its backslashes made slashes. */
  function WireOf(p: Path, roots: seq<RootMatcher>): string {
    if Route(p, roots).Some? && |Route(p, roots).value.path| <= |p|
    then Slashed(Joined(p[|Route(p, roots).value.path|..])) else ""
  }

  /** What changed below the root. */
  ghost function Wires(raw: seq<Path>, roots: seq<RootMatcher>, disk: Disk, showIgnored: bool, root: string)
    : set<string>
  {
    set p | p in raw && KeptUnder(p, roots, disk, showIgnored, root) && !IsRootItself(p, roots) :: WireOf(p, roots)
  }

  ghost predicate RootChanged(raw: seq<Path>, roots: seq<RootMatcher>, disk: Disk, showIgnored: bool, root: string) {
    exists p :: p in raw && KeptUnder(p, roots, disk, showIgnored, root) && IsRootItself(p, roots) && p in disk.existing
  }

  predicate IsGone(p: Path, roots: seq<RootMatcher>, disk: Disk, showIgnored: bool, root: string) {
    KeptUnder(p, roots, disk, showIgnored, root) && IsRootItself(p, roots) && p !in disk.existing
  }

  lemma JudgedAs(p: Path, roots: seq<RootMatcher>, disk: Disk, showIgnored: bool, root: string)
    requires AllNames(p)
    ensures forall x :: Judge(p, roots, disk, showIgnored) == Entry(root, x) <==>
              KeptUnder(p, roots, disk, showIgnored, root)
              && (if IsRootItself(p, roots) then p in disk.existing && x == "*" else x == WireOf(p, roots))
    ensures forall g :: Judge(p, roots, disk, showIgnored) == Vanished(root, g) <==>
              IsGone(p, roots, disk, showIgnored, root) && g == p
  {
    if Kept(p, roots, disk, showIgnored) {
      VerdictOfKept(p, roots, disk, showIgnored);
    } else {
      UnkeptIsDropped(p, roots, disk, showIgnored);
    }
  }

  lemma EntriesAre(raw: seq<Path>, roots: seq<RootMatcher>, disk: Disk, showIgnored: bool, root: string)
    requires forall p :: p in raw ==> AllNames(p)
    ensures EntriesUnder(Verdicts(raw, roots, disk, showIgnored), root)
            == Wires(raw, roots, disk, showIgnored, root)
               + if RootChanged(raw, roots, disk, showIgnored, root) then {"*"} else {}
  {
    var vs := Verdicts(raw, roots, disk, showIgnored);
    var expected := Wires(raw, roots, disk, showIgnored, root)
                    + if RootChanged(raw, roots, disk, showIgnored, root) then {"*"} else {};
    forall x ensures x in EntriesUnder(vs, root) <==> x in expected {
      EntryIs(raw, roots, disk, showIgnored, root, x);
      assert x in EntriesUnder(vs, root) <==> Entry(root, x) in vs;
    }
  }

  lemma EntryIs(raw: seq<Path>, roots: seq<RootMatcher>, disk: Disk, showIgnored: bool, root: string, x: string)
    requires forall p :: p in raw ==> AllNames(p)
    ensures Entry(root, x) in Verdicts(raw, roots, disk, showIgnored) <==>
              x in Wires(raw, roots, disk, showIgnored, root)
              || (x == "*" && RootChanged(raw, roots, disk, showIgnored, root))
  {
    VerdictIn(raw, roots, disk, showIgnored, Entry(root, x));
    forall p | p in raw
      ensures Judge(p, roots, disk, showIgnored) == Entry(root, x) <==>
                KeptUnder(p, roots, disk, showIgnored, root)
                && (if IsRootItself(p, roots) then p in disk.existing && x == "*" else x == WireOf(p, roots))
    {
      JudgedAs(p, roots, disk, showIgnored, root);
    }
  }

  /** The list of a `Changed` event of this root. */
  ghost predicate ListIs(rels: seq<string>, wires: set<string>, rootChanged: bool) {
    if rootChanged || "*" in wires || |wires| > 500 then rels == ["*"]
    else StrictlySorted(rels) && forall x :: x in rels <==> x in wires
  }

  lemma ListOf(entries: set<string>, wires: set<string>, rootChanged: bool, rels: seq<string>)
    requires entries == wires + if rootChanged then {"*"} else {}
    ensures rels == RelPaths(Listing(entries)) <==> ListIs(rels, wires, rootChanged)
  {
    ListingSorted(entries);
    var sorted := Listing(entries);
    if !rootChanged {
      assert entries == wires;
      if StrictlySorted(rels) && forall x :: x in rels <==> x in wires { SortedUnique(rels, sorted); }
    }
  }

  /** Which `Changed` events a batch has: one for each root under which a kept path changed something, and
      its list is `*` alone exactly if the root itself changed, something is named so, or more than 500
      things changed; otherwise it lists exactly what changed. */
  lemma ChangedExactly(raw: seq<Path>, roots: seq<RootMatcher>, disk: Disk, showIgnored: bool, root: string,
                       rels: seq<string>)
    requires forall p :: p in raw ==> AllNames(p)
    ensures Changed(root, rels) in Output(Verdicts(raw, roots, disk, showIgnored)) <==>
              var wires := Wires(raw, roots, disk, showIgnored, root);
              var rootChanged := RootChanged(raw, roots, disk, showIgnored, root);
              (rootChanged || wires != {}) && ListIs(rels, wires, rootChanged)
  {
    var vs := Verdicts(raw, roots, disk, showIgnored);
    EntriesAre(raw, roots, disk, showIgnored, root);
    ListOf(EntriesUnder(vs, root), Wires(raw, roots, disk, showIgnored, root),
           RootChanged(raw, roots, disk, showIgnored, root), rels);
    ChangedIn(vs, root, rels);
    RootHasEntries(vs, root);
  }

  lemma RootHasEntries(vs: seq<Verdict>, root: string)
    ensures root in EntryRoots(vs) <==> EntriesUnder(vs, root) != {}
  {
    if root in EntryRoots(vs) {
      var v :| v in vs && v.Entry? && v.root == root;
      assert v.rel in EntriesUnder(vs, root);
    }
    if x :| x in EntriesUnder(vs, root) {
      var v :| v in vs && v.Entry? && v.root == root && v.rel == x;
    }
  }

  lemma ChangedIn(vs: seq<Verdict>, root: string, rels: seq<string>)
    ensures Changed(root, rels) in Output(vs) <==>
              root in EntryRoots(vs) && rels == RelPaths(Listing(EntriesUnder(vs, root)))
  {
    var keys := Listing(EntryRoots(vs));
    var e := Changed(root, rels);
    if e in Output(vs) {
      assert e in ChangedFor(keys, vs);
      var i :| 0 <= i < |keys| && ChangedFor(keys, vs)[i] == e;
      assert keys[i] in keys;
    }
    if root in EntryRoots(vs) && e == ChangeOf(vs, root) {
      var i :| 0 <= i < |keys| && keys[i] == root;
      assert ChangedFor(keys, vs)[i] == e && Output(vs)[i] == e;
    }
  }

  /** The first report of this root's own path, gone. */
  ghost predicate FirstGoneAt(raw: seq<Path>, roots: seq<RootMatcher>, disk: Disk, showIgnored: bool, root: string,
                              i: nat) {
    && i < |raw| && IsGone(raw[i], roots, disk, showIgnored, root)
    && forall j: nat :: j < i ==> !IsGone(raw[j], roots, disk, showIgnored, root)
  }

  /** And which errors: one for each root whose own path was reported and is gone, with the path that
      was reported first. */
  lemma ErrorsExactly(raw: seq<Path>, roots: seq<RootMatcher>, disk: Disk, showIgnored: bool, root: string, gone: Path)
    requires forall p :: p in raw ==> AllNames(p)
    ensures WatchError(root, gone) in Output(Verdicts(raw, roots, disk, showIgnored)) <==>
              exists i: nat :: FirstGoneAt(raw, roots, disk, showIgnored, root, i) && raw[i] == gone
  {
    var vs := Verdicts(raw, roots, disk, showIgnored);
    forall i: nat | i < |raw|
      ensures VanishesAt(vs, root, i) <==> IsGone(raw[i], roots, disk, showIgnored, root)
      ensures VanishesAt(vs, root, i) ==> vs[i].path == raw[i]
    {
      GoneAt(raw, roots, disk, showIgnored, root, i);
    }
    ErrorIn(vs, root, gone);
    FirstVanishedIs(vs, root);
    forall i: nat | i < |raw|
      ensures FirstVanishesAt(vs, root, i) <==> FirstGoneAt(raw, roots, disk, showIgnored, root, i)
    {
      forall j: nat | j < i ensures VanishesAt(vs, root, j) <==> IsGone(raw[j], roots, disk, showIgnored, root) {}
    }
  }

  lemma GoneAt(raw: seq<Path>, roots: seq<RootMatcher>, disk: Disk, showIgnored: bool, root: string, i: nat)
    requires i < |raw| && AllNames(raw[i])
    ensures var v := Verdicts(raw, roots, disk, showIgnored)[i];
            && (v.Vanished? && v.root == root <==> IsGone(raw[i], roots, disk, showIgnored, root))
            && (v.Vanished? && v.root == root ==> v.path == raw[i])
  {
    JudgedAs(raw[i], roots, disk, showIgnored, root);
    var v := Judge(raw[i], roots, disk, showIgnored);
    if v.Vanished? && v.root == root { assert v == Vanished(root, v.path); }
  }

  lemma ErrorIn(vs: seq<Verdict>, root: string, gone: Path)
    ensures WatchError(root, gone) in Output(vs) <==> root in VanishedRoots(vs) && gone == FirstVanished(vs, root)
  {
    var keys := Listing(VanishedRoots(vs));
    var e := WatchError(root, gone);
    var changed := ChangedFor(Listing(EntryRoots(vs)), vs);
    if e in Output(vs) {
      assert e in ErrorsFor(keys, vs);
      var i :| 0 <= i < |keys| && ErrorsFor(keys, vs)[i] == e;
      assert keys[i] in keys;
    }
    if root in VanishedRoots(vs) && gone == FirstVanished(vs, root) {
      FirstVanishedIsIn(vs, root);
      VanishedAnswered(vs, root, gone);
    }
  }

  predicate VanishesAt(vs: seq<Verdict>, root: string, i: nat) {
    i < |vs| && vs[i].Vanished? && vs[i].root == root
  }

  ghost predicate FirstVanishesAt(vs: seq<Verdict>, root: string, i: nat) {
    VanishesAt(vs, root, i) && forall j: nat :: j < i ==> !VanishesAt(vs, root, j)
  }

  lemma {:induction false} FirstVanishedIs(vs: seq<Verdict>, root: string)
    ensures root in VanishedRoots(vs) <==> exists i: nat :: FirstVanishesAt(vs, root, i)
    ensures forall i: nat :: FirstVanishesAt(vs, root, i) ==> FirstVanished(vs, root) == vs[i].path
  {
    if vs != [] {
      var rest := vs[1..];
      FirstVanishedIs(rest, root);
      forall i: nat ensures VanishesAt(vs, root, i + 1) == VanishesAt(rest, root, i) {}
      if VanishesAt(vs, root, 0) {
        assert vs[0] in vs && FirstVanishesAt(vs, root, 0);
      } else {
        forall i: nat ensures FirstVanishesAt(vs, root, i + 1) <==> FirstVanishesAt(rest, root, i) {
          FirstShifts(vs, root, i);
        }
        assert VanishedRoots(vs) == VanishedRoots(rest) + if vs[0].Vanished? then {vs[0].root} else {} by {
          RestRoots(vs);
        }
      }
    }
  }

  lemma RestRoots(vs: seq<Verdict>)
    requires vs != []
    ensures VanishedRoots(vs) == VanishedRoots(vs[1..]) + if vs[0].Vanished? then {vs[0].root} else {}
  {
    assert vs == [vs[0]] + vs[1..];
  }

  lemma FirstShifts(vs: seq<Verdict>, root: string, i: nat)
    requires vs != [] && !VanishesAt(vs, root, 0)
    ensures FirstVanishesAt(vs, root, i + 1) <==> FirstVanishesAt(vs[1..], root, i)
  {
    forall j: nat ensures VanishesAt(vs, root, j + 1) == VanishesAt(vs[1..], root, j) {}
    assert forall j: nat :: j > 0 && VanishesAt(vs, root, j) ==> VanishesAt(vs[1..], root, j - 1);
  }

  /** One event for a root and kind: first the changes, then the errors, each in the order of root strings. */
  lemma EventsInOrder(vs: seq<Verdict>, i: nat, j: nat)
    requires i < j < |Output(vs)|
    ensures var a, b := Output(vs)[i], Output(vs)[j];
            (a.Changed? && b.WatchError?) || (a.Changed? == b.Changed? && Less(a.root, b.root))
  {
    ListingSorted(EntryRoots(vs));
    ListingSorted(VanishedRoots(vs));
  }
}
