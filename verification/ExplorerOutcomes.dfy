/** When each file operation succeeds, and what it then has done: told from the tree, from what the
    arguments name and from what the system reports, and from nothing the operations compute. */
module ExplorerOutcomes {
  import opened Wrappers
  import opened Paths
  import opened Tree
  import opened Explorer

  // ---- What an argument names ----

  /** One segment of a path, followed from a directory. */
  predicate Follows(fs: Files, cur: Path, seg: string, next: Path) {
    && IsDir(fs, cur)
    && if seg == "" || seg == "." then next == cur
       else if seg == ".." then next == if cur == [] then [] else cur[..|cur| - 1]
       else next == cur + [seg] && next in fs
  }

  /** The places passed on the way along some segments. */
  ghost predicate Trail(fs: Files, segs: seq<string>, t: seq<Path>) {
    |t| == |segs| + 1 && forall i :: 0 <= i < |segs| ==> Follows(fs, t[i], segs[i], t[i + 1])
  }

  function SegmentsOf(rel: string): seq<string> { if rel == "" then [] else Split(rel) }

  /** An absolute path replaces the root when joined to it. */
  function From(root: Path, rel: string): Path { if rel != "" && rel[0] == '/' then [] else root }

  ghost predicate Reaches(fs: Files, start: Path, segs: seq<string>, p: Path) {
    exists t :: Trail(fs, segs, t) && t[0] == start && t[|segs|] == p
  }

  /** The existing entry of the workspace that a path names. */
  ghost predicate Names(fs: Files, root: Path, rel: string, p: Path) {
    root in fs && root <= p && Reaches(fs, From(root, rel), SegmentsOf(rel), p)
  }

  /** An entry that may be renamed, moved or deleted: not the root itself. */
  ghost predicate NamesEntry(fs: Files, root: Path, rel: string, s: Path) {
    Names(fs, root, rel, s) && s != root
  }

  ghost predicate NamesNoEntry(fs: Files, root: Path, rel: string) {
    forall s :: !NamesEntry(fs, root, rel, s)
  }

  /** The place a path names as a directory to put something in: its components end before any final `.`
      and empty segments. */
  ghost predicate NamesPlace(fs: Files, root: Path, rel: string, p: Path) {
    exists n: nat :: PlaceAt(fs, root, rel, p, n)
  }

  ghost predicate PlaceAt(fs: Files, root: Path, rel: string, p: Path, n: nat) {
    var segs := SegmentsOf(rel);
    && n <= |segs| && (forall i :: n <= i < |segs| ==> segs[i] == "" || segs[i] == ".")
    && (n > 0 ==> segs[n - 1] != "" && segs[n - 1] != ".")
    && root in fs && root <= p && Reaches(fs, From(root, rel), segs[..n], p)
  }

  ghost predicate NamesNoPlace(fs: Files, root: Path, rel: string) {
    forall p :: !NamesPlace(fs, root, rel, p)
  }

  predicate SingleName(name: string) {
    name != "" && name != "." && name != ".." && '/' !in name && '\\' !in name
  }

  lemma EnterFollows(fs: Files, cur: Path, seg: string, next: Path)
    ensures Enter(fs, cur, seg) == Some(next) <==> Follows(fs, cur, seg, next)
  {
  }

  lemma {:induction false} WalkReaches(fs: Files, start: Path, segs: seq<string>, p: Path)
    ensures Walk(fs, start, segs) == Some(p) <==> Reaches(fs, start, segs, p)
  {
    if segs == [] {
      if p == start { assert Trail(fs, segs, [start]) && [start][0] == start; }
    } else {
      var init, last := segs[..|segs| - 1], Last(segs);
      if Walk(fs, start, segs) == Some(p) {
        var cur := Walk(fs, start, init).value;
        WalkReaches(fs, start, init, cur);
        EnterFollows(fs, cur, last, p);
        var t :| Trail(fs, init, t) && t[0] == start && t[|init|] == cur;
        assert Trail(fs, segs, t + [p]);
        assert (t + [p])[0] == start && (t + [p])[|segs|] == p;
      }
      if Reaches(fs, start, segs, p) {
        var t :| Trail(fs, segs, t) && t[0] == start && t[|segs|] == p;
        var u := t[..|segs|];
        assert Trail(fs, init, u) && u[0] == start && u[|init|] == t[|init|];
        WalkReaches(fs, start, init, t[|init|]);
        assert Follows(fs, t[|init|], segs[|init|], t[|init| + 1]);
        EnterFollows(fs, t[|init|], last, p);
      }
    }
  }

  lemma ValidatedIsNamed(fs: Files, root: Path, rel: string, p: Path)
    ensures ValidateWithin(fs, root, ReadRel(rel)) == Ok(p) <==> Names(fs, root, rel, p)
    ensures ValidatedNonRoot(fs, root, ReadRel(rel)) == Ok(p) <==> NamesEntry(fs, root, rel, p)
  {
    WalkReaches(fs, From(root, rel), SegmentsOf(rel), p);
  }

  lemma RefusedIsUnnamed(fs: Files, root: Path, rel: string)
    ensures NamesNoEntry(fs, root, rel) <==> ValidatedNonRoot(fs, root, ReadRel(rel)) == Err(OutsideRoot)
  {
    forall s ensures ValidatedNonRoot(fs, root, ReadRel(rel)) == Ok(s) <==> NamesEntry(fs, root, rel, s) {
      ValidatedIsNamed(fs, root, rel, s);
    }
    var v := ValidatedNonRoot(fs, root, ReadRel(rel));
    if v.Ok? { assert NamesEntry(fs, root, rel, v.value); }
  }

  lemma {:induction false} StripCurIs(segs: seq<string>) returns (n: nat)
    ensures n <= |segs| && StripCur(segs) == segs[..n]
    ensures forall i :: n <= i < |segs| ==> segs[i] == "" || segs[i] == "."
    ensures n > 0 ==> segs[n - 1] != "" && segs[n - 1] != "."
  {
    if segs != [] && IsCur(Last(segs)) {
      var init := segs[..|segs| - 1];
      n := StripCurIs(init);
      assert segs[..n] == init[..n];
      assert forall i :: n <= i < |init| ==> segs[i] == init[i];
    } else {
      n := |segs|;
      assert segs[..n] == segs;
    }
  }

  lemma PlaceIsStripped(fs: Files, root: Path, rel: string, p: Path)
    ensures NamesPlace(fs, root, rel, p) <==>
              root in fs && root <= p && Reaches(fs, From(root, rel), StripCur(SegmentsOf(rel)), p)
  {
    var segs := SegmentsOf(rel);
    var n := StripCurIs(segs);
    if root in fs && root <= p && Reaches(fs, From(root, rel), StripCur(segs), p) {
      assert PlaceAt(fs, root, rel, p, n);
    }
  }

  /** The validated place of a new entry. */
  lemma NewIsPlaced(fs: Files, root: Path, relDir: string, name: string, p: Path)
    ensures !SingleName(name) || NamesNoPlace(fs, root, relDir) ==>
              ValidatedNew(fs, root, ReadRel(relDir), name) == Err(OutsideRoot)
    ensures SingleName(name) && NamesPlace(fs, root, relDir, p) ==>
              ValidatedNew(fs, root, ReadRel(relDir), name) == Ok(p + [name])
  {
    var segs := StripCur(SegmentsOf(relDir));
    PlaceIsStripped(fs, root, relDir, p);
    WalkReaches(fs, From(root, relDir), segs, p);
    var w := Walk(fs, From(root, relDir), segs);
    if w.Some? {
      WalkReaches(fs, From(root, relDir), segs, w.value);
      PlaceIsStripped(fs, root, relDir, w.value);
      if root in fs && root <= w.value { assert NamesPlace(fs, root, relDir, w.value); }
    }
  }

  // ---- Create ----

  /** An empty file or a directory at this place, and nothing else changed. */
  predicate IsPut(st: State, after: State, d: Path, e: Entry) {
    after == State(st.fs[d := e], st.trash)
  }

  lemma PutExactly(st: State, root: Path, relDir: string, name: string, e: Entry, os: Option<FsError>, p: Path)
    ensures var r := PutPlan(st.fs, root, relDir, name, e);
            && (!SingleName(name) || NamesNoPlace(st.fs, root, relDir) ==> r == Err(OutsideRoot))
            && (SingleName(name) && NamesPlace(st.fs, root, relDir, p) ==>
                  r == Ok(Put(p + [name], e))
                  && (Possible(st.fs, r.value) <==> IsDir(st.fs, p) && p + [name] !in st.fs))
  {
    NewIsPlaced(st.fs, root, relDir, name, p);
    assert (p + [name])[..|p|] == p;
  }

  /** Creating a file succeeds exactly with a single name, in an existing directory of the workspace where
      nothing has that name, unless the system objects; and then an empty file is there. */
  lemma CreateFileExactly(st: State, root: Path, relDir: string, name: string, os: Option<FsError>, p: Path)
    ensures var (after, e) := Perform(st, root, CreateFile(relDir, name), os);
            && (!SingleName(name) || NamesNoPlace(st.fs, root, relDir) ==> e == Some(OutsideRoot))
            && (SingleName(name) && NamesPlace(st.fs, root, relDir, p) ==>
                  && e == (if IsDir(st.fs, p) && p + [name] !in st.fs then os else Some(Io))
                  && (e.None? ==> IsPut(st, after, p + [name], File([]))))
            && (e.Some? ==> after == st)
  {
    PutExactly(st, root, relDir, name, File([]), os, p);
  }

  lemma CreateDirExactly(st: State, root: Path, relDir: string, name: string, os: Option<FsError>, p: Path)
    ensures var (after, e) := Perform(st, root, CreateDir(relDir, name), os);
            && (!SingleName(name) || NamesNoPlace(st.fs, root, relDir) ==> e == Some(OutsideRoot))
            && (SingleName(name) && NamesPlace(st.fs, root, relDir, p) ==>
                  && e == (if IsDir(st.fs, p) && p + [name] !in st.fs then os else Some(Io))
                  && (e.None? ==> IsPut(st, after, p + [name], Dir)))
            && (e.Some? ==> after == st)
  {
    PutExactly(st, root, relDir, name, Dir, os, p);
  }

  // ---- Move and rename ----

  /** Every entry at or below s is now at or below d, in its place there and with its content, nothing is left
      at or below s, nothing else is at or below d, and every other entry is as it was. */
  ghost predicate IsMoved(st: State, after: State, s: Path, d: Path) {
    && after.trash == st.trash
    && (forall q :: MovedAt(st.fs, after.fs, s, d, q))
  }

  ghost predicate MovedAt(fs: Files, after: Files, s: Path, d: Path, q: Path) {
    if s <= q then q !in after
    else if d <= q then SameEntry(after, q, fs, s + q[|d|..])
    else SameEntry(after, q, fs, q)
  }

  predicate SameEntry(a: Files, p: Path, b: Files, q: Path) {
    (p in a <==> q in b) && (q in b ==> p in a && a[p] == b[q])
  }

  /** In particular. */
  lemma MovedThere(st: State, after: State, s: Path, d: Path, rest: Path)
    requires IsMoved(st, after, s, d) && !(s <= d) && !(d <= s)
    ensures SameEntry(after.fs, d + rest, st.fs, s + rest)
  {
    assert MovedAt(st.fs, after.fs, s, d, d + rest);
    assert (d + rest)[|d|..] == rest;
    if s <= d + rest { Comparable(s, d, d + rest); }
  }

  lemma Comparable(s: Path, d: Path, q: Path)
    requires s <= q && d <= q
    ensures s <= d || d <= s
  {
    assert s == q[..|s|] && d == q[..|d|];
    if |s| <= |d| { assert q[..|d|][..|s|] == q[..|s|]; } else { assert q[..|s|][..|d|] == q[..|d|]; }
  }

  lemma ShiftMovesAt(fs: Files, s: Path, d: Path, q: Path)
    requires WellFormed(fs) && s in fs && d !in fs && !(s <= d)
    ensures MovedAt(fs, Moved(fs, s, d), s, d, q)
  {
    RebasedAt(Below(fs, s), s, d, q);
    FreeBelow(fs, d, s);
    if s <= q && d <= q { Comparable(s, d, q); }
    if d <= q && q in fs { FreeBelow(fs, d, q); }
  }

  lemma ShiftIsMove(st: State, s: Path, d: Path)
    requires WellFormed(st.fs) && s in st.fs && d !in st.fs && !(s <= d)
    ensures IsMoved(st, Made(st, Shift(s, d)), s, d)
  {
    forall q ensures MovedAt(st.fs, Moved(st.fs, s, d), s, d, q) { ShiftMovesAt(st.fs, s, d, q); }
  }

  lemma NamedExists(fs: Files, root: Path, rel: string, s: Path)
    requires WellFormed(fs) && NamesEntry(fs, root, rel, s)
    ensures s in fs && s != []
  {
    ValidatedIsNamed(fs, root, rel, s);
    ExistingIsInside(fs, root, ReadRel(rel));
  }

  lemma EntryNamedSingly(fs: Files, s: Path)
    requires WellNamed(fs) && s in fs && s != []
    ensures SingleName(Last(s)) <==> '\\' !in Last(s)
  {
    assert AllNames(s);
    assert IsName(s[|s| - 1]);
  }

  /** What a shift to a validated place answers, in the order of the checks. */
  lemma ShiftExactly(st: State, s: Path, p: Path, name: string, os: Option<FsError>)
    requires WellFormed(st.fs) && s in st.fs
    ensures var d := p + [name];
            var r := if d in st.fs then (st, Some(AlreadyExists)) else Attempt(st, Shift(s, d), os);
            && r.1 == (if d in st.fs then Some(AlreadyExists) else if !IsDir(st.fs, p) || s <= p then Some(Io) else os)
            && (r.1.None? ==> IsMoved(st, r.0, s, d))
            && (r.1.Some? ==> r.0 == st)
  {
    var d := p + [name];
    assert d[..|p|] == p;
    if d !in st.fs {
      if s <= d {
        assert s != d;
        assert s <= p;
      }
      if s <= p { assert s <= d; }
      if !(s <= d) { ShiftIsMove(st, s, d); }
    }
  }

  /** A move succeeds exactly if `from` names an entry other than the root whose own name has no
      backslash, `toDir` names a directory of the workspace not in that entry in which nothing has the
      name, and the system does not object; then the entry is in that directory under its own name.
      Otherwise the answer is that of the first check that fails. */
  lemma MoveExactly(st: State, root: Path, from: string, toDir: string, os: Option<FsError>, s: Path, p: Path)
    requires WellFormed(st.fs) && WellNamed(st.fs)
    ensures var (after, e) := Perform(st, root, Move(from, toDir), os);
            && (NamesNoEntry(st.fs, root, from) ==> e == Some(OutsideRoot))
            && (NamesEntry(st.fs, root, from, s) ==>
                  && s != []
                  && ('\\' in Last(s) || NamesNoPlace(st.fs, root, toDir) ==> e == Some(OutsideRoot))
                  && ('\\' !in Last(s) && NamesPlace(st.fs, root, toDir, p) ==>
                        && e == (if p + [Last(s)] in st.fs then Some(AlreadyExists)
                                 else if !IsDir(st.fs, p) || s <= p then Some(Io) else os)
                        && (e.None? ==> IsMoved(st, after, s, p + [Last(s)]))))
            && (e.Some? ==> after == st)
  {
    RefusedIsUnnamed(st.fs, root, from);
    ValidatedIsNamed(st.fs, root, from, s);
    if NamesEntry(st.fs, root, from, s) {
      NamedExists(st.fs, root, from, s);
      EntryNamedSingly(st.fs, s);
      NewIsPlaced(st.fs, root, toDir, Last(s), p);
      ShiftExactly(st, s, p, Last(s), os);
    }
  }

  /** The last component a path is written with. */
  ghost predicate EndsIn(rel: string, seg: string) {
    exists n: nat :: EndsAt(SegmentsOf(rel), seg, n)
  }

  ghost predicate EndsAt(segs: seq<string>, seg: string, n: nat) {
    0 < n <= |segs| && segs[n - 1] == seg && seg != "" && seg != "."
    && forall i :: n <= i < |segs| ==> segs[i] == "" || segs[i] == "."
  }

  lemma EndsInStripped(rel: string, seg: string)
    ensures var segs := StripCur(SegmentsOf(rel)); EndsIn(rel, seg) <==> segs != [] && Last(segs) == seg
  {
    var segs := SegmentsOf(rel);
    var n := StripCurIs(segs);
    if n > 0 && segs[n - 1] == seg { assert EndsAt(segs, seg, n); }
  }

  /** The directory in which a path's last component was followed. */
  lemma LastFollowed(fs: Files, start: Path, segs: seq<string>, s: Path) returns (w: Path)
    requires Walk(fs, start, segs) == Some(s) && StripCur(segs) != []
    ensures var stripped := StripCur(segs);
            && Walk(fs, start, StripCur(stripped[..|stripped| - 1])) == Some(w)
            && Enter(fs, w, Last(stripped)) == Some(s) && !IsCur(Last(stripped))
  {
    StripWalks(fs, start, segs);
    var stripped := StripCur(segs);
    var init := stripped[..|stripped| - 1];
    w := Walk(fs, start, init).value;
    StripWalks(fs, start, init);
  }

  /** Where a rename looks for its directory. */
  lemma RenameDirectory(fs: Files, root: Path, rel: string, newName: string, s: Path)
    requires WellFormed(fs) && NamesEntry(fs, root, rel, s)
    ensures var target := ValidatedNew(fs, root, ParentRel(ReadRel(rel)), newName);
            if !SingleName(newName) then target == Err(OutsideRoot)
            else target.Ok? && target.value != [] && IsDir(fs, Up(target.value))
                 && if EndsIn(rel, "..") then s <= target.value else target.value == Up(s) + [newName]
  {
    ValidatedIsNamed(fs, root, rel, s);
    EndsInStripped(rel, "..");
    StripWalks(fs, From(root, rel), SegmentsOf(rel));
    if StripCur(SegmentsOf(rel)) != [] {
      var w := LastFollowed(fs, From(root, rel), SegmentsOf(rel), s);
      assert (w + [newName])[..|w|] == w;
    }
  }

  /** A rename succeeds exactly if `rel` names an entry other than the root and is not written with a final
      `..`, the new name is a single one that nothing in the entry's directory has, and the system does
      not object; then the entry has that name in the same directory. */
  lemma RenameExactly(st: State, root: Path, rel: string, newName: string, os: Option<FsError>, s: Path)
    requires WellFormed(st.fs)
    ensures var (after, e) := Perform(st, root, Rename(rel, newName), os);
            && (NamesNoEntry(st.fs, root, rel) || !SingleName(newName) ==> e == Some(OutsideRoot))
            && (NamesEntry(st.fs, root, rel, s) && SingleName(newName) ==>
                  && s != []
                  && if EndsIn(rel, "..") then e == Some(AlreadyExists) || e == Some(Io)
                     else
                       var d := s[..|s| - 1] + [newName];
                       e == (if d in st.fs then Some(AlreadyExists) else os) && (e.None? ==> IsMoved(st, after, s, d)))
            && (e.Some? ==> after == st)
  {
    RefusedIsUnnamed(st.fs, root, rel);
    ValidatedIsNamed(st.fs, root, rel, s);
    if NamesEntry(st.fs, root, rel, s) && SingleName(newName) {
      NamedExists(st.fs, root, rel, s);
      RenameDirectory(st.fs, root, rel, newName, s);
      var target := ValidatedNew(st.fs, root, ParentRel(ReadRel(rel)), newName).value;
      ShiftExactly(st, s, Up(target), Last(target), os);
      assert Up(target) + [Last(target)] == target;
      if EndsIn(rel, "..") { BelowUnlessThere(st.fs, s, target); }
    } else if SingleName(newName) == false && !NamesNoEntry(st.fs, root, rel) {
      var t :| NamesEntry(st.fs, root, rel, t);
      ValidatedIsNamed(st.fs, root, rel, t);
      RenameDirectory(st.fs, root, rel, newName, t);
    }
  }

  lemma BelowUnlessThere(fs: Files, s: Path, target: Path)
    requires s in fs && target != [] && s <= target
    ensures target in fs || s <= Up(target)
  {
    if s != target { assert s <= Up(target); }
  }

  // ---- Delete ----

  /** Exactly the entries at or below s are in the Trash, together, and every other is as it was. */
  ghost predicate IsTrashed(st: State, after: State, s: Path) {
    && |after.trash| == |st.trash| + 1 && after.trash[..|st.trash|] == st.trash
    && forall q :: TrashedAt(st.fs, after.fs, Last(after.trash), s, q)
  }

  predicate TrashedAt(fs: Files, after: Files, trashed: Files, s: Path, q: Path) {
    if s <= q then q !in after && SameEntry(trashed, q, fs, q) else q !in trashed && SameEntry(after, q, fs, q)
  }

  lemma DiscardTrashes(st: State, s: Path)
    ensures IsTrashed(st, Made(st, Discard(s)), s)
  {
    var after := Made(st, Discard(s));
    assert after.trash == st.trash + [Below(st.fs, s)];
    assert after.trash[..|st.trash|] == st.trash;
    forall q ensures TrashedAt(st.fs, after.fs, Last(after.trash), s, q) {}
  }

  lemma DeleteAnswers(st: State, root: Path, rel: string, os: Option<FsError>)
    ensures Perform(st, root, Delete(rel), os) ==
              match ValidatedNonRoot(st.fs, root, ReadRel(rel))
              case Err(x) => (st, Some(x))
              case Ok(s) => if os.Some? then (st, os) else (Made(st, Discard(s)), None)
  {
  }

  /** Deleting succeeds exactly if `rel` names an entry other than the root and the system does not
      object, and then exactly that entry and what is below it is in the Trash. */
  lemma DeleteExactly(st: State, root: Path, rel: string, os: Option<FsError>, s: Path)
    ensures var (after, e) := Perform(st, root, Delete(rel), os);
            && (NamesNoEntry(st.fs, root, rel) ==> e == Some(OutsideRoot))
            && (NamesEntry(st.fs, root, rel, s) ==> e == os && (e.None? ==> IsTrashed(st, after, s)))
            && (e.Some? ==> after == st)
  {
    RefusedIsUnnamed(st.fs, root, rel);
    ValidatedIsNamed(st.fs, root, rel, s);
    DeleteAnswers(st, root, rel, os);
    if NamesEntry(st.fs, root, rel, s) { DiscardTrashes(st, s); }
  }
}
