/** The file explorer's create, rename, move and delete-to-Trash on a symlink-free tree; each check
    and the system call after it are one atomic step. */
module Explorer {
  import opened Wrappers
  import opened Paths
  import opened Tree

  datatype FsError = NotFound | PermissionDenied | OutsideRoot | AlreadyExists | Io

  // ---- Resolving what the web view names ----

  /** A relative (or, replacing the root when joined, absolute) path cut at its slashes. */
  datatype RelPath = RelPath(absolute: bool, segs: seq<string>)

  function ReadRel(rel: string): RelPath {
    RelPath(IsAbsolute(rel), if rel == "" then [] else Split(rel))
  }

  predicate IsCur(seg: string) { seg == "" || seg == "." }

  function Up(p: Path): Path { if p == [] then [] else p[..|p| - 1] }

  /** One segment of `canonicalize` from a directory. */
  function Enter(fs: Files, cur: Path, seg: string): Option<Path> {
    if !IsDir(fs, cur) then None
    else if IsCur(seg) then Some(cur)
    else if seg == ".." then Some(Up(cur))
    else if cur + [seg] in fs then Some(cur + [seg])
    else None
  }

  function Walk(fs: Files, start: Path, segs: seq<string>): Option<Path> {
    if segs == [] then Some(start)
    else
      match Walk(fs, start, segs[..|segs| - 1])
      case None => None
      case Some(cur) => Enter(fs, cur, Last(segs))
  }

  function Start(root: Path, r: RelPath): Path { if r.absolute then [] else root }

  /** `validate_path_within` on the joined path. */
  function ValidateWithin(fs: Files, root: Path, r: RelPath): Result<Path, FsError> {
    if root !in fs then Err(OutsideRoot)
    else
      match Walk(fs, Start(root, r), r.segs)
      case Some(p) => if root <= p then Ok(p) else Err(OutsideRoot)
      case None => Err(OutsideRoot)
  }

  /** The destructive verbs also refuse the root itself. */
  function ValidatedNonRoot(fs: Files, root: Path, r: RelPath): Result<Path, FsError> {
    match ValidateWithin(fs, root, r)
    case Err(e) => Err(e)
    case Ok(p) => if p == root then Err(OutsideRoot) else Ok(p)
  }

  predicate RejectSeparator(name: string) {
    name == "" || name == "." || name == ".." || '/' in name || '\\' in name
  }

  /** Components end where only `.` and empty segments follow. */
  function StripCur(segs: seq<string>): seq<string> {
    if segs != [] && IsCur(Last(segs)) then StripCur(segs[..|segs| - 1]) else segs
  }

  /** `Path::parent`, with nothing (the root itself) where there is none. */
  function ParentRel(r: RelPath): RelPath {
    var s := StripCur(r.segs);
    if s == [] then RelPath(false, []) else RelPath(r.absolute, s[..|s| - 1])
  }

  /** `validate_parent_within` of a directory joined with a single name. */
  function ValidatedNew(fs: Files, root: Path, relDir: RelPath, name: string): Result<Path, FsError> {
    if RejectSeparator(name) then Err(OutsideRoot)
    else
      match ValidateWithin(fs, root, RelPath(relDir.absolute, StripCur(relDir.segs)))
      case Err(e) => Err(e)
      case Ok(parent) => Ok(parent + [name])
  }

  // ---- The operations ----

  datatype Op =
    | CreateFile(relDir: string, name: string)
    | CreateDir(relDir: string, name: string)
    | Rename(rel: string, newName: string)
    | Move(from: string, toDir: string)
    | Delete(rel: string)

  datatype Change = Put(p: Path, e: Entry) | Shift(s: Path, d: Path) | Discard(s: Path)

  function PutPlan(fs: Files, root: Path, relDir: string, name: string, e: Entry): Result<Change, FsError> {
    match ValidatedNew(fs, root, ReadRel(relDir), name)
    case Err(err) => Err(err)
    case Ok(target) => Ok(Put(target, e))
  }

  function ShiftPlan(fs: Files, root: Path, source: Path, relDir: RelPath, name: string): Result<Change, FsError> {
    match ValidatedNew(fs, root, relDir, name)
    case Err(err) => Err(err)
    case Ok(target) => if target in fs then Err(AlreadyExists) else Ok(Shift(source, target))
  }

  /** The checks each operation makes, and the one change it then asks the system for. */
  function Plan(fs: Files, root: Path, op: Op): Result<Change, FsError> {
    match op
    case CreateFile(relDir, name) => PutPlan(fs, root, relDir, name, File([]))
    case CreateDir(relDir, name) => PutPlan(fs, root, relDir, name, Dir)
    case Rename(rel, newName) =>
      (match ValidatedNonRoot(fs, root, ReadRel(rel))
       case Err(err) => Err(err)
       case Ok(source) => ShiftPlan(fs, root, source, ParentRel(ReadRel(rel)), newName))
    case Move(from, toDir) =>
      (match ValidatedNonRoot(fs, root, ReadRel(from))
       case Err(err) => Err(err)
       case Ok(source) =>
         if source == [] then Err(OutsideRoot) else ShiftPlan(fs, root, source, ReadRel(toDir), Last(source)))
    case Delete(rel) =>
      match ValidatedNonRoot(fs, root, ReadRel(rel))
      case Err(err) => Err(err)
      case Ok(source) => Ok(Discard(source))
  }

  /** What the system itself refuses: an occupied place for an exclusive creation, a parent that is
      no directory, a directory moved into itself. */
  predicate Possible(fs: Files, ch: Change) {
    match ch
    case Put(p, _) => p !in fs && IsDir(fs, Up(p))
    case Shift(s, d) => IsDir(fs, Up(d)) && !(s <= d)
    case Discard(_) => true
  }

  datatype State = State(fs: Files, trash: seq<Files>)

  function Made(st: State, ch: Change): State {
    match ch
    case Put(p, e) => st.(fs := st.fs[p := e])
    case Shift(s, d) => st.(fs := Moved(st.fs, s, d))
    case Discard(s) => State(Without(st.fs, s), st.trash + [Below(st.fs, s)])
  }

  /** The change is made or nothing is; `os` is an error the system reports for reasons of its own. */
  function Attempt(st: State, ch: Change, os: Option<FsError>): (State, Option<FsError>) {
    if !Possible(st.fs, ch) then (st, Some(Io)) else if os.Some? then (st, os) else (Made(st, ch), None)
  }

  function Perform(st: State, root: Path, op: Op, os: Option<FsError>): (State, Option<FsError>) {
    match Plan(st.fs, root, op)
    case Err(e) => (st, Some(e))
    case Ok(ch) => Attempt(st, ch, os)
  }

  class FileSystem {
    var fs: Files
    var trash: seq<Files>

    ghost function StateOf(): State
      reads this
    {
      State(fs, trash)
    }

    constructor (files: Files)
      ensures StateOf() == State(files, [])
    {
      fs, trash := files, [];
    }

    method System(ch: Change, os: Option<FsError>) returns (e: Option<FsError>)
      modifies this
      ensures (StateOf(), e) == Attempt(old(StateOf()), ch, os)
    {
      if !Possible(fs, ch) {
        return Some(Io);
      }
      if os.Some? {
        return os;
      }
      match ch {
        case Put(p, entry) => fs := fs[p := entry];
        case Shift(s, d) => fs := Moved(fs, s, d);
        case Discard(s) =>
          trash := trash + [Below(fs, s)];
          fs := Without(fs, s);
      }
      e := None;
    }

    method CreateFileInner(root: Path, relDir: string, name: string, os: Option<FsError>) returns (e: Option<FsError>)
      modifies this
      ensures (StateOf(), e) == Perform(old(StateOf()), root, CreateFile(relDir, name), os)
    {
      var target := ValidatedNew(fs, root, ReadRel(relDir), name);
      if target.Err? {
        return Some(target.error);
      }
      e := System(Put(target.value, File([])), os);
    }

    method CreateDirInner(root: Path, relDir: string, name: string, os: Option<FsError>) returns (e: Option<FsError>)
      modifies this
      ensures (StateOf(), e) == Perform(old(StateOf()), root, CreateDir(relDir, name), os)
    {
      var target := ValidatedNew(fs, root, ReadRel(relDir), name);
      if target.Err? {
        return Some(target.error);
      }
      e := System(Put(target.value, Dir), os);
    }

    method RenameEntryInner(root: Path, rel: string, newName: string, os: Option<FsError>) returns (e: Option<FsError>)
      modifies this
      ensures (StateOf(), e) == Perform(old(StateOf()), root, Rename(rel, newName), os)
    {
      var source := ValidatedNonRoot(fs, root, ReadRel(rel));
      if source.Err? {
        return Some(source.error);
      }
      var target := ValidatedNew(fs, root, ParentRel(ReadRel(rel)), newName);
      if target.Err? {
        return Some(target.error);
      }
      if target.value in fs {
        return Some(AlreadyExists);
      }
      e := System(Shift(source.value, target.value), os);
    }

    method MoveEntryInner(root: Path, from: string, toDir: string, os: Option<FsError>) returns (e: Option<FsError>)
      modifies this
      ensures (StateOf(), e) == Perform(old(StateOf()), root, Move(from, toDir), os)
    {
      var source := ValidatedNonRoot(fs, root, ReadRel(from));
      if source.Err? {
        return Some(source.error);
      }
      if source.value == [] {
        return Some(OutsideRoot);
      }
      var target := ValidatedNew(fs, root, ReadRel(toDir), Last(source.value));
      if target.Err? {
        return Some(target.error);
      }
      if target.value in fs {
        return Some(AlreadyExists);
      }
      e := System(Shift(source.value, target.value), os);
    }

    method DeleteEntryInner(root: Path, rel: string, os: Option<FsError>) returns (e: Option<FsError>)
      modifies this
      ensures (StateOf(), e) == Perform(old(StateOf()), root, Delete(rel), os)
    {
      var target := ValidatedNonRoot(fs, root, ReadRel(rel));
      if target.Err? {
        return Some(target.error);
      }
      e := System(Discard(target.value), os);
    }
  }

  // ---- Every planned change stays strictly inside the root ----

  predicate Inside(root: Path, p: Path) { root <= p && p != root }

  /** A place a plan may fill: an existing entry's path and one more name. */
  ghost predicate NamedPlace(fs: Files, p: Path) {
    p != [] && Up(p) in fs && IsName(Last(p))
  }

  ghost predicate PlanOk(fs: Files, root: Path, ch: Change) {
    match ch
    case Put(p, _) => Inside(root, p) && NamedPlace(fs, p)
    case Shift(s, d) => Inside(root, s) && Inside(root, d) && NamedPlace(fs, d) && d !in fs && s in fs
    case Discard(s) => Inside(root, s) && s in fs
  }

  lemma ExistingIsInside(fs: Files, root: Path, r: RelPath)
    requires WellFormed(fs) && ValidatedNonRoot(fs, root, r).Ok?
    ensures Inside(root, ValidatedNonRoot(fs, root, r).value) && ValidatedNonRoot(fs, root, r).value in fs
  {
  }

  lemma NewIsInside(fs: Files, root: Path, relDir: RelPath, name: string)
    requires WellFormed(fs) && ValidatedNew(fs, root, relDir, name).Ok?
    ensures Inside(root, ValidatedNew(fs, root, relDir, name).value)
    ensures NamedPlace(fs, ValidatedNew(fs, root, relDir, name).value)
  {
  }

  lemma PlansStayInside(fs: Files, root: Path, op: Op)
    requires WellFormed(fs) && Plan(fs, root, op).Ok?
    ensures PlanOk(fs, root, Plan(fs, root, op).value)
  {
    match op
    case CreateFile(relDir, name) => NewIsInside(fs, root, ReadRel(relDir), name);
    case CreateDir(relDir, name) => NewIsInside(fs, root, ReadRel(relDir), name);
    case Rename(rel, newName) =>
      ExistingIsInside(fs, root, ReadRel(rel));
      NewIsInside(fs, root, ParentRel(ReadRel(rel)), newName);
    case Move(from, toDir) =>
      ExistingIsInside(fs, root, ReadRel(from));
      var source := ValidatedNonRoot(fs, root, ReadRel(from)).value;
      NewIsInside(fs, root, ReadRel(toDir), Last(source));
    case Delete(rel) => ExistingIsInside(fs, root, ReadRel(rel));
  }

  // ---- What one change keeps ----

  ghost function TrashBag(trash: seq<Files>): multiset<Content> {
    if trash == [] then multiset{} else TrashBag(trash[..|trash| - 1]) + Bag(Last(trash))
  }

  ghost function Total(st: State): multiset<Content> { Bag(st.fs) + TrashBag(st.trash) }

  function NewContent(ch: Change): multiset<Content> {
    if ch.Put? then ContentOf(ch.e) else multiset{}
  }

  lemma UpInit(p: Path)
    requires p != []
    ensures Up(p) == p[..|p| - 1]
  {
  }

  lemma ChangeKeepsTree(st: State, root: Path, ch: Change)
    requires WellFormed(st.fs) && PlanOk(st.fs, root, ch) && Possible(st.fs, ch)
    ensures WellFormed(Made(st, ch).fs)
  {
    match ch
    case Put(p, e) => UpInit(p); PutKeeps(st.fs, p, e);
    case Shift(s, d) => UpInit(d); MoveKeeps(st.fs, s, d);
    case Discard(s) => WithoutKeeps(st.fs, s);
  }

  lemma PlaceIsNamed(fs: Files, p: Path)
    requires WellNamed(fs) && NamedPlace(fs, p)
    ensures AllNames(p)
  {
  }

  lemma ChangeKeepsNames(st: State, root: Path, ch: Change)
    requires WellNamed(st.fs) && PlanOk(st.fs, root, ch) && Possible(st.fs, ch)
    ensures WellNamed(Made(st, ch).fs)
  {
    match ch
    case Put(p, e) => PlaceIsNamed(st.fs, p);
    case Shift(s, d) =>
      PlaceIsNamed(st.fs, d);
      forall q | q in Moved(st.fs, s, d) ensures AllNames(q) {
        RebasedAt(Below(st.fs, s), s, d, q);
        if q in Rebased(Below(st.fs, s), s, d) { BackIsNamed(q, s, d); }
      }
    case Discard(_) =>
  }

  lemma BackIsNamed(q: Path, s: Path, d: Path)
    requires d <= q && AllNames(d) && AllNames(Back(q, s, d))
    ensures AllNames(q)
  {
    forall i | 0 <= i < |q| ensures IsName(q[i]) {
      if i < |d| { assert q[i] == d[i]; } else { assert q[i] == Back(q, s, d)[|s| + i - |d|]; }
    }
  }

  lemma ChangeConserves(st: State, root: Path, ch: Change)
    requires WellFormed(st.fs) && PlanOk(st.fs, root, ch) && Possible(st.fs, ch)
    ensures Total(Made(st, ch)) == Total(st) + NewContent(ch)
  {
    match ch
    case Put(p, e) => BagPuts(st.fs, p, e);
    case Shift(s, d) => MoveConserves(st.fs, s, d);
    case Discard(s) =>
      BagOfParts(st.fs, s);
      assert (st.trash + [Below(st.fs, s)])[..|st.trash|] == st.trash;
  }

  predicate SameAt(a: Files, b: Files, p: Path) { (p in a <==> p in b) && (p in a ==> a[p] == b[p]) }

  /** Nothing outside the root changes, nor does the root's own entry. */
  lemma ChangeStaysInside(st: State, root: Path, ch: Change, p: Path)
    requires PlanOk(st.fs, root, ch) && Possible(st.fs, ch) && !Inside(root, p)
    ensures SameAt(Made(st, ch).fs, st.fs, p)
  {
  }

  /** Where an entry is afterwards: where it was; or, with the subtree it is in, at a place that was
      free; or in the Trash. */
  predicate Survives(before: Files, after: State, ch: Change, p: Path)
    requires p in before
  {
    || (p in after.fs && after.fs[p] == before[p])
    || (ch.Shift? && ch.s <= p && ch.d + p[|ch.s|..] !in before
        && ch.d + p[|ch.s|..] in after.fs && after.fs[ch.d + p[|ch.s|..]] == before[p])
    || (ch.Discard? && ch.s <= p && after.trash != [] && p in Last(after.trash) && Last(after.trash)[p] == before[p])
  }

  lemma ChangeOverwritesNothing(st: State, root: Path, ch: Change, p: Path)
    requires WellFormed(st.fs) && PlanOk(st.fs, root, ch) && Possible(st.fs, ch) && p in st.fs
    ensures Survives(st.fs, Made(st, ch), ch, p)
  {
    if ch.Shift? {
      var q := ch.d + if ch.s <= p then p[|ch.s|..] else [];
      RebasedAt(Below(st.fs, ch.s), ch.s, ch.d, p);
      RebasedAt(Below(st.fs, ch.s), ch.s, ch.d, q);
      if ch.s <= p {
        BackThere(p, ch.s, ch.d);
        if q in st.fs { FreeBelow(st.fs, ch.d, q); }
      }
      FreeBelow(st.fs, ch.d, p);
    }
  }

  // ---- One operation ----

  function CreatedBy(op: Op, e: Option<FsError>): multiset<Content> {
    if op.CreateFile? && e.None? then multiset{[]} else multiset{}
  }

  lemma Performed(st: State, root: Path, op: Op, os: Option<FsError>)
    requires WellFormed(st.fs) && Perform(st, root, op, os).1.None?
    ensures Plan(st.fs, root, op).Ok?
    ensures var ch := Plan(st.fs, root, op).value;
            && Perform(st, root, op, os).0 == Made(st, ch)
            && PlanOk(st.fs, root, ch) && Possible(st.fs, ch)
            && NewContent(ch) == CreatedBy(op, None)
  {
    PlansStayInside(st.fs, root, op);
  }

  lemma FailureChangesNothing(st: State, root: Path, op: Op, os: Option<FsError>)
    requires Perform(st, root, op, os).1.Some?
    ensures Perform(st, root, op, os).0 == st
  {
  }

  /** Each operation keeps the tree well-formed and its names valid, conserves all contents but for the empty
      file it may create, changes nothing outside the root or at it, and changes nothing at all when it
      fails. */
  lemma OperationKeeps(st: State, root: Path, op: Op, os: Option<FsError>)
    requires WellFormed(st.fs) && WellNamed(st.fs)
    ensures var (after, e) := Perform(st, root, op, os);
            && WellFormed(after.fs) && WellNamed(after.fs)
            && Total(after) == Total(st) + CreatedBy(op, e)
            && (e.Some? ==> after == st)
            && (forall p :: !Inside(root, p) ==> SameAt(after.fs, st.fs, p))
  {
    var (after, e) := Perform(st, root, op, os);
    if e.Some? {
      FailureChangesNothing(st, root, op, os);
    } else {
      Performed(st, root, op, os);
      var ch := Plan(st.fs, root, op).value;
      ChangeKeepsTree(st, root, ch);
      ChangeKeepsNames(st, root, ch);
      ChangeConserves(st, root, ch);
      forall p | !Inside(root, p) ensures SameAt(after.fs, st.fs, p) { ChangeStaysInside(st, root, ch, p); }
    }
  }

  /** No existing entry is overwritten: each survives in place, at the free place it was moved to, or
      in the Trash. */
  lemma NothingOverwritten(st: State, root: Path, op: Op, os: Option<FsError>, p: Path)
    requires WellFormed(st.fs) && p in st.fs && Perform(st, root, op, os).1.None?
    ensures Survives(st.fs, Perform(st, root, op, os).0, Plan(st.fs, root, op).value, p)
  {
    Performed(st, root, op, os);
    ChangeOverwritesNothing(st, root, Plan(st.fs, root, op).value, p);
  }

  // ---- Every sequence of operations ----

  datatype Request = Request(op: Op, os: Option<FsError>)

  function RunAll(st: State, root: Path, requests: seq<Request>): State {
    if requests == [] then st
    else
      var r := Last(requests);
      Perform(RunAll(st, root, requests[..|requests| - 1]), root, r.op, r.os).0
  }

  function Created(st: State, root: Path, requests: seq<Request>): multiset<Content> {
    if requests == [] then multiset{}
    else
      var init, r := requests[..|requests| - 1], Last(requests);
      Created(st, root, init) + CreatedBy(r.op, Perform(RunAll(st, root, init), root, r.op, r.os).1)
  }

  /** Over every run: all contents are in the tree or in the Trash, plus one empty file for each file
      created, and everything outside the root, and the root's own entry, is as it was. */
  lemma {:induction false} RunsConserve(st: State, root: Path, requests: seq<Request>)
    requires WellFormed(st.fs) && WellNamed(st.fs)
    ensures WellFormed(RunAll(st, root, requests).fs) && WellNamed(RunAll(st, root, requests).fs)
    ensures Total(RunAll(st, root, requests)) == Total(st) + Created(st, root, requests)
    ensures forall p :: !Inside(root, p) ==> SameAt(RunAll(st, root, requests).fs, st.fs, p)
  {
    if requests != [] {
      var init, r := requests[..|requests| - 1], Last(requests);
      RunsConserve(st, root, init);
      OperationKeeps(RunAll(st, root, init), root, r.op, r.os);
      var (mid, end) := (RunAll(st, root, init).fs, RunAll(st, root, requests).fs);
      forall p | !Inside(root, p) ensures SameAt(end, st.fs, p) {
        assert SameAt(end, mid, p) && SameAt(mid, st.fs, p);
      }
    }
  }

  // ---- A rename stays in its directory ----

  lemma {:induction false} StripWalks(fs: Files, start: Path, segs: seq<string>)
    requires Walk(fs, start, segs).Some?
    ensures Walk(fs, start, StripCur(segs)) == Walk(fs, start, segs)
    ensures StripCur(segs) != [] ==> !IsCur(Last(StripCur(segs)))
  {
    if segs != [] && IsCur(Last(segs)) { StripWalks(fs, start, segs[..|segs| - 1]); }
  }

  /** The directory `rename_entry` takes from its argument's text is the one its argument is in, except
      after a final `..`, and then the target would lie inside the source. */
  lemma RenameTarget(fs: Files, root: Path, rel: RelPath, newName: string)
    requires ValidatedNonRoot(fs, root, rel).Ok? && ValidatedNew(fs, root, ParentRel(rel), newName).Ok?
    ensures var source := ValidatedNonRoot(fs, root, rel).value;
            var target := ValidatedNew(fs, root, ParentRel(rel), newName).value;
            source <= target || target == Up(source) + [newName]
  {
    var start := Start(root, rel);
    StripWalks(fs, start, rel.segs);
    var s := StripCur(rel.segs);
    if s != [] {
      var w := Walk(fs, start, s[..|s| - 1]);
      StripWalks(fs, start, s[..|s| - 1]);
    }
  }

  /** A successful rename keeps the entry in its directory. */
  lemma RenameKeepsDirectory(st: State, root: Path, rel: string, newName: string, os: Option<FsError>)
    requires Perform(st, root, Rename(rel, newName), os).1.None?
    ensures var ch := Plan(st.fs, root, Rename(rel, newName)).value;
            ch.Shift? && ch.d == Up(ch.s) + [newName]
  {
    RenameTarget(st.fs, root, ReadRel(rel), newName);
  }
}
