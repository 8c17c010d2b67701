/** The registered-workspace-roots cache and the guard every filesystem command runs first. */
module Roots {
  import opened Wrappers
  import opened Paths

  type WorkspaceId = nat

  datatype Workspace = Workspace(id: WorkspaceId, roots: seq<string>)

  /** What `std::fs::canonicalize` answers at the time of a call; a path not in the map fails. */
  type Canon = map<string, string>

  datatype Cache = NeverLoaded | Loaded(roots: map<WorkspaceId, seq<string>>)

  datatype Push = WorkspaceCreated(created: Workspace) | WorkspaceUpdated(updated: Workspace)
                | WorkspaceRemoved(id: WorkspaceId) | OtherPush

  /** Everything that reaches the cache. `Mine` is a command's own reply to create, add root or
      remove root; `Dropped` the acknowledgement of this process's own `remove_workspace`. */
  datatype Event = List(workspaces: seq<Workspace>, at: Canon) | Pushed(push: Push, at: Canon)
                 | Mine(workspace: Workspace, at: Canon) | Dropped(id: WorkspaceId)

  function CanonicalRootStr(fs: Canon, root: string): string {
    if root in fs then fs[root] else root
  }

  function CanonicalRoots(fs: Canon, roots: seq<string>): seq<string> {
    seq(|roots|, i requires 0 <= i < |roots| => CanonicalRootStr(fs, roots[i]))
  }

  /** Collecting id and roots into a map: the last workspace listed under an id wins. */
  function Listed(fs: Canon, workspaces: seq<Workspace>): map<WorkspaceId, seq<string>> {
    if workspaces == [] then map[]
    else Listed(fs, workspaces[..|workspaces| - 1])[Last(workspaces).id := CanonicalRoots(fs, Last(workspaces).roots)]
  }

  function Upserted(c: Cache, fs: Canon, w: Workspace): Cache {
    var roots := CanonicalRoots(fs, w.roots);
    Loaded(if c.NeverLoaded? then map[w.id := roots] else c.roots[w.id := roots])
  }

  function Removed(c: Cache, id: WorkspaceId): Cache {
    if c.NeverLoaded? then c else Loaded(c.roots - {id})
  }

  function PushApplied(c: Cache, fs: Canon, p: Push): Cache {
    match p
    case WorkspaceCreated(w) => Upserted(c, fs, w)
    case WorkspaceUpdated(w) => Upserted(c, fs, w)
    case WorkspaceRemoved(id) => Removed(c, id)
    case OtherPush => c
  }

  function Step(c: Cache, e: Event): Cache {
    match e
    case List(workspaces, fs) => Loaded(Listed(fs, workspaces))
    case Pushed(p, fs) => PushApplied(c, fs, p)
    case Mine(w, fs) => Upserted(c, fs, w)
    case Dropped(id) => Removed(c, id)
  }

  function Fold(c: Cache, events: seq<Event>): Cache {
    if events == [] then c else Step(Fold(c, events[..|events| - 1]), Last(events))
  }

  // ---- The last word on a workspace ----

  datatype Word = Silent | Gone | Says(roots: seq<string>)

  function UpsertOf(e: Event): Option<Workspace> {
    match e
    case Mine(w, _) => Some(w)
    case Pushed(WorkspaceCreated(w), _) => Some(w)
    case Pushed(WorkspaceUpdated(w), _) => Some(w)
    case _ => None
  }

  function RemovalOf(e: Event): Option<WorkspaceId> {
    match e
    case Dropped(id) => Some(id)
    case Pushed(WorkspaceRemoved(id), _) => Some(id)
    case _ => None
  }

  /** The roots the last listing under this id gives. */
  function InList(fs: Canon, workspaces: seq<Workspace>, id: WorkspaceId): Word {
    if workspaces == [] then Gone
    else if Last(workspaces).id == id then Says(CanonicalRoots(fs, Last(workspaces).roots))
    else InList(fs, workspaces[..|workspaces| - 1], id)
  }

  /** What one event says about an id. */
  function Mentions(e: Event, id: WorkspaceId): Word {
    if e.List? then InList(e.at, e.workspaces, id)
    else if UpsertOf(e).Some? && UpsertOf(e).value.id == id then
      Says(CanonicalRoots(if e.Mine? then e.at else if e.Pushed? then e.at else map[], UpsertOf(e).value.roots))
    else if RemovalOf(e) == Some(id) then Gone
    else Silent
  }

  /** Reading the events backwards, the first one that mentions the id; a full list mentions every id. */
  function LastWord(events: seq<Event>, id: WorkspaceId): Word {
    if events == [] then Gone
    else if Mentions(Last(events), id) != Silent then Mentions(Last(events), id)
    else LastWord(events[..|events| - 1], id)
  }

  predicate Loads(e: Event) { e.List? || UpsertOf(e).Some? }

  predicate Agrees(m: map<WorkspaceId, seq<string>>, id: WorkspaceId, w: Word) {
    match w
    case Silent => false
    case Gone => id !in m
    case Says(roots) => id in m && m[id] == roots
  }

  lemma {:induction false} ListedAgrees(fs: Canon, workspaces: seq<Workspace>, id: WorkspaceId)
    ensures Agrees(Listed(fs, workspaces), id, InList(fs, workspaces, id))
  {
    if workspaces != [] { ListedAgrees(fs, workspaces[..|workspaces| - 1], id); }
  }

  /** The cache after any events: never loaded until the first list or upsert, and from then on for
      each id exactly the last word on it. */
  lemma {:induction false} CacheIsLastWord(events: seq<Event>, id: WorkspaceId)
    ensures Fold(NeverLoaded, events).Loaded? <==> exists i :: 0 <= i < |events| && Loads(events[i])
    ensures Fold(NeverLoaded, events).Loaded? ==> Agrees(Fold(NeverLoaded, events).roots, id, LastWord(events, id))
    ensures Fold(NeverLoaded, events).NeverLoaded? ==> LastWord(events, id) == Gone
  {
    if events != [] {
      var init, e := events[..|events| - 1], Last(events);
      CacheIsLastWord(init, id);
      assert events[|events| - 1] == e;
      assert forall i :: 0 <= i < |init| ==> events[i] == init[i];
      if e.List? { ListedAgrees(e.at, e.workspaces, id); }
    }
  }

  /** What the cache keeps of one root: its canonical form if it has one at the time, or else the text as it
      came. */
  predicate KeptAs(fs: Canon, root: string, kept: string) {
    (root in fs && kept == fs[root]) || (root !in fs && kept == root)
  }

  predicate AllKeptAs(fs: Canon, roots: seq<string>, kept: seq<string>) {
    |kept| == |roots| && forall i :: 0 <= i < |roots| ==> KeptAs(fs, roots[i], kept[i])
  }

  /** What each event does to a loaded cache, entry by entry. */
  lemma EventsKeepRoots(c: Cache, fs: Canon, w: Workspace, id: WorkspaceId)
    ensures forall e :: e == Mine(w, fs) || e == Pushed(WorkspaceCreated(w), fs) || e == Pushed(WorkspaceUpdated(w), fs)
              ==> Step(c, e).Loaded? && w.id in Step(c, e).roots && AllKeptAs(fs, w.roots, Step(c, e).roots[w.id])
    ensures forall e :: e == Dropped(id) || e == Pushed(WorkspaceRemoved(id), fs) ==>
              Step(c, e).Loaded? == c.Loaded? && (c.Loaded? ==> id !in Step(c, e).roots)
    ensures Step(c, Pushed(OtherPush, fs)) == c
  {
  }

  /** And a full list: each listed workspace has the roots it is last listed with, and no other is there. */
  lemma {:induction false} ListKeepsRoots(fs: Canon, workspaces: seq<Workspace>, id: WorkspaceId, i: nat)
    ensures id in Listed(fs, workspaces) <==> IsListed(workspaces, id)
    ensures LastListed(workspaces, id, i) ==>
              id in Listed(fs, workspaces) && AllKeptAs(fs, workspaces[i].roots, Listed(fs, workspaces)[id])
  {
    if workspaces != [] {
      var init, last := workspaces[..|workspaces| - 1], |workspaces| - 1;
      ListKeepsRoots(fs, init, id, i);
      assert IsListed(workspaces, id) <==> IsListed(init, id) || workspaces[last].id == id;
      assert LastListed(workspaces, id, i) && i < last ==> LastListed(init, id, i) && workspaces[last].id != id;
    }
  }

  predicate IsListed(workspaces: seq<Workspace>, id: WorkspaceId) {
    exists i :: 0 <= i < |workspaces| && workspaces[i].id == id
  }

  predicate LastListed(workspaces: seq<Workspace>, id: WorkspaceId, i: nat) {
    i < |workspaces| && workspaces[i].id == id && forall j :: i < j < |workspaces| ==> workspaces[j].id != id
  }

  /** Once loaded, whatever follows, the cache stays loaded. */
  lemma {:induction false} LoadedForGood(c: Cache, more: seq<Event>)
    requires c.Loaded?
    ensures Fold(c, more).Loaded?
  {
    if more != [] { LoadedForGood(c, more[..|more| - 1]); }
  }

  // ---- The cache and its guard ----

  datatype CommandError = Disconnected | NotFound | OutsideRoot

  predicate ContainedIn(m: map<WorkspaceId, seq<string>>, path: string) {
    exists id, i :: id in m && 0 <= i < |m[id]| && StartsWith(path, m[id][i])
  }

  class WorkspaceRootsSlot {
    var cache: Cache

    constructor ()
      ensures cache == NeverLoaded
    {
      cache := NeverLoaded;
    }

    method Load(fs: Canon, workspaces: seq<Workspace>)
      modifies this
      ensures cache == Step(old(cache), List(workspaces, fs))
    {
      var m := map[];
      var i := 0;
      while i < |workspaces|
        invariant 0 <= i <= |workspaces|
        invariant m == Listed(fs, workspaces[..i])
        invariant cache == old(cache)
      {
        assert workspaces[..i + 1][..i] == workspaces[..i];
        m := m[workspaces[i].id := CanonicalRoots(fs, workspaces[i].roots)];
        i := i + 1;
      }
      assert workspaces[..i] == workspaces;
      cache := Loaded(m);
    }

    method Upsert(fs: Canon, w: Workspace)
      modifies this
      ensures cache == Step(old(cache), Mine(w, fs))
    {
      var roots := CanonicalRoots(fs, w.roots);
      match cache {
        case Loaded(m) => cache := Loaded(m[w.id := roots]);
        case NeverLoaded => cache := Loaded(map[w.id := roots]);
      }
    }

    method Remove(id: WorkspaceId)
      modifies this
      ensures cache == Step(old(cache), Dropped(id))
    {
      if cache.Loaded? {
        cache := Loaded(cache.roots - {id});
      }
    }

    method ApplyPush(fs: Canon, p: Push)
      modifies this
      ensures cache == Step(old(cache), Pushed(p, fs))
    {
      match p {
        case WorkspaceCreated(w) => Upsert(fs, w);
        case WorkspaceUpdated(w) => Upsert(fs, w);
        case WorkspaceRemoved(id) => Remove(id);
        case OtherPush =>
      }
    }

    /** Fail closed, with the reasons in this order: nothing known, no such path, not contained. */
    method EnsureRegisteredRootIn(fs: Canon, root: string) returns (r: Result<(), CommandError>)
      ensures r.Ok? <==> cache.Loaded? && root in fs && ContainedIn(cache.roots, fs[root])
      ensures r == Err(Disconnected) <==> cache.NeverLoaded?
      ensures r == Err(NotFound) <==> cache.Loaded? && root !in fs
    {
      if cache.NeverLoaded? {
        return Err(Disconnected);
      }
      if root !in fs {
        return Err(NotFound);
      }
      var canonical := fs[root];
      var left := cache.roots.Keys;
      while left != {}
        invariant left <= cache.roots.Keys
        invariant forall id, i :: id in cache.roots && id !in left && 0 <= i < |cache.roots[id]| ==>
                    !StartsWith(canonical, cache.roots[id][i])
        decreases |left|
      {
        var id :| id in left;
        var i := 0;
        while i < |cache.roots[id]|
          invariant 0 <= i <= |cache.roots[id]|
          invariant forall j :: 0 <= j < i ==> !StartsWith(canonical, cache.roots[id][j])
        {
          if StartsWith(canonical, cache.roots[id][i]) {
            return Ok(());
          }
          i := i + 1;
        }
        left := left - {id};
      }
      r := Err(OutsideRoot);
    }
  }

  /** The guard over a whole history: it admits a path exactly when something was announced and the
      path canonicalizes to a component-wise descendant of a root in the last word on its workspace. */
  lemma GuardAdmits(events: seq<Event>, path: string)
    ensures var c := Fold(NeverLoaded, events);
            c.Loaded? && ContainedIn(c.roots, path) <==>
              exists id, i :: LastWord(events, id).Says? && 0 <= i < |LastWord(events, id).roots|
                           && StartsWith(path, LastWord(events, id).roots[i])
  {
    var c := Fold(NeverLoaded, events);
    forall id ensures c.Loaded? ==> Agrees(c.roots, id, LastWord(events, id))
      ensures c.NeverLoaded? ==> LastWord(events, id) == Gone
    {
      CacheIsLastWord(events, id);
    }
    if c.Loaded? && ContainedIn(c.roots, path) {
      var id, i :| id in c.roots && 0 <= i < |c.roots[id]| && StartsWith(path, c.roots[id][i]);
      assert LastWord(events, id) == Says(c.roots[id]);
      assert StartsWith(path, LastWord(events, id).roots[i]);
    }
  }

  // ---- A list that lands late ----

  /** A workspace change at the daemon, which it also broadcasts. */
  datatype Change = Up(w: Workspace) | Down(id: WorkspaceId)

  function Subject(ch: Change): WorkspaceId { if ch.Up? then ch.w.id else ch.id }

  function AsPush(ch: Change): Push { if ch.Up? then WorkspaceUpdated(ch.w) else WorkspaceRemoved(ch.id) }

  function Pushes(changes: seq<Change>, fs: Canon): seq<Event> {
    seq(|changes|, i requires 0 <= i < |changes| => Pushed(AsPush(changes[i]), fs))
  }

  predicate Touches(changes: seq<Change>, id: WorkspaceId) {
    exists i :: 0 <= i < |changes| && Subject(changes[i]) == id
  }

  predicate SameAt(a: map<WorkspaceId, seq<string>>, b: map<WorkspaceId, seq<string>>, id: WorkspaceId) {
    (id in a <==> id in b) && (id in a ==> a[id] == b[id])
  }

  /** Applying the same changes to two loaded caches leaves them apart on an id exactly when they
      were apart on it and no change touched it. */
  lemma {:induction false} ChangesDecide(a: Cache, b: Cache, changes: seq<Change>, fs: Canon, id: WorkspaceId)
    requires a.Loaded? && b.Loaded?
    ensures Fold(a, Pushes(changes, fs)).Loaded? && Fold(b, Pushes(changes, fs)).Loaded?
    ensures SameAt(Fold(a, Pushes(changes, fs)).roots, Fold(b, Pushes(changes, fs)).roots, id)
        <==> Touches(changes, id) || SameAt(a.roots, b.roots, id)
  {
    if changes != [] {
      var init, ch := changes[..|changes| - 1], Last(changes);
      ChangesDecide(a, b, init, fs, id);
      assert Pushes(changes, fs)[..|changes| - 1] == Pushes(init, fs);
      assert changes[|changes| - 1] == ch;
      assert Touches(changes, id) <==> Touches(init, id) || Subject(ch) == id;
    }
  }

  lemma {:induction false} FoldInTwo(c: Cache, a: seq<Event>, b: seq<Event>)
    ensures Fold(c, a + b) == Fold(Fold(c, a), b)
  {
    if b == [] {
      assert a + b == a;
    } else {
      assert (a + b)[..|a + b| - 1] == a + b[..|b| - 1];
      FoldInTwo(c, a, b[..|b| - 1]);
    }
  }

  /** A full list answered before the changes `missed`, but applied after their pushes, and followed
      by the pushes of `later`. For each workspace the cache ends up where the daemon is exactly when
      a later change touches it or the missed ones left its roots as the list shows them. */
  lemma LateList(before: Cache, workspaces: seq<Workspace>, missed: seq<Change>, later: seq<Change>, fs: Canon,
                 id: WorkspaceId)
    ensures var list := List(workspaces, fs);
            var seen := Fold(before, Pushes(missed, fs) + [list] + Pushes(later, fs));
            var truth := Fold(before, [list] + Pushes(missed, fs) + Pushes(later, fs));
            var listed, moved := Listed(fs, workspaces), Fold(Loaded(Listed(fs, workspaces)), Pushes(missed, fs));
            && seen.Loaded? && truth.Loaded? && moved.Loaded?
            && (SameAt(seen.roots, truth.roots, id) <==> Touches(later, id) || SameAt(listed, moved.roots, id))
  {
    var list := List(workspaces, fs);
    var start := Loaded(Listed(fs, workspaces));
    FoldInTwo(before, Pushes(missed, fs) + [list], Pushes(later, fs));
    assert (Pushes(missed, fs) + [list])[..|missed|] == Pushes(missed, fs);
    assert Fold(before, Pushes(missed, fs) + [list]) == start;
    FoldInTwo(before, [list] + Pushes(missed, fs), Pushes(later, fs));
    FoldInTwo(before, [list], Pushes(missed, fs));
    assert [list][..0] == [];
    assert Fold(before, [list]) == Step(Fold(before, []), list) == start;
    LoadedForGood(start, Pushes(missed, fs));
    ChangesDecide(start, Fold(start, Pushes(missed, fs)), later, fs, id);
  }

  /** So the cache is not always the daemon's set: a workspace removed while the list was on its way
      keeps its root. */
  lemma StaleListReply()
    ensures var w := Workspace(1, ["/ws"]);
            var seen := Fold(NeverLoaded, Pushes([Down(1)], map[]) + [List([w], map[])] + Pushes([], map[]));
            var truth := Fold(NeverLoaded, [List([w], map[])] + Pushes([Down(1)], map[]) + Pushes([], map[]));
            seen.Loaded? && truth.Loaded? && 1 in seen.roots && 1 !in truth.roots
  {
  }
}
