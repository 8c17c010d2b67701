/** The incremental scan of all session logs: a cache keyed by path and stamp that must never show. */
module UsageScan {
  import opened Wrappers
  import opened Usage
  import opened UsageRows
  import Calendar

  const CACHE_VERSION: nat := 1

  datatype Stamp = Stamp(mtimeMs: int, size: nat)

  /** A directory entry: its metadata and its lines, either of which may fail to be read. */
  datatype FileInfo = FileInfo(stamp: Option<Stamp>, content: Option<seq<Line>>)

  datatype DirState = NotDir | Unlistable | Listable

  datatype Disk = NoProjects | Projects(dirs: map<string, DirState>, files: map<FilePath, FileInfo>)

  datatype FileAgg = FileAgg(stamp: Stamp, days: map<Key, Tokens>)

  type CacheFiles = map<FilePath, FileAgg>

  datatype CacheFile = Missing | Corrupt | Stored(version: nat, files: CacheFiles)

  function LoadCache(cf: CacheFile): CacheFiles {
    if cf.Stored? && cf.version == CACHE_VERSION then cf.files else map[]
  }

  /** `Path::extension` is `jsonl`. */
  predicate IsJsonl(name: string) {
    |name| > 6 && name[|name| - 6..] == ".jsonl"
  }

  /** The logs a scan looks at. */
  predicate Seen(disk: Disk, p: FilePath) {
    && disk.Projects?
    && p.dir in disk.dirs && disk.dirs[p.dir] == Listable
    && p in disk.files && IsJsonl(p.name) && disk.files[p].stamp.Some?
  }

  function Visible(disk: Disk): map<FilePath, Stamp> {
    if disk.NoProjects? then map[]
    else map p | p in disk.files && Seen(disk, p) :: disk.files[p].stamp.value
  }

  predicate HasStem(name: string, stem: string) { stem != "" && name == stem + ".jsonl" }

  /** The logs of a scan told from the disk: files with a stamp in the listable directories below the
      projects directory, called something before `.jsonl`. */
  lemma VisibleIs(disk: Disk, p: FilePath)
    ensures p in Visible(disk) <==>
              && disk.Projects? && p.dir in disk.dirs && disk.dirs[p.dir].Listable?
              && p in disk.files && disk.files[p].stamp.Some?
              && exists stem :: HasStem(p.name, stem)
    ensures p in Visible(disk) ==> Some(Visible(disk)[p]) == disk.files[p].stamp
  {
    if stem :| HasStem(p.name, stem) { assert p.name[|p.name| - 6..] == ".jsonl"; }
    if IsJsonl(p.name) { assert HasStem(p.name, p.name[..|p.name| - 6]); }
  }

  function ParseFile(info: FileInfo): map<Key, Tokens> {
    if info.content.Some? then Parse(info.content.value) else map[]
  }

  predicate Unchanged(prior: CacheFiles, p: FilePath, s: Stamp) {
    p in prior && prior[p].stamp == s
  }

  function NewAgg(prior: CacheFiles, disk: Disk, p: FilePath): FileAgg
    requires p in Visible(disk)
  {
    if Unchanged(prior, p, Visible(disk)[p]) then prior[p] else FileAgg(Visible(disk)[p], ParseFile(disk.files[p]))
  }

  /** The cache a scan leaves. */
  function Refreshed(prior: CacheFiles, disk: Disk): CacheFiles {
    map p | p in Visible(disk) :: NewAgg(prior, disk, p)
  }

  /** The logs that are new or whose stamp changed. */
  function Restamped(prior: CacheFiles, disk: Disk): set<FilePath> {
    set p | p in Visible(disk) && !Unchanged(prior, p, Visible(disk)[p])
  }

  function AggregatesOf(files: CacheFiles): Aggregates {
    map p | p in files :: files[p].days
  }

  ghost function FactsFor(files: CacheFiles, range: string, nowMs: int): set<Fact> {
    Ranged(Facts(AggregatesOf(files)), Calendar.RangeCutoffDay(range, nowMs))
  }

  // ---- The scan ----

  datatype Save = Saved | Kept | Torn

  /** What writing the cache does to the file on disk. */
  function AfterSave(cf: CacheFile, files: CacheFiles, save: Save): CacheFile {
    match save
    case Saved => Stored(CACHE_VERSION, files)
    case Kept => cf
    case Torn => Corrupt
  }

  datatype Outcome = Outcome(days: seq<DayUsage>, families: seq<FamilyUsage>, parsedFiles: nat)

  ghost predicate OutcomeIs(o: Outcome, prior: CacheFiles, disk: Disk, range: string, nowMs: int) {
    && DaysAre(o.days, FactsFor(Refreshed(prior, disk), range, nowMs))
    && FamiliesAre(o.families, FactsFor(Refreshed(prior, disk), range, nowMs))
    && o.parsedFiles == |Restamped(prior, disk)|
  }

  /** Mid-scan: the paths seen so far are refreshed, the others as before. */
  ghost predicate CacheAt(cache: CacheFiles, prior: CacheFiles, disk: Disk, seen: set<FilePath>) {
    && seen <= Visible(disk).Keys
    && forall p :: CacheEntryAt(cache, prior, disk, seen, p)
  }

  ghost predicate CacheEntryAt(cache: CacheFiles, prior: CacheFiles, disk: Disk, seen: set<FilePath>, p: FilePath)
    requires seen <= Visible(disk).Keys
  {
    && (p in cache <==> p in prior || p in seen)
    && (p in seen ==> cache[p] == NewAgg(prior, disk, p))
    && (p in prior && p !in seen ==> cache[p] == prior[p])
  }

  ghost function Parsed(prior: CacheFiles, disk: Disk, seen: set<FilePath>): set<FilePath> {
    seen * Restamped(prior, disk)
  }

  function Put(cache: CacheFiles, disk: Disk, p: FilePath): CacheFiles
    requires p in Visible(disk)
  {
    if Unchanged(cache, p, Visible(disk)[p]) then cache
    else cache[p := FileAgg(Visible(disk)[p], ParseFile(disk.files[p]))]
  }

  lemma ParsedOneMore(prior: CacheFiles, disk: Disk, seen: set<FilePath>, p: FilePath)
    requires p in Visible(disk) && p !in seen
    ensures |Parsed(prior, disk, seen + {p})|
            == |Parsed(prior, disk, seen)| + if Unchanged(prior, p, Visible(disk)[p]) then 0 else 1
  {
    assert Parsed(prior, disk, seen + {p})
           == Parsed(prior, disk, seen) + if Unchanged(prior, p, Visible(disk)[p]) then {} else {p};
  }

  lemma OneMoreFile(cache: CacheFiles, prior: CacheFiles, disk: Disk, seen: set<FilePath>, p: FilePath)
    requires CacheAt(cache, prior, disk, seen) && p in Visible(disk) && p !in seen
    ensures Unchanged(cache, p, Visible(disk)[p]) <==> Unchanged(prior, p, Visible(disk)[p])
    ensures CacheAt(Put(cache, disk, p), prior, disk, seen + {p})
    ensures |Parsed(prior, disk, seen + {p})|
            == |Parsed(prior, disk, seen)| + if Unchanged(cache, p, Visible(disk)[p]) then 0 else 1
  {
    assert CacheEntryAt(cache, prior, disk, seen, p);
    forall q ensures CacheEntryAt(Put(cache, disk, p), prior, disk, seen + {p}, q) {
      assert CacheEntryAt(cache, prior, disk, seen, q);
    }
    ParsedOneMore(prior, disk, seen, p);
  }

  /** One project directory, its entries in any order. */
  method ScanDir(disk: Disk, dir: string, cache0: CacheFiles, seen0: set<FilePath>, parsed0: nat,
                 ghost prior: CacheFiles)
    returns (cache: CacheFiles, seen: set<FilePath>, parsed: nat)
    requires disk.Projects? && dir in disk.dirs && disk.dirs[dir] == Listable
    requires CacheAt(cache0, prior, disk, seen0) && parsed0 == |Parsed(prior, disk, seen0)|
    requires forall p :: p in seen0 ==> p.dir != dir
    ensures CacheAt(cache, prior, disk, seen) && parsed == |Parsed(prior, disk, seen)|
    ensures forall p :: p in seen <==> p in seen0 || (p in Visible(disk) && p.dir == dir)
  {
    cache, seen, parsed := cache0, seen0, parsed0;
    var left := set p | p in disk.files && p.dir == dir;
    while left != {}
      invariant left <= disk.files.Keys && forall p :: p in left ==> p.dir == dir
      invariant CacheAt(cache, prior, disk, seen) && parsed == |Parsed(prior, disk, seen)|
      invariant forall p :: p in seen <==> p in seen0 || (p in Visible(disk) && p.dir == dir && p !in left)
      decreases |left|
    {
      var p :| p in left;
      left := left - {p};
      if !IsJsonl(p.name) {
        continue;
      }
      var info := disk.files[p];
      if info.stamp.None? {
        continue;
      }
      assert Seen(disk, p);
      OneMoreFile(cache, prior, disk, seen, p);
      seen := seen + {p};
      var same := p in cache && cache[p].stamp == info.stamp.value;
      if !same {
        parsed := parsed + 1;
        cache := cache[p := FileAgg(info.stamp.value, ParseFile(info))];
      }
    }
  }

  lemma ScannedAll(cache: CacheFiles, prior: CacheFiles, disk: Disk, seen: set<FilePath>)
    requires CacheAt(cache, prior, disk, seen) && seen == Visible(disk).Keys
    ensures (map p | p in cache && p in seen :: cache[p]) == Refreshed(prior, disk)
    ensures Parsed(prior, disk, seen) == Restamped(prior, disk)
  {
    forall p | p in Visible(disk) ensures p in cache && cache[p] == NewAgg(prior, disk, p) {
      assert CacheEntryAt(cache, prior, disk, seen, p);
    }
  }

  /** `scan_usage`. Only an unreadable projects directory fails the scan, and then the cache file is
      not touched. */
  method ScanUsage(cf: CacheFile, disk: Disk, range: string, nowMs: int, save: Save)
    returns (r: Result<Outcome, ()>, cf': CacheFile)
    ensures r.Err? <==> disk.NoProjects?
    ensures r.Err? ==> cf' == cf
    ensures r.Ok? ==> OutcomeIs(r.value, LoadCache(cf), disk, range, nowMs)
    ensures r.Ok? ==> cf' == AfterSave(cf, Refreshed(LoadCache(cf), disk), save)
  {
    var cache, seen, parsed := LoadCache(cf), {}, 0;
    ghost var prior := cache;
    if disk.NoProjects? {
      return Err(()), cf;
    }
    assert Parsed(prior, disk, {}) == {};
    var left := disk.dirs.Keys;
    while left != {}
      invariant left <= disk.dirs.Keys
      invariant CacheAt(cache, prior, disk, seen) && parsed == |Parsed(prior, disk, seen)|
      invariant forall p :: p in seen <==> p in Visible(disk) && p.dir !in left
      decreases |left|
    {
      var dir :| dir in left;
      left := left - {dir};
      if disk.dirs[dir] == NotDir || disk.dirs[dir] == Unlistable {
        continue;
      }
      cache, seen, parsed := ScanDir(disk, dir, cache, seen, parsed, prior);
    }
    ScannedAll(cache, prior, disk, seen);
    cache := map p | p in cache && p in seen :: cache[p];
    cf' := AfterSave(cf, cache, save);
    var days, families := Rows(AggregatesOf(cache), Calendar.RangeCutoffDay(range, nowMs));
    r := Ok(Outcome(days, families, parsed));
  }

  // ---- Sequences of scans ----

  /** What happens to the cache file between two scans. */
  datatype Between = Untouched | Deleted | Garbled | OtherVersion(version: nat, files: CacheFiles)

  function Found(cf: CacheFile, b: Between): CacheFile {
    match b
    case Untouched => cf
    case Deleted => Missing
    case Garbled => Corrupt
    case OtherVersion(v, files) => if v == CACHE_VERSION then Corrupt else Stored(v, files)
  }

  datatype Scan = Scan(before: Between, disk: Disk, range: string, nowMs: int, save: Save)

  function AfterScan(cf: CacheFile, s: Scan): CacheFile {
    var found := Found(cf, s.before);
    if s.disk.NoProjects? then found else AfterSave(found, Refreshed(LoadCache(found), s.disk), s.save)
  }

  function CacheAfter(scans: seq<Scan>): CacheFile {
    if scans == [] then Missing else AfterScan(CacheAfter(scans[..|scans| - 1]), Last(scans))
  }

  /** Reads succeed, and what a log says is determined by its path and stamp. */
  ghost predicate Faithful(disk: Disk, text: (FilePath, Stamp) -> seq<Line>) {
    forall p :: p in Visible(disk) ==> disk.files[p].content == Some(text(p, Visible(disk)[p]))
  }

  ghost predicate Honest(files: CacheFiles, text: (FilePath, Stamp) -> seq<Line>) {
    forall p :: p in files ==> files[p].days == Parse(text(p, files[p].stamp))
  }

  /** A parse of everything from scratch. */
  function FullScan(disk: Disk): CacheFiles {
    map p | p in Visible(disk) :: FileAgg(Visible(disk)[p], ParseFile(disk.files[p]))
  }

  lemma HonestRefreshIsFull(prior: CacheFiles, disk: Disk, text: (FilePath, Stamp) -> seq<Line>)
    requires Honest(prior, text) && Faithful(disk, text)
    ensures Refreshed(prior, disk) == FullScan(disk) && Honest(FullScan(disk), text)
  {
  }

  lemma {:induction false} CacheStaysHonest(scans: seq<Scan>, text: (FilePath, Stamp) -> seq<Line>)
    requires forall i :: 0 <= i < |scans| ==> Faithful(scans[i].disk, text)
    ensures Honest(LoadCache(CacheAfter(scans)), text)
  {
    if scans != [] {
      var init, s := scans[..|scans| - 1], Last(scans);
      CacheStaysHonest(init, text);
      assert Faithful(scans[|scans| - 1].disk, text);
      HonestRefreshIsFull(LoadCache(Found(CacheAfter(init), s.before)), s.disk, text);
    }
  }

  lemma NextCache(scans: seq<Scan>, s: Scan)
    ensures CacheAfter(scans + [s]) == AfterScan(CacheAfter(scans), s)
  {
  }

  /** What the next scan starts from and leaves, given what earlier scans saw. */
  lemma NextScanIsFull(scans: seq<Scan>, s: Scan, text: (FilePath, Stamp) -> seq<Line>)
    requires (forall i :: 0 <= i < |scans| ==> Faithful(scans[i].disk, text)) && Faithful(s.disk, text)
    ensures Refreshed(LoadCache(Found(CacheAfter(scans), s.before)), s.disk) == FullScan(s.disk)
  {
    CacheStaysHonest(scans, text);
    HonestRefreshIsFull(LoadCache(Found(CacheAfter(scans), s.before)), s.disk, text);
  }

  /** Incremental scanning refines full scanning: after any scans, any failed saves and any damage to
      the cache file, the next scan reports and caches what a parse of everything from scratch gives,
      whatever ranges and times were asked for. */
  lemma IncrementalIsFull(scans: seq<Scan>, s: Scan, text: (FilePath, Stamp) -> seq<Line>, o: Outcome)
    requires (forall i :: 0 <= i < |scans| ==> Faithful(scans[i].disk, text)) && Faithful(s.disk, text)
    requires OutcomeIs(o, LoadCache(Found(CacheAfter(scans), s.before)), s.disk, s.range, s.nowMs)
    ensures DaysAre(o.days, FactsFor(FullScan(s.disk), s.range, s.nowMs))
    ensures FamiliesAre(o.families, FactsFor(FullScan(s.disk), s.range, s.nowMs))
    ensures s.disk.Projects? && s.save == Saved ==> CacheAfter(scans + [s]) == Stored(CACHE_VERSION, FullScan(s.disk))
  {
    NextScanIsFull(scans, s, text);
    NextCache(scans, s);
  }

  /** After a saved scan, an undisturbed next scan parses exactly the logs that are new or restamped. */
  lemma ParsesWhatChanged(scans: seq<Scan>, last: Scan, s: Scan, o: Outcome)
    requires last.disk.Projects? && last.save == Saved && s.before == Untouched
    requires OutcomeIs(o, LoadCache(Found(CacheAfter(scans + [last]), s.before)), s.disk, s.range, s.nowMs)
    ensures o.parsedFiles == |set p | p in Visible(s.disk) &&
              !(p in Visible(last.disk) && Visible(last.disk)[p] == Visible(s.disk)[p])|
  {
    NextCache(scans, last);
    var prior := LoadCache(CacheAfter(scans + [last]));
    forall p | p in Visible(s.disk)
      ensures Unchanged(prior, p, Visible(s.disk)[p])
              <==> p in Visible(last.disk) && Visible(last.disk)[p] == Visible(s.disk)[p]
    {
    }
    assert Restamped(prior, s.disk) == set p | p in Visible(s.disk) &&
             !(p in Visible(last.disk) && Visible(last.disk)[p] == Visible(s.disk)[p]);
  }

  /** A log that could not be opened is cached as empty, and as long as its stamp stays and the cache
      is kept its usage is missing, even once it can be read: it reports in full only if there was
      nothing to report. */
  lemma FailedReadPersists(prior: CacheFiles, blind: Disk, clear: Disk, p: FilePath)
    requires p in Visible(blind) && !Unchanged(prior, p, Visible(blind)[p]) && blind.files[p].content.None?
    requires p in Visible(clear) && Visible(clear)[p] == Visible(blind)[p] && clear.files[p].content.Some?
    ensures var next := Refreshed(Refreshed(prior, blind), clear);
            next[p].days == map[] && (next[p] == FullScan(clear)[p] <==> Parse(clear.files[p].content.value) == map[])
  {
  }

  // ---- How long a failed read lasts ----

  /** What can be read of a log is determined by its path and stamp; opening it may fail. */
  ghost predicate Legible(disk: Disk, text: (FilePath, Stamp) -> seq<Line>) {
    forall p :: p in Visible(disk) && disk.files[p].content.Some? ==>
      disk.files[p].content == Some(text(p, Visible(disk)[p]))
  }

  /** The scan saw p under this stamp and saved what it has on it. */
  predicate Puts(s: Scan, p: FilePath, st: Stamp) {
    s.save == Saved && p in Visible(s.disk) && Visible(s.disk)[p] == st
  }

  /** The scan leaves an entry of p under this stamp in the cache: it found the cache untouched, and
      either saved the entry again or did not replace the file. */
  predicate Keeps(s: Scan, p: FilePath, st: Stamp) {
    s.before == Untouched && (s.disk.NoProjects? || s.save == Kept || Puts(s, p, st))
  }

  /** Told from the scans: the cache holds p under this stamp. */
  predicate Held(scans: seq<Scan>, p: FilePath, st: Stamp) {
    scans != [] &&
    (Puts(Last(scans), p, st) || (Held(scans[..|scans| - 1], p, st) && Keeps(Last(scans), p, st)))
  }

  /** Scan i put p under this stamp, without an entry to go by, and could not open it. */
  predicate FailsAt(scans: seq<Scan>, i: nat, p: FilePath, st: Stamp)
    requires i < |scans|
  {
    && Puts(scans[i], p, st) && scans[i].disk.files[p].content.None?
    && !(Held(scans[..i], p, st) && scans[i].before == Untouched)
  }

  /** And every scan since has kept that entry. */
  ghost predicate FailsFrom(scans: seq<Scan>, i: nat, p: FilePath, st: Stamp) {
    i < |scans| && FailsAt(scans, i, p, st) && forall j :: i < j < |scans| ==> Keeps(scans[j], p, st)
  }

  ghost predicate StillFailed(scans: seq<Scan>, p: FilePath, st: Stamp) {
    exists i: nat :: FailsFrom(scans, i, p, st)
  }

  lemma FailedOneMore(scans: seq<Scan>, p: FilePath, st: Stamp)
    requires scans != []
    ensures var init := scans[..|scans| - 1];
            StillFailed(scans, p, st) <==>
              FailsAt(scans, |init|, p, st) || (StillFailed(init, p, st) && Keeps(Last(scans), p, st))
  {
    var init := scans[..|scans| - 1];
    forall i: nat | i < |init|
      ensures FailsFrom(scans, i, p, st) <==> FailsFrom(init, i, p, st) && Keeps(Last(scans), p, st)
    {
      assert scans[..i] == init[..i] && scans[i] == init[i];
      assert forall j :: i < j < |init| ==> scans[j] == init[j];
    }
    assert FailsFrom(scans, |init|, p, st) <==> FailsAt(scans, |init|, p, st);
  }

  /** The cache's entry of p under this stamp: there exactly if held, empty if its read failed, and what
      the log says otherwise. */
  ghost predicate EntryTold(files: CacheFiles, scans: seq<Scan>, p: FilePath, st: Stamp, days: map<Key, Tokens>) {
    && (Unchanged(files, p, st) <==> Held(scans, p, st))
    && (Held(scans, p, st) ==> files[p].days == if StillFailed(scans, p, st) then map[] else days)
    && (StillFailed(scans, p, st) ==> Held(scans, p, st))
  }

  lemma LoadAfterScan(cf: CacheFile, s: Scan)
    ensures var prior := if s.before == Untouched then LoadCache(cf) else map[];
            LoadCache(AfterScan(cf, s)) ==
              if s.disk.NoProjects? || s.save == Kept then prior
              else if s.save == Torn then map[] else Refreshed(prior, s.disk)
  {
  }

  lemma NextTellsEntry(scans: seq<Scan>, text: (FilePath, Stamp) -> seq<Line>, p: FilePath, st: Stamp)
    requires scans != [] && Legible(Last(scans).disk, text)
    requires var init := scans[..|scans| - 1];
             EntryTold(LoadCache(CacheAfter(init)), init, p, st, Parse(text(p, st)))
    ensures EntryTold(LoadCache(CacheAfter(scans)), scans, p, st, Parse(text(p, st)))
  {
    var init, s := scans[..|scans| - 1], Last(scans);
    LoadAfterScan(CacheAfter(init), s);
    FailedOneMore(scans, p, st);
  }

  lemma {:induction false} ScansTellEntry(scans: seq<Scan>, text: (FilePath, Stamp) -> seq<Line>, p: FilePath,
                                          st: Stamp)
    requires forall i :: 0 <= i < |scans| ==> Legible(scans[i].disk, text)
    ensures EntryTold(LoadCache(CacheAfter(scans)), scans, p, st, Parse(text(p, st)))
  {
    if scans != [] {
      ScansTellEntry(scans[..|scans| - 1], text, p, st);
      assert Legible(scans[|scans| - 1].disk, text);
      NextTellsEntry(scans, text, p, st);
    }
  }

  /** What a scan reports of a log it can read, and that has something to report, is wrong if and only if
      opening it failed at the scan that last put it under this stamp and every scan since, and the
      cache file itself, kept the entry. */
  lemma {:induction false} FailedReadLastsExactly(scans: seq<Scan>, s: Scan, text: (FilePath, Stamp) -> seq<Line>,
                                                  p: FilePath)
    requires (forall i :: 0 <= i < |scans| ==> Legible(scans[i].disk, text)) && Legible(s.disk, text)
    requires p in Visible(s.disk) && s.disk.files[p].content.Some?
    requires Parse(s.disk.files[p].content.value) != map[]
    ensures Refreshed(LoadCache(Found(CacheAfter(scans), s.before)), s.disk)[p] != FullScan(s.disk)[p]
            <==> s.before == Untouched && StillFailed(scans, p, Visible(s.disk)[p])
  {
    ScansTellEntry(scans, text, p, Visible(s.disk)[p]);
  }

  // ---- From lines to rows ----

  /** The in-range weight of all entries of all logs. */
  ghost function LogsWeight(logs: map<FilePath, seq<Line>>, cutoff: Option<string>, w: Weight): nat
    decreases |logs|
  {
    if logs == map[] then 0
    else
      var p := AnyKey(logs);
      LineWeight(logs[p], Readable(logs[p]), cutoff, w) + LogsWeight(logs - {p}, cutoff, w)
  }

  function ParseAll(logs: map<FilePath, seq<Line>>): Aggregates {
    map p | p in logs :: Parse(logs[p])
  }

  lemma FactsWithout(logs: map<FilePath, seq<Line>>, cutoff: Option<string>, p: FilePath)
    requires p in logs
    ensures var rest, file := Ranged(Facts(ParseAll(logs - {p})), cutoff), RangedFile(p, Parse(logs[p]), cutoff);
            rest !! file && Ranged(Facts(ParseAll(logs)), cutoff) == rest + file
  {
  }

  /** One log adds the in-range weight of its own entries. */
  lemma LogConserves(logs: map<FilePath, seq<Line>>, cutoff: Option<string>, p: FilePath, w: Weight)
    requires p in logs
    ensures Sum(Ranged(Facts(ParseAll(logs)), cutoff), w)
            == LineWeight(logs[p], Readable(logs[p]), cutoff, w) + Sum(Ranged(Facts(ParseAll(logs - {p})), cutoff), w)
  {
    FactsWithout(logs, cutoff, p);
    SumOfUnion(Ranged(Facts(ParseAll(logs - {p})), cutoff), RangedFile(p, Parse(logs[p]), cutoff), w);
    ParsingConserves(p, logs[p], Readable(logs[p]), cutoff, w);
  }

  lemma {:induction false} LogsConserve(logs: map<FilePath, seq<Line>>, cutoff: Option<string>, w: Weight)
    ensures Sum(Ranged(Facts(ParseAll(logs)), cutoff), w) == LogsWeight(logs, cutoff, w)
    decreases |logs|
  {
    if logs == map[] {
      assert Ranged(Facts(ParseAll(logs)), cutoff) == {};
    } else {
      LogsConserve(logs - {AnyKey(logs)}, cutoff, w);
      LogConserves(logs, cutoff, AnyKey(logs), w);
    }
  }

  /** Rows by day, rows by family and the in-range entries of the lines themselves have the same total in
      each slot and in cost. */
  lemma RowsConserveEntries(logs: map<FilePath, seq<Line>>, cutoff: Option<string>, w: Weight,
                            days: seq<DayUsage>, families: seq<FamilyUsage>)
    requires DaysAre(days, Ranged(Facts(ParseAll(logs)), cutoff))
    requires FamiliesAre(families, Ranged(Facts(ParseAll(logs)), cutoff))
    ensures DaysTotal(days, w) == FamiliesTotal(families, w) == LogsWeight(logs, cutoff, w)
  {
    BothCutsConserve(days, families, Ranged(Facts(ParseAll(logs)), cutoff), w);
    LogsConserve(logs, cutoff, w);
  }

  /** What the visible logs say. */
  function Texts(disk: Disk, text: (FilePath, Stamp) -> seq<Line>): map<FilePath, seq<Line>> {
    map p | p in Visible(disk) :: text(p, Visible(disk)[p])
  }

  lemma FullScanParsesTexts(disk: Disk, text: (FilePath, Stamp) -> seq<Line>)
    requires Faithful(disk, text)
    ensures AggregatesOf(FullScan(disk)) == ParseAll(Texts(disk, text))
  {
  }

  /** The whole chain: whatever scans, failed saves and damage to the cache file came before, both cuts of
      the next scan have, in each slot and in cost, the total of the in-range entries of the lines now
      in the visible logs. */
  lemma ScansConserveEntries(scans: seq<Scan>, s: Scan, text: (FilePath, Stamp) -> seq<Line>, o: Outcome, w: Weight)
    requires (forall i :: 0 <= i < |scans| ==> Faithful(scans[i].disk, text)) && Faithful(s.disk, text)
    requires OutcomeIs(o, LoadCache(Found(CacheAfter(scans), s.before)), s.disk, s.range, s.nowMs)
    ensures DaysTotal(o.days, w) == FamiliesTotal(o.families, w)
            == LogsWeight(Texts(s.disk, text), Calendar.RangeCutoffDay(s.range, s.nowMs), w)
  {
    IncrementalIsFull(scans, s, text, o);
    FullScanParsesTexts(s.disk, text);
    RowsConserveEntries(Texts(s.disk, text), Calendar.RangeCutoffDay(s.range, s.nowMs), w, o.days, o.families);
  }
}
