/** What the rows of a scan say, told from the fields of the log lines themselves. */
module UsageLines {
  import opened Wrappers
  import opened Text
  import opened Usage
  import opened UsageFold
  import opened UsageRows
  import opened UsageScan
  import Calendar

  // ---- One line ----

  /** The line reports output tokens and has a timestamp with a full date. */
  predicate Counts(line: Line) {
    && line.Json?
    && line.usage.Some? && line.usage.value.output.Some?
    && line.timestamp.Some? && |line.timestamp.value| >= 10
  }

  function DayOf(line: Line): string
    requires Counts(line)
  {
    line.timestamp.value[..10]
  }

  function DirOf(line: Line): string
    requires Counts(line)
  {
    match line.cwd
    case Some(d) => d
    case None => ""
  }

  /** The first of these names that the lowercased model id holds. */
  function FamilyOf(line: Line): string
    requires Counts(line)
  {
    var id := match line.model case Some(m) => Lower(m) case None => "";
    if Contains(id, "opus") then "opus"
    else if Contains(id, "sonnet") then "sonnet"
    else if Contains(id, "haiku") then "haiku"
    else if Contains(id, "fable") then "fable" else "other"
  }

  predicate IsPriced(family: string) { family == "opus" || family == "sonnet" || family == "haiku" }

  function Given(count: Option<nat>): nat {
    match count
    case Some(n) => n
    case None => 0
  }

  /** What the line says for each slot, and what that costs. */
  function Field(line: Line, w: Weight): nat
    requires Counts(line)
  {
    var u := line.usage.value;
    match w
    case Input => Given(u.input)
    case Output => Given(u.output)
    case Write => Given(u.write)
    case Read => Given(u.read)
    case Cost => MoneyFor(FamilyOf(line), Given(u.input), Given(u.output), Given(u.write), Given(u.read))
  }

  /** In hundredths of a dollar for a million tokens. */
  function MoneyFor(family: string, input: nat, output: nat, write: nat, read: nat): nat {
    if family == "opus" then 1500 * input + 7500 * output + 1875 * write + 150 * read
    else if family == "sonnet" then 300 * input + 1500 * output + 375 * write + 30 * read
    else if family == "haiku" then 100 * input + 500 * output + 125 * write + 10 * read
    else 0
  }

  lemma ItemSays(line: Line)
    ensures ItemOf(line).Some? <==> Counts(line)
    ensures Counts(line) ==> ItemOf(line).value.key == KeyOf(line)
  {
  }

  function KeyOf(line: Line): Key
    requires Counts(line)
  {
    Key(DayOf(line), DirOf(line), FamilyOf(line))
  }

  lemma PricesAre(family: string, t: Tokens)
    ensures CostOf(family, t) == MoneyFor(family, t.input, t.output, t.write, t.read)
    ensures PriceFor(family).Some? <==> IsPriced(family)
  {
  }

  lemma ItemWeighs(line: Line, w: Weight)
    requires Counts(line)
    ensures ItemOf(line).Some? && Weigh(w, FamilyOf(line), ItemOf(line).value.t) == Field(line, w)
  {
    PricesAre(FamilyOf(line), ItemOf(line).value.t);
  }

  // ---- Which lines make up a row ----

  predicate LineInRange(line: Line, cutoff: Option<string>)
    requires Counts(line)
  {
    cutoff.None? || !Less(DayOf(line), cutoff.value)
  }

  predicate InCut(line: Line, c: Cut)
    requires Counts(line)
  {
    match c
    case DayCut(day, cwd) => DayOf(line) == day && DirOf(line) == cwd
    case FamilyCut(fam) => FamilyOf(line) == fam
  }

  predicate Adds(line: Line, cutoff: Option<string>, c: Cut) {
    Counts(line) && LineInRange(line, cutoff) && InCut(line, c)
  }

  function LinesTotal(lines: seq<Line>, n: nat, cutoff: Option<string>, c: Cut, w: Weight): nat
    requires n <= |lines|
  {
    if n == 0 then 0
    else
      LinesTotal(lines, n - 1, cutoff, c, w) + if Adds(lines[n - 1], cutoff, c) then Field(lines[n - 1], w) else 0
  }

  function DimOf(c: Cut): Dimension { if c.DayCut? then ByDay else ByFamily }

  /** What one file contributes to a cut. */
  ghost function CutFacts(p: FilePath, days: map<Key, Tokens>, cutoff: Option<string>, c: Cut): set<Fact> {
    At(RangedFile(p, days, cutoff), DimOf(c), c)
  }

  predicate KeyAdds(k: Key, cutoff: Option<string>, c: Cut) {
    InRange(k.day, cutoff) && CutOf(DimOf(c), k) == c
  }

  lemma CutWithoutKey(p: FilePath, days: map<Key, Tokens>, k: Key, t: Tokens, cutoff: Option<string>, c: Cut, w: Weight)
    requires KeyAdds(k, cutoff, c)
    ensures Sum(CutFacts(p, days[k := t], cutoff, c), w)
            == Weigh(w, k.fam, t) + Sum(CutFacts(p, days - {k}, cutoff, c), w)
  {
    var f := Fact(p, k, t);
    WithoutKey(p, days, k, t, cutoff);
    assert f in CutFacts(p, days[k := t], cutoff, c);
    assert CutFacts(p, days[k := t], cutoff, c) - {f} == CutFacts(p, days - {k}, cutoff, c);
    SumTakesOut(CutFacts(p, days[k := t], cutoff, c), f, w);
  }

  lemma CutOtherKey(p: FilePath, days: map<Key, Tokens>, k: Key, t: Tokens, cutoff: Option<string>, c: Cut)
    requires !KeyAdds(k, cutoff, c)
    ensures CutFacts(p, days[k := t], cutoff, c) == CutFacts(p, days, cutoff, c)
  {
  }

  lemma AddedToCut(p: FilePath, days: map<Key, Tokens>, k: Key, t: Tokens, cutoff: Option<string>, c: Cut, w: Weight)
    ensures Sum(CutFacts(p, Added(days, k, t), cutoff, c), w)
         == Sum(CutFacts(p, days, cutoff, c), w) + if KeyAdds(k, cutoff, c) then Weigh(w, k.fam, t) else 0
  {
    var before := if k in days then days[k] else NO_TOKENS;
    if KeyAdds(k, cutoff, c) {
      CutWithoutKey(p, days, k, Plus(before, t), cutoff, c, w);
      SamePut(days, k);
      NothingWeighs(w, k.fam);
      WeighAdds(w, k.fam, before, t);
      if k in days { CutWithoutKey(p, days, k, days[k], cutoff, c, w); }
    } else {
      CutOtherKey(p, days, k, Plus(before, t), cutoff, c);
    }
  }

  lemma LineAdds(line: Line, cutoff: Option<string>, c: Cut)
    ensures Adds(line, cutoff, c) <==> ItemOf(line).Some? && KeyAdds(ItemOf(line).value.key, cutoff, c)
  {
    ItemSays(line);
  }

  /** For each slot and for cost, a file contributes to a row the sum of the like-named field over the lines
      that belong to it. */
  lemma {:induction false} FileTotals(p: FilePath, lines: seq<Line>, n: nat, cutoff: Option<string>, c: Cut, w: Weight)
    requires n <= |lines|
    ensures Sum(CutFacts(p, ParsedUpTo(lines, n), cutoff, c), w) == LinesTotal(lines, n, cutoff, c, w)
    decreases n
  {
    if n == 0 {
      assert CutFacts(p, map[], cutoff, c) == {};
    } else {
      FileTotals(p, lines, n - 1, cutoff, c, w);
      var line := lines[n - 1];
      LineAdds(line, cutoff, c);
      ItemSays(line);
      if Counts(line) {
        ItemWeighs(line, w);
        AddedToCut(p, ParsedUpTo(lines, n - 1), ItemOf(line).value.key, ItemOf(line).value.t, cutoff, c, w);
      }
    }
  }

  // ---- One bucket ----

  function KeyTotal(lines: seq<Line>, n: nat, k: Key, w: Weight): nat
    requires n <= |lines|
  {
    if n == 0 then 0
    else
      var line := lines[n - 1];
      KeyTotal(lines, n - 1, k, w) + if Counts(line) && KeyOf(line) == k then Field(line, w) else 0
  }

  /** A parsed log has a bucket for a day, directory and family exactly if a readable line has these three,
      and its slots are the sums of the like-named fields of those lines. */
  lemma BucketSays(lines: seq<Line>, k: Key)
    ensures k in Parse(lines) <==> SomeLine(lines, Readable(lines), k)
    ensures k in Parse(lines) ==>
              && Parse(lines)[k].input == KeyTotal(lines, Readable(lines), k, Input)
              && Parse(lines)[k].output == KeyTotal(lines, Readable(lines), k, Output)
              && Parse(lines)[k].write == KeyTotal(lines, Readable(lines), k, Write)
              && Parse(lines)[k].read == KeyTotal(lines, Readable(lines), k, Read)
  {
    KeysAre(lines, Readable(lines), k);
    KeyTotals(lines, Readable(lines), k, Input);
    KeyTotals(lines, Readable(lines), k, Output);
    KeyTotals(lines, Readable(lines), k, Write);
    KeyTotals(lines, Readable(lines), k, Read);
  }

  lemma {:induction false} KeyTotals(lines: seq<Line>, n: nat, k: Key, w: Weight)
    requires n <= |lines|
    ensures var buckets := ParsedUpTo(lines, n);
            Weigh(w, k.fam, if k in buckets then buckets[k] else NO_TOKENS) == KeyTotal(lines, n, k, w)
  {
    if n == 0 {
      NothingWeighs(w, k.fam);
    } else {
      KeyTotals(lines, n - 1, k, w);
      var line, before := lines[n - 1], ParsedUpTo(lines, n - 1);
      ItemSays(line);
      if Counts(line) {
        ItemWeighs(line, w);
        WeighAdds(w, k.fam, if k in before then before[k] else NO_TOKENS, ItemOf(line).value.t);
      }
    }
  }

  // ---- Which keys a file has ----

  ghost predicate SomeLine(lines: seq<Line>, n: nat, k: Key) {
    exists i :: 0 <= i < n <= |lines| && Counts(lines[i]) && KeyOf(lines[i]) == k
  }

  lemma {:induction false} KeysAre(lines: seq<Line>, n: nat, k: Key)
    requires n <= |lines|
    ensures k in ParsedUpTo(lines, n) <==> SomeLine(lines, n, k)
  {
    if n > 0 {
      KeysAre(lines, n - 1, k);
      ItemSays(lines[n - 1]);
    }
  }

  /** Some readable line of the log belongs to the row, and has a family of this kind. */
  ghost predicate LogAdds(lines: seq<Line>, cutoff: Option<string>, c: Cut, kind: Kind) {
    exists i :: 0 <= i < Readable(lines) && Adds(lines[i], cutoff, c) && OfKind(FamilyOf(lines[i]), kind)
  }

  datatype Kind = Any | Priced | Unpriced

  predicate OfKind(family: string, kind: Kind) {
    match kind
    case Any => true
    case Priced => IsPriced(family)
    case Unpriced => !IsPriced(family)
  }

  ghost predicate FactOfKind(f: Fact, kind: Kind) {
    match kind
    case Any => true
    case Priced => PriceFor(f.key.fam).Some?
    case Unpriced => PriceFor(f.key.fam).None?
  }

  /** The facts of a cut and of one kind. */
  ghost predicate CutHas(s: set<Fact>, kind: Kind) { exists f :: f in s && FactOfKind(f, kind) }

  lemma FactComesFromLine(p: FilePath, lines: seq<Line>, cutoff: Option<string>, c: Cut, kind: Kind, f: Fact)
    requires f in CutFacts(p, Parse(lines), cutoff, c) && FactOfKind(f, kind)
    ensures LogAdds(lines, cutoff, c, kind)
  {
    var n := Readable(lines);
    KeysAre(lines, n, f.key);
    var i :| 0 <= i < n && Counts(lines[i]) && KeyOf(lines[i]) == f.key;
    PricesAre(f.key.fam, f.t);
    assert Adds(lines[i], cutoff, c) && OfKind(FamilyOf(lines[i]), kind);
  }

  lemma LineMakesFact(p: FilePath, lines: seq<Line>, cutoff: Option<string>, c: Cut, kind: Kind, i: nat)
    requires i < Readable(lines) && Adds(lines[i], cutoff, c) && OfKind(FamilyOf(lines[i]), kind)
    ensures CutHas(CutFacts(p, Parse(lines), cutoff, c), kind)
  {
    var k := KeyOf(lines[i]);
    KeysAre(lines, Readable(lines), k);
    var f := Fact(p, k, Parse(lines)[k]);
    PricesAre(k.fam, f.t);
    assert f in RangedFile(p, Parse(lines), cutoff);
    assert f in CutFacts(p, Parse(lines), cutoff, c) && FactOfKind(f, kind);
  }

  lemma FileHas(p: FilePath, lines: seq<Line>, cutoff: Option<string>, c: Cut, kind: Kind)
    ensures CutHas(CutFacts(p, Parse(lines), cutoff, c), kind) <==> LogAdds(lines, cutoff, c, kind)
  {
    if CutHas(CutFacts(p, Parse(lines), cutoff, c), kind) {
      var f :| f in CutFacts(p, Parse(lines), cutoff, c) && FactOfKind(f, kind);
      FactComesFromLine(p, lines, cutoff, c, kind, f);
    }
    if LogAdds(lines, cutoff, c, kind) {
      var i :| 0 <= i < Readable(lines) && Adds(lines[i], cutoff, c) && OfKind(FamilyOf(lines[i]), kind);
      LineMakesFact(p, lines, cutoff, c, kind, i);
    }
  }

  // ---- All logs ----

  ghost function LogsTotal(logs: map<FilePath, seq<Line>>, cutoff: Option<string>, c: Cut, w: Weight): nat
    decreases |logs|
  {
    if logs == map[] then 0
    else
      var p := AnyKey(logs);
      LinesTotal(logs[p], Readable(logs[p]), cutoff, c, w) + LogsTotal(logs - {p}, cutoff, c, w)
  }

  ghost function AllCutFacts(logs: map<FilePath, seq<Line>>, cutoff: Option<string>, c: Cut): set<Fact> {
    At(Ranged(Facts(ParseAll(logs)), cutoff), DimOf(c), c)
  }

  lemma CutFactsWithout(logs: map<FilePath, seq<Line>>, cutoff: Option<string>, c: Cut, p: FilePath)
    requires p in logs
    ensures var rest, file := AllCutFacts(logs - {p}, cutoff, c), CutFacts(p, Parse(logs[p]), cutoff, c);
            rest !! file && AllCutFacts(logs, cutoff, c) == rest + file
  {
    FactsWithout(logs, cutoff, p);
  }

  lemma {:induction false} LogsTotals(logs: map<FilePath, seq<Line>>, cutoff: Option<string>, c: Cut, w: Weight)
    ensures Sum(AllCutFacts(logs, cutoff, c), w) == LogsTotal(logs, cutoff, c, w)
    decreases |logs|
  {
    if logs == map[] {
      assert AllCutFacts(logs, cutoff, c) == {};
    } else {
      var p := AnyKey(logs);
      LogsTotals(logs - {p}, cutoff, c, w);
      CutFactsWithout(logs, cutoff, c, p);
      SumOfUnion(AllCutFacts(logs - {p}, cutoff, c), CutFacts(p, Parse(logs[p]), cutoff, c), w);
      FileTotals(p, logs[p], Readable(logs[p]), cutoff, c, w);
    }
  }

  lemma FactOfLog(logs: map<FilePath, seq<Line>>, cutoff: Option<string>, c: Cut, f: Fact)
    ensures f in AllCutFacts(logs, cutoff, c) <==>
              f.path in logs && f in CutFacts(f.path, Parse(logs[f.path]), cutoff, c)
  {
  }

  /** The logs with a line that belongs to the row. */
  ghost function LogsAdding(logs: map<FilePath, seq<Line>>, cutoff: Option<string>, c: Cut, kind: Kind): set<FilePath> {
    set p | p in logs && LogAdds(logs[p], cutoff, c, kind)
  }

  lemma CutHasLog(logs: map<FilePath, seq<Line>>, cutoff: Option<string>, c: Cut, kind: Kind)
    ensures CutHas(AllCutFacts(logs, cutoff, c), kind) <==> LogsAdding(logs, cutoff, c, kind) != {}
  {
    if CutHas(AllCutFacts(logs, cutoff, c), kind) {
      var f :| f in AllCutFacts(logs, cutoff, c) && FactOfKind(f, kind);
      FactOfLog(logs, cutoff, c, f);
      FactComesFromLine(f.path, logs[f.path], cutoff, c, kind, f);
      assert f.path in LogsAdding(logs, cutoff, c, kind);
    }
    if p :| p in LogsAdding(logs, cutoff, c, kind) {
      FileHas(p, logs[p], cutoff, c, kind);
      var f :| f in CutFacts(p, Parse(logs[p]), cutoff, c) && FactOfKind(f, kind);
      FactOfLog(logs, cutoff, c, f);
    }
  }

  lemma PathsAreLogs(logs: map<FilePath, seq<Line>>, cutoff: Option<string>, c: Cut)
    ensures PathsOf(AllCutFacts(logs, cutoff, c)) == LogsAdding(logs, cutoff, c, Any)
  {
    forall p ensures p in PathsOf(AllCutFacts(logs, cutoff, c)) <==> p in LogsAdding(logs, cutoff, c, Any) {
      if p in PathsOf(AllCutFacts(logs, cutoff, c)) {
        var f :| f in AllCutFacts(logs, cutoff, c) && f.path == p;
        FactOfLog(logs, cutoff, c, f);
        FactComesFromLine(p, logs[p], cutoff, c, Any, f);
      }
      if p in LogsAdding(logs, cutoff, c, Any) {
        FileHas(p, logs[p], cutoff, c, Any);
        var f :| f in CutFacts(p, Parse(logs[p]), cutoff, c);
        FactOfLog(logs, cutoff, c, f);
      }
    }
  }

  // ---- The rows ----

  ghost predicate SlotsAre(t: Tokens, logs: map<FilePath, seq<Line>>, cutoff: Option<string>, c: Cut) {
    && t.input == LogsTotal(logs, cutoff, c, Input)
    && t.output == LogsTotal(logs, cutoff, c, Output)
    && t.write == LogsTotal(logs, cutoff, c, Write)
    && t.read == LogsTotal(logs, cutoff, c, Read)
  }

  ghost predicate CostIs(cost: Option<nat>, logs: map<FilePath, seq<Line>>, cutoff: Option<string>, c: Cut) {
    cost == if LogsAdding(logs, cutoff, c, Priced) == {} then None else Some(LogsTotal(logs, cutoff, c, Cost))
  }

  /** The row of a day and directory: there exactly if some line belongs to it, each slot the sum of the
      like-named field over those lines, a cost if one of them has a priced family, complete if none has an
      unpriced one, and as many sessions as logs with such a line. */
  ghost predicate DayRowSays(r: DayUsage, logs: map<FilePath, seq<Line>>, cutoff: Option<string>) {
    var c := DayCut(r.day, r.cwd);
    && LogsAdding(logs, cutoff, c, Any) != {}
    && SlotsAre(r.t, logs, cutoff, c) && CostIs(r.estCost, logs, cutoff, c)
    && (r.costComplete <==> LogsAdding(logs, cutoff, c, Unpriced) == {})
    && r.sessions == |LogsAdding(logs, cutoff, c, Any)|
  }

  ghost predicate FamilyRowSays(r: FamilyUsage, logs: map<FilePath, seq<Line>>, cutoff: Option<string>) {
    var c := FamilyCut(r.family);
    && LogsAdding(logs, cutoff, c, Any) != {}
    && SlotsAre(r.t, logs, cutoff, c) && CostIs(r.estCost, logs, cutoff, c)
    && r.sessions == |LogsAdding(logs, cutoff, c, Any)|
  }

  /** What the facts of a cut say is what its lines say. */
  lemma CutSays(logs: map<FilePath, seq<Line>>, cutoff: Option<string>, c: Cut)
    ensures var s := AllCutFacts(logs, cutoff, c);
            && (s != {} <==> LogsAdding(logs, cutoff, c, Any) != {})
            && SlotsAre(TokensOf(s), logs, cutoff, c)
            && CostIs(if SomePriced(s) then Some(Sum(s, Cost)) else None, logs, cutoff, c)
            && (SomeUnpriced(s) <==> LogsAdding(logs, cutoff, c, Unpriced) != {})
            && PathsOf(s) == LogsAdding(logs, cutoff, c, Any)
  {
    var s := AllCutFacts(logs, cutoff, c);
    LogsTotals(logs, cutoff, c, Input);
    LogsTotals(logs, cutoff, c, Output);
    LogsTotals(logs, cutoff, c, Write);
    LogsTotals(logs, cutoff, c, Read);
    LogsTotals(logs, cutoff, c, Cost);
    CutHasLog(logs, cutoff, c, Any);
    CutHasLog(logs, cutoff, c, Priced);
    CutHasLog(logs, cutoff, c, Unpriced);
    PathsAreLogs(logs, cutoff, c);
    KindsOf(s);
  }

  lemma KindsOf(s: set<Fact>)
    ensures CutHas(s, Any) <==> s != {}
    ensures CutHas(s, Priced) <==> SomePriced(s)
    ensures CutHas(s, Unpriced) <==> SomeUnpriced(s)
  {
    if f :| f in s { assert FactOfKind(f, Any); }
  }

  lemma RowsSay(logs: map<FilePath, seq<Line>>, cutoff: Option<string>, day: DayUsage, family: FamilyUsage)
    ensures IsDayRow(day, Ranged(Facts(ParseAll(logs)), cutoff)) <==> DayRowSays(day, logs, cutoff)
    ensures IsFamilyRow(family, Ranged(Facts(ParseAll(logs)), cutoff)) <==> FamilyRowSays(family, logs, cutoff)
  {
    CutSays(logs, cutoff, DayCut(day.day, day.cwd));
    CutSays(logs, cutoff, FamilyCut(family.family));
  }

  /** End to end: whatever scans, failed saves and damage to the cache file came before, the rows of the next
      scan by day and directory and by family are exactly those its visible logs' lines make up. */
  lemma ScanRowsSay(scans: seq<Scan>, s: Scan, text: (FilePath, Stamp) -> seq<Line>, o: Outcome)
    requires (forall i :: 0 <= i < |scans| ==> Faithful(scans[i].disk, text)) && Faithful(s.disk, text)
    requires OutcomeIs(o, LoadCache(Found(CacheAfter(scans), s.before)), s.disk, s.range, s.nowMs)
    ensures forall r :: r in o.days <==>
              DayRowSays(r, Texts(s.disk, text), Calendar.RangeCutoffDay(s.range, s.nowMs))
    ensures forall r :: r in o.families <==>
              FamilyRowSays(r, Texts(s.disk, text), Calendar.RangeCutoffDay(s.range, s.nowMs))
  {
    var logs, cutoff := Texts(s.disk, text), Calendar.RangeCutoffDay(s.range, s.nowMs);
    IncrementalIsFull(scans, s, text, o);
    FullScanParsesTexts(s.disk, text);
    var family := FamilyUsage("", NO_TOKENS, None, 0);
    var day := DayUsage("", "", NO_TOKENS, None, true, 0);
    forall r ensures r in o.days <==> DayRowSays(r, logs, cutoff) { RowsSay(logs, cutoff, r, family); }
    forall r ensures r in o.families <==> FamilyRowSays(r, logs, cutoff) { RowsSay(logs, cutoff, day, r); }
  }

  function Money(cost: Option<nat>): nat {
    match cost
    case Some(n) => n
    case None => 0
  }

  /** The order of the rows: by day and then directory, and for families by cost, then by tokens in and out,
      the larger first, then by name. */
  lemma RowOrderIs(days: seq<DayUsage>, families: seq<FamilyUsage>, s: set<Fact>, i: nat, j: nat)
    requires DaysAre(days, s) && FamiliesAre(families, s) && i < j
    ensures j < |days| ==>
              Less(days[i].day, days[j].day) || (days[i].day == days[j].day && Less(days[i].cwd, days[j].cwd))
    ensures j < |families| ==>
              var a, b := families[i], families[j];
              && Money(a.estCost) >= Money(b.estCost)
              && (Money(a.estCost) == Money(b.estCost) ==>
                    && a.t.input + a.t.output >= b.t.input + b.t.output
                    && (a.t.input + a.t.output == b.t.input + b.t.output ==> Less(a.family, b.family)))
  {
    if j < |days| { assert DAY_BEFORE(days[i], days[j]); }
    if j < |families| { assert PRECEDES(families[i], families[j]); }
  }
}
