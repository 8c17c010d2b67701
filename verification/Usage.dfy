/** Token usage from session logs: families and prices, parsing one log, and sums over what was
    parsed. Costs are exact: prices are in hundredths of a US dollar per million tokens, so a cost is
    in hundred-millionths of a dollar. */
module Usage {
  import opened Wrappers
  import opened Text
  import Calendar

  datatype Tokens = Tokens(input: nat, output: nat, write: nat, read: nat)

  const NO_TOKENS: Tokens := Tokens(0, 0, 0, 0)

  function Plus(a: Tokens, b: Tokens): Tokens {
    Tokens(a.input + b.input, a.output + b.output, a.write + b.write, a.read + b.read)
  }

  datatype Key = Key(day: string, cwd: string, fam: string)

  // ---- Families and prices ----

  /** The first of the known families whose name occurs in the lowercased model id. */
  function ModelFamily(model: string): string {
    var m := Lower(model);
    if Contains(m, "opus") then "opus"
    else if Contains(m, "sonnet") then "sonnet"
    else if Contains(m, "haiku") then "haiku"
    else if Contains(m, "fable") then "fable"
    else "other"
  }

  datatype Rates = Rates(input: nat, output: nat, write: nat, read: nat)

  function PriceFor(family: string): Option<Rates> {
    if family == "opus" then Some(Rates(1500, 7500, 1875, 150))
    else if family == "sonnet" then Some(Rates(300, 1500, 375, 30))
    else if family == "haiku" then Some(Rates(100, 500, 125, 10))
    else None
  }

  function CostOf(family: string, t: Tokens): nat {
    match PriceFor(family)
    case Some(r) => t.input * r.input + t.output * r.output + t.write * r.write + t.read * r.read
    case None => 0
  }

  /** A model is priced exactly when its id, lowercased, names a priced family, and then by the first of opus,
      sonnet and haiku that it names: per million tokens 15, 75, 18.75 and 1.50 dollars for input, output,
      cache writes and cache reads, or a fifth or a fifteenth of that. */
  lemma PricedModels(model: string)
    ensures PriceFor(ModelFamily(model)).Some? <==>
              Contains(Lower(model), "opus") || Contains(Lower(model), "sonnet") || Contains(Lower(model), "haiku")
    ensures var rates := PriceFor(ModelFamily(model));
            var share :=
              if Contains(Lower(model), "opus") then 1 else if Contains(Lower(model), "sonnet") then 5 else 15;
            rates.Some? ==>
              && rates.value.input * share == 1500 && rates.value.output * share == 7500
              && rates.value.write * share == 1875 && rates.value.read * share == 150
  {
  }

  // ---- One log ----

  datatype UsageFields = UsageFields(input: Option<nat>, output: Option<nat>, write: Option<nat>, read: Option<nat>)

  /** One line as read: an I/O or UTF-8 error, not JSON, or a JSON value of which the parser looks at
      `message.usage`, `message.model`, `timestamp` and `cwd`. */
  datatype Line =
    | Unreadable
    | NotJson
    | Json(usage: Option<UsageFields>, model: Option<string>, timestamp: Option<string>, cwd: Option<string>)

  function OrElse<T>(o: Option<T>, d: T): T { if o.Some? then o.value else d }

  datatype Item = Item(key: Key, t: Tokens)

  /** What a line contributes: nothing unless it reports output tokens and has a full date. */
  function ItemOf(line: Line): Option<Item> {
    if !line.Json? || line.usage.None? || line.usage.value.output.None? then None
    else
      var ts, u := OrElse(line.timestamp, ""), line.usage.value;
      if |ts| < 10 then None
      else Some(Item(Key(ts[..10], OrElse(line.cwd, ""), ModelFamily(OrElse(line.model, ""))),
                     Tokens(OrElse(u.input, 0), u.output.value, OrElse(u.write, 0), OrElse(u.read, 0))))
  }

  function Added(buckets: map<Key, Tokens>, k: Key, t: Tokens): map<Key, Tokens> {
    buckets[k := Plus(if k in buckets then buckets[k] else NO_TOKENS, t)]
  }

  /** The first n lines folded into buckets. */
  function ParsedUpTo(lines: seq<Line>, n: nat): map<Key, Tokens>
    requires n <= |lines|
  {
    if n == 0 then map[]
    else
      var before, item := ParsedUpTo(lines, n - 1), ItemOf(lines[n - 1]);
      if item.Some? then Added(before, item.value.key, item.value.t) else before
  }

  /** Where reading stops: at the first unreadable line. */
  function Readable(lines: seq<Line>): (n: nat)
    ensures n <= |lines|
    ensures forall i :: 0 <= i < n ==> !lines[i].Unreadable?
    ensures n < |lines| ==> lines[n].Unreadable?
  {
    if lines == [] || lines[0].Unreadable? then 0 else 1 + Readable(lines[1..])
  }

  function Parse(lines: seq<Line>): map<Key, Tokens> {
    ParsedUpTo(lines, Readable(lines))
  }

  lemma ReadableUnique(lines: seq<Line>, n: nat)
    requires n <= |lines| && (n < |lines| ==> lines[n].Unreadable?)
    requires forall i :: 0 <= i < n ==> !lines[i].Unreadable?
    ensures n == Readable(lines)
  {
  }

  /** `parse_session_file` on a file that opens. */
  method ParseSessionFile(lines: seq<Line>) returns (buckets: map<Key, Tokens>)
    ensures buckets == Parse(lines)
  {
    buckets := map[];
    var i := 0;
    while i < |lines|
      invariant 0 <= i <= |lines|
      invariant forall j :: 0 <= j < i ==> !lines[j].Unreadable?
      invariant buckets == ParsedUpTo(lines, i)
    {
      if lines[i].Unreadable? {
        break;
      }
      var item := ItemOf(lines[i]);
      i := i + 1;
      if item.None? {
        continue;
      }
      var k := item.value.key;
      var e := if k in buckets then buckets[k] else NO_TOKENS;
      buckets := buckets[k := Plus(e, item.value.t)];
    }
    ReadableUnique(lines, i);
  }

  // ---- Facts: what was parsed, and sums over it ----

  datatype FilePath = FilePath(dir: string, name: string)

  type Aggregates = map<FilePath, map<Key, Tokens>>

  datatype Fact = Fact(path: FilePath, key: Key, t: Tokens)

  ghost function FileFacts(p: FilePath, days: map<Key, Tokens>): (r: set<Fact>)
    ensures forall f :: f in r <==> f.path == p && f.key in days && f.t == days[f.key]
  {
    var r := set k | k in days :: Fact(p, k, days[k]);
    assert forall f: Fact :: f.path == p && f.key in days && f.t == days[f.key] ==> f == Fact(p, f.key, days[f.key]);
    r
  }

  ghost function Facts(files: Aggregates): (r: set<Fact>)
    ensures forall f :: f in r <==> f.path in files && f.key in files[f.path] && f.t == files[f.path][f.key]
  {
    var r := set p, k | p in files && k in files[p] :: Fact(p, k, files[p][k]);
    assert forall f: Fact :: f.path in files && f.key in files[f.path] && f.t == files[f.path][f.key] ==>
             f == Fact(f.path, f.key, files[f.path][f.key]);
    r
  }

  datatype Weight = Input | Output | Write | Read | Cost

  function Weigh(w: Weight, fam: string, t: Tokens): nat {
    match w
    case Input => t.input
    case Output => t.output
    case Write => t.write
    case Read => t.read
    case Cost => CostOf(fam, t)
  }

  ghost function Sum(s: set<Fact>, w: Weight): nat
    decreases |s|
  {
    if s == {} then 0 else var f :| f in s; Weigh(w, f.key.fam, f.t) + Sum(s - {f}, w)
  }

  /** The sum does not depend on the order of summation. */
  lemma {:induction false} SumTakesOut(s: set<Fact>, g: Fact, w: Weight)
    requires g in s
    ensures Sum(s, w) == Weigh(w, g.key.fam, g.t) + Sum(s - {g}, w)
    decreases |s|
  {
    var f :| f in s && Sum(s, w) == Weigh(w, f.key.fam, f.t) + Sum(s - {f}, w);
    if f != g {
      SumTakesOut(s - {f}, g, w);
      SumTakesOut(s - {g}, f, w);
      assert s - {f} - {g} == s - {g} - {f};
    }
  }

  lemma {:induction false} SumOfUnion(a: set<Fact>, b: set<Fact>, w: Weight)
    requires a !! b
    ensures Sum(a + b, w) == Sum(a, w) + Sum(b, w)
    decreases |b|
  {
    if b == {} {
      assert a + b == a;
    } else {
      var f :| f in b;
      SumTakesOut(a + b, f, w);
      SumTakesOut(b, f, w);
      assert a + b - {f} == a + (b - {f});
      SumOfUnion(a, b - {f}, w);
    }
  }

  predicate InRange(day: string, cutoff: Option<string>) {
    !Calendar.BeforeCutoff(day, cutoff)
  }

  ghost function Ranged(s: set<Fact>, cutoff: Option<string>): set<Fact> {
    set f | f in s && InRange(f.key.day, cutoff)
  }

  // ---- Parsing conserves ----

  /** The weight of the first n lines' entries that are in range. */
  function LineWeight(lines: seq<Line>, n: nat, cutoff: Option<string>, w: Weight): nat
    requires n <= |lines|
  {
    if n == 0 then 0
    else
      var item := ItemOf(lines[n - 1]);
      LineWeight(lines, n - 1, cutoff, w)
        + if item.Some? && InRange(item.value.key.day, cutoff) then Weigh(w, item.value.key.fam, item.value.t) else 0
  }

  ghost function RangedFile(p: FilePath, days: map<Key, Tokens>, cutoff: Option<string>): set<Fact> {
    Ranged(FileFacts(p, days), cutoff)
  }

  lemma WeighAdds(w: Weight, fam: string, a: Tokens, b: Tokens)
    ensures Weigh(w, fam, Plus(a, b)) == Weigh(w, fam, a) + Weigh(w, fam, b)
  {
  }

  lemma WithoutKey(p: FilePath, days: map<Key, Tokens>, k: Key, t: Tokens, cutoff: Option<string>)
    requires InRange(k.day, cutoff)
    ensures Fact(p, k, t) in RangedFile(p, days[k := t], cutoff)
    ensures RangedFile(p, days[k := t], cutoff) - {Fact(p, k, t)} == RangedFile(p, days - {k}, cutoff)
  {
  }

  lemma KeyOutOfRange(p: FilePath, days: map<Key, Tokens>, k: Key, t: Tokens, cutoff: Option<string>)
    requires !InRange(k.day, cutoff)
    ensures RangedFile(p, days[k := t], cutoff) == RangedFile(p, days, cutoff)
  {
  }

  lemma PutWeighs(p: FilePath, days: map<Key, Tokens>, k: Key, t: Tokens, cutoff: Option<string>, w: Weight)
    requires InRange(k.day, cutoff)
    ensures Sum(RangedFile(p, days[k := t], cutoff), w)
            == Weigh(w, k.fam, t) + Sum(RangedFile(p, days - {k}, cutoff), w)
  {
    WithoutKey(p, days, k, t, cutoff);
    SumTakesOut(RangedFile(p, days[k := t], cutoff), Fact(p, k, t), w);
  }

  lemma SamePut(days: map<Key, Tokens>, k: Key)
    ensures if k in days then days[k := days[k]] == days else days - {k} == days
  {
  }

  lemma NothingWeighs(w: Weight, fam: string)
    ensures Weigh(w, fam, NO_TOKENS) == 0
  {
  }

  lemma OldWeighs(p: FilePath, days: map<Key, Tokens>, k: Key, cutoff: Option<string>, w: Weight)
    requires InRange(k.day, cutoff)
    ensures Sum(RangedFile(p, days, cutoff), w)
         == Sum(RangedFile(p, days - {k}, cutoff), w) + Weigh(w, k.fam, if k in days then days[k] else NO_TOKENS)
  {
    SamePut(days, k);
    NothingWeighs(w, k.fam);
    if k in days { PutWeighs(p, days, k, days[k], cutoff, w); }
  }

  lemma AddedWeighs(p: FilePath, days: map<Key, Tokens>, k: Key, t: Tokens, cutoff: Option<string>, w: Weight)
    ensures Sum(RangedFile(p, Added(days, k, t), cutoff), w)
         == Sum(RangedFile(p, days, cutoff), w) + (if InRange(k.day, cutoff) then Weigh(w, k.fam, t) else 0)
  {
    var before := if k in days then days[k] else NO_TOKENS;
    if InRange(k.day, cutoff) {
      PutWeighs(p, days, k, Plus(before, t), cutoff, w);
      OldWeighs(p, days, k, cutoff, w);
      WeighAdds(w, k.fam, before, t);
    } else {
      KeyOutOfRange(p, days, k, Plus(before, t), cutoff);
    }
  }

  /** For each token slot and for cost, what one file contributes in range is the sum over the entries
      parsed from it. */
  lemma {:induction false} ParsingConserves(p: FilePath, lines: seq<Line>, n: nat, cutoff: Option<string>, w: Weight)
    requires n <= |lines|
    ensures Sum(RangedFile(p, ParsedUpTo(lines, n), cutoff), w) == LineWeight(lines, n, cutoff, w)
    decreases n
  {
    if n == 0 {
      assert RangedFile(p, map[], cutoff) == {};
    } else {
      ParsingConserves(p, lines, n - 1, cutoff, w);
      var item := ItemOf(lines[n - 1]);
      if item.Some? { AddedWeighs(p, ParsedUpTo(lines, n - 1), item.value.key, item.value.t, cutoff, w); }
    }
  }
}
