/** Strings as Rust's `str` orders them, which is code-point order. */
module Text {
  import opened Sorting

  // ---- Order ----

  predicate Less(a: string, b: string)
  {
    b != [] && (a == [] || a[0] < b[0] || (a[0] == b[0] && Less(a[1..], b[1..])))
  }

  lemma {:induction false} LessIrreflexive(a: string)
    ensures !Less(a, a)
  {
    if a != [] { LessIrreflexive(a[1..]); }
  }

  lemma {:induction false} LessTransitive(a: string, b: string, c: string)
    requires Less(a, b) && Less(b, c)
    ensures Less(a, c)
  {
    if a != [] && a[0] == b[0] == c[0] { LessTransitive(a[1..], b[1..], c[1..]); }
  }

  lemma {:induction false} LessTotal(a: string, b: string)
    ensures a == b || Less(a, b) || Less(b, a)
  {
    if a != [] && b != [] && a[0] == b[0] {
      LessTotal(a[1..], b[1..]);
      if a[1..] == b[1..] { assert a == [a[0]] + a[1..] == [b[0]] + b[1..] == b; }
    }
  }

  lemma {:induction false} LessAfterPrefix(p: string, a: string, b: string)
    ensures Less(p + a, p + b) == Less(a, b)
  {
    if p == [] {
      assert p + a == a && p + b == b;
    } else {
      assert (p + a)[1..] == p[1..] + a && (p + b)[1..] == p[1..] + b;
      LessAfterPrefix(p[1..], a, b);
    }
  }

  lemma {:induction false} LessExtends(a: string, b: string, x: string, y: string)
    requires |a| == |b| && Less(a, b)
    ensures Less(a + x, b + y)
  {
    assert (a + x)[1..] == a[1..] + x && (b + y)[1..] == b[1..] + y;
    if a[0] == b[0] { LessExtends(a[1..], b[1..], x, y); }
  }

  const LESS: (string, string) -> bool := (a, b) => Less(a, b)

  lemma LessIsStrictOrder()
    ensures StrictOrder(LESS)
  {
    forall a ensures !LESS(a, a) { LessIrreflexive(a); }
    forall a, b, c | LESS(a, b) && LESS(b, c) ensures LESS(a, c) { LessTransitive(a, b, c); }
  }

  // ---- Searching ----

  /** `to_ascii_lowercase`. */
  function Lower(s: string): string {
    seq(|s|, i requires 0 <= i < |s| => if 'A' <= s[i] <= 'Z' then s[i] - 'A' + 'a' else s[i])
  }

  predicate Contains(s: string, word: string) {
    word <= s || (s != "" && Contains(s[1..], word))
  }

  // ---- Sorted sets of strings (Rust's BTreeSet and the key order of BTreeMap) ----

  predicate StrictlySorted(s: seq<string>) { SortedBy(LESS, s) }

  function Insert(s: seq<string>, x: string): (r: seq<string>)
    ensures forall y :: y in r <==> y in s || y == x
  {
    InsertBy(LESS, s, x)
  }

  lemma InsertSorted(s: seq<string>, x: string)
    requires StrictlySorted(s)
    ensures StrictlySorted(Insert(s, x))
    ensures |Insert(s, x)| == if x in s then |s| else |s| + 1
  {
    LessIsStrictOrder();
    forall y | y in s ensures y == x || LESS(x, y) || LESS(y, x) { LessTotal(x, y); }
    InsertBySorted(LESS, s, x);
  }

  lemma SortedUnique(s: seq<string>, t: seq<string>)
    requires StrictlySorted(s) && StrictlySorted(t)
    requires forall x :: x in s <==> x in t
    ensures s == t
  {
    LessIsStrictOrder();
    SortedByUnique(LESS, s, t);
  }
}
