/** Sorted sets: what ordered maps, ordered sets and a sort without ties have in common. */
module Sorting {

  ghost predicate StrictOrder<T(!new)>(lt: (T, T) -> bool) {
    (forall a :: !lt(a, a)) && (forall a, b, c :: lt(a, b) && lt(b, c) ==> lt(a, c))
  }

  predicate SortedBy<T(!new)>(lt: (T, T) -> bool, s: seq<T>) {
    forall i, j :: 0 <= i < j < |s| ==> lt(s[i], s[j])
  }

  /** Insert into a sorted sequence, keeping one copy. */
  function InsertBy<T(==,!new)>(lt: (T, T) -> bool, s: seq<T>, x: T): (r: seq<T>)
    ensures forall y :: y in r <==> y in s || y == x
  {
    if s == [] then [x]
    else if x == s[0] then s
    else if lt(x, s[0]) then [x] + s
    else [s[0]] + InsertBy(lt, s[1..], x)
  }

  lemma {:induction false} InsertBySorted<T(!new)>(lt: (T, T) -> bool, s: seq<T>, x: T)
    requires StrictOrder(lt) && SortedBy(lt, s)
    requires forall y :: y in s ==> y == x || lt(x, y) || lt(y, x)
    ensures SortedBy(lt, InsertBy(lt, s, x))
    ensures |InsertBy(lt, s, x)| == if x in s then |s| else |s| + 1
  {
    if s == [] || x == s[0] {
    } else if lt(x, s[0]) {
      forall j | 0 <= j < |s| ensures lt(x, s[j]) && x != s[j] {
        if j > 0 { assert lt(s[0], s[j]); }
      }
    } else {
      InsertBySorted(lt, s[1..], x);
      var t := InsertBy(lt, s[1..], x);
      forall j | 0 <= j < |t| ensures lt(s[0], t[j]) {
        assert t[j] in t;
        if t[j] in s[1..] { var k :| 0 <= k < |s[1..]| && s[1..][k] == t[j]; assert s[k + 1] == t[j]; }
      }
      assert x in s <==> x in s[1..];
    }
  }

  lemma HeadIsLeast<T(!new)>(lt: (T, T) -> bool, s: seq<T>, x: T)
    requires SortedBy(lt, s) && x in s
    ensures x == s[0] || lt(s[0], x)
  {
  }

  lemma EmptyOrInhabited<T>(t: seq<T>)
    ensures t == [] || t[0] in t
  {
  }

  /** A set has exactly one strictly sorted listing. */
  lemma {:induction false} SortedByUnique<T(!new)>(lt: (T, T) -> bool, s: seq<T>, t: seq<T>)
    requires StrictOrder(lt) && SortedBy(lt, s) && SortedBy(lt, t)
    requires forall x :: x in s <==> x in t
    ensures s == t
  {
    if s == [] {
      EmptyOrInhabited(t);
    } else {
      assert s[0] in t;
      assert t != [] && t[0] in s;
      HeadIsLeast(lt, s, t[0]);
      HeadIsLeast(lt, t, s[0]);
      forall x ensures x in s[1..] <==> x in t[1..] {
        TailMember(lt, s, x);
        TailMember(lt, t, x);
      }
      SortedByUnique(lt, s[1..], t[1..]);
      assert s == [s[0]] + s[1..] == [t[0]] + t[1..] == t;
    }
  }

  lemma TailMember<T(!new)>(lt: (T, T) -> bool, s: seq<T>, x: T)
    requires StrictOrder(lt) && SortedBy(lt, s) && s != []
    ensures x in s[1..] <==> x in s && x != s[0]
  {
  }
}
