/** Paths as the standard library of Rust reads them on Unix: bytes cut at `/`, then components. */
module Paths {

  type Name = string

  datatype Component = RootDir | CurDir | ParentDir | Normal(name: Name)

  function Split(s: string): (r: seq<string>)
    ensures |r| >= 1
  {
    if s == "" then [""]
    else if s[0] == '/' then [""] + Split(s[1..])
    else var r := Split(s[1..]); [[s[0]] + r[0]] + r[1..]
  }

  /** Empty and `.` segments vanish (but for a leading `.`), `..` is kept. */
  function Segments(segs: seq<string>): seq<Component> {
    if segs == [] then []
    else if segs[0] == "" || segs[0] == "." then Segments(segs[1..])
    else [if segs[0] == ".." then ParentDir else Normal(segs[0])] + Segments(segs[1..])
  }

  predicate IsAbsolute(s: string) { s != "" && s[0] == '/' }

  /** `Path::components`. */
  function Components(s: string): seq<Component> {
    (if IsAbsolute(s) then [RootDir] else if Split(s)[0] == "." then [CurDir] else []) + Segments(Split(s))
  }

  /** `Path::starts_with`. */
  predicate StartsWith(path: string, base: string) {
    Components(base) <= Components(path)
  }

  // ---- Canonical paths ----

  /** A directory entry's name. */
  predicate IsName(n: string) {
    n != "" && '/' !in n && n != "." && n != ".."
  }

  predicate AllNames(names: seq<Name>) {
    forall i :: 0 <= i < |names| ==> IsName(names[i])
  }

  function Tail(names: seq<Name>): string {
    if names == [] then "" else "/" + names[0] + Tail(names[1..])
  }

  /** The canonical absolute path with these components. */
  function Render(names: seq<Name>): string {
    if names == [] then "/" else Tail(names)
  }

  function Normals(names: seq<Name>): seq<Component> {
    seq(|names|, i requires 0 <= i < |names| => Normal(names[i]))
  }

  lemma {:induction false} SplitAfterWord(n: string, t: string)
    requires '/' !in n
    ensures Split(n + t) == [n + Split(t)[0]] + Split(t)[1..]
  {
    if n == "" {
      assert n + t == t;
      assert n + Split(t)[0] == Split(t)[0];
      assert Split(t) == [Split(t)[0]] + Split(t)[1..];
    } else {
      assert (n + t)[1..] == n[1..] + t;
      SplitAfterWord(n[1..], t);
      var first, rest := Split(t)[0], Split(t)[1..];
      assert ([n[1..] + first] + rest)[1..] == rest;
      assert [n[0]] + (n[1..] + first) == n + first;
    }
  }

  lemma {:induction false} SplitAtSlash(x: string, t: string)
    ensures Split(x + "/" + t) == Split(x) + Split(t)
  {
    if x == "" {
      assert x + "/" + t == "/" + t;
      assert ("/" + t)[1..] == t;
    } else {
      assert (x + "/" + t)[1..] == x[1..] + "/" + t;
      SplitAtSlash(x[1..], t);
    }
  }

  lemma {:induction false} SplitTail(names: seq<Name>)
    requires forall i :: 0 <= i < |names| ==> '/' !in names[i]
    ensures Split(Tail(names)) == [""] + names
  {
    if names != [] {
      var t := names[0] + Tail(names[1..]);
      assert Tail(names) == "/" + t && ("/" + t)[1..] == t;
      SplitTail(names[1..]);
      SplitAfterWord(names[0], Tail(names[1..]));
      assert names[0] + "" == names[0] && ([""] + names[1..])[1..] == names[1..];
      assert names == [names[0]] + names[1..];
    }
  }

  lemma {:induction false} SegmentsOfNames(names: seq<Name>)
    requires AllNames(names)
    ensures Segments(names) == Normals(names)
  {
    if names != [] {
      SegmentsOfNames(names[1..]);
      assert Normals(names) == [Normal(names[0])] + Normals(names[1..]);
    }
  }

  /** Writing components down and reading them back. */
  lemma RenderParses(names: seq<Name>)
    requires AllNames(names)
    ensures Components(Render(names)) == [RootDir] + Normals(names)
  {
    if names == [] {
      assert Split("/") == [""] + Split("");
      assert Segments([""]) == Segments([]);
      assert ["", ""][1..] == [""];
    } else {
      SplitTail(names);
      assert ([""] + names)[1..] == names;
      SegmentsOfNames(names);
    }
  }

  lemma NormalsPrefix(a: seq<Name>, b: seq<Name>)
    ensures Normals(a) <= Normals(b) <==> a <= b
  {
    if a <= b {
      assert forall i :: 0 <= i < |a| ==> Normals(b)[i] == Normal(b[i]);
    }
    if Normals(a) <= Normals(b) {
      forall i | 0 <= i < |a| ensures a[i] == b[i] {
        assert Normals(a)[i] == Normals(b)[i];
      }
    }
  }

  /** Between canonical paths `starts_with` is the prefix order of their components. */
  lemma StartsWithIsPrefix(a: seq<Name>, b: seq<Name>)
    requires AllNames(a) && AllNames(b)
    ensures StartsWith(Render(b), Render(a)) <==> a <= b
  {
    RenderParses(a);
    RenderParses(b);
    NormalsPrefix(a, b);
    var x, y := [RootDir] + Normals(a), [RootDir] + Normals(b);
    if x <= y {
      assert Normals(a) == x[1..] && Normals(b) == y[1..] && x[1..] <= y[1..];
    }
  }

  lemma {:induction false} TailOfConcat(a: seq<Name>, b: seq<Name>)
    ensures Tail(a + b) == Tail(a) + Tail(b)
  {
    if a == [] {
      assert a + b == b;
    } else {
      assert (a + b)[0] == a[0] && (a + b)[1..] == a[1..] + b;
      TailOfConcat(a[1..], b);
    }
  }

  lemma TailInjective(a: seq<Name>, b: seq<Name>)
    requires AllNames(a) && AllNames(b) && Tail(a) == Tail(b)
    ensures a == b
  {
    SplitTail(a);
    SplitTail(b);
    assert a == ([""] + a)[1..] && b == ([""] + b)[1..];
  }

  lemma PrefixReadsOn(a: seq<Name>, b: seq<Name>)
    requires a <= b && a != b
    ensures Tail(a) + "/" <= Tail(b)
  {
  }

  lemma SameAfterHead(a: seq<string>, b: seq<string>, t: seq<string>)
    requires [""] + b == [""] + a + t
    ensures b == a + t
  {
    assert b == ([""] + b)[1..] == ([""] + a + t)[1..] == a + t;
  }

  lemma ReadsOnIsPrefix(a: seq<Name>, b: seq<Name>)
    requires AllNames(a) && AllNames(b) && Tail(a) + "/" <= Tail(b)
    ensures a <= b
  {
    var t := Tail(b)[|Tail(a)| + 1..];
    assert Tail(b) == Tail(a) + "/" + t;
    SplitAtSlash(Tail(a), t);
    SplitTail(a);
    SplitTail(b);
    SameAfterHead(a, b, Split(t));
  }

  /** In text: b is a itself, or goes on with a slash where a ends. A shared byte prefix alone is not
      containment. */
  lemma PrefixInText(a: seq<Name>, b: seq<Name>)
    requires AllNames(a) && AllNames(b)
    ensures a <= b <==> Tail(b) == Tail(a) || Tail(a) + "/" <= Tail(b)
  {
    if a <= b && a != b { PrefixReadsOn(a, b); }
    if Tail(b) == Tail(a) { TailInjective(a, b); }
    if Tail(a) + "/" <= Tail(b) { ReadsOnIsPrefix(a, b); }
  }

  lemma BytePrefixIsNotContainment()
    ensures "/ws" <= "/ws2" && !StartsWith("/ws2", "/ws") && StartsWith("/ws/2", "/ws")
  {
    assert Tail(["2"]) == "/" + "2" + Tail([]);
    assert Tail(["ws"]) == "/" + "ws" + Tail([]) == "/ws";
    assert Tail(["ws2"]) == "/" + "ws2" + Tail([]) == "/ws2";
    assert ["ws", "2"][1..] == ["2"];
    assert Tail(["ws", "2"]) == "/" + "ws" + Tail(["2"]) == "/ws/2";
    StartsWithIsPrefix(["ws"], ["ws2"]);
    StartsWithIsPrefix(["ws"], ["ws", "2"]);
    assert ["ws"][0] != ["ws2"][0];
  }

  // ---- Relative paths ----

  /** Names joined with `/`; the empty list is the empty string. */
  function Joined(names: seq<Name>): string {
    if names == [] then "" else names[0] + Tail(names[1..])
  }

  lemma SplitJoined(names: seq<Name>)
    requires names != [] && forall i :: 0 <= i < |names| ==> '/' !in names[i]
    ensures Split(Joined(names)) == names
  {
    SplitTail(names[1..]);
    SplitAfterWord(names[0], Tail(names[1..]));
    assert names[0] + "" == names[0] && ([""] + names[1..])[1..] == names[1..];
    assert [names[0]] + names[1..] == names;
  }

  lemma JoinedLast(parents: seq<Name>, last: Name)
    ensures Joined(parents + [last]) == if parents == [] then last else Joined(parents) + "/" + last
  {
    assert Tail([last]) == "/" + last + Tail([]);
    if parents == [] {
      assert (parents + [last])[1..] == [];
    } else {
      assert (parents + [last])[1..] == parents[1..] + [last];
      TailOfConcat(parents[1..], [last]);
    }
  }

  lemma JoinedInjective(a: seq<Name>, b: seq<Name>)
    requires AllNames(a) && AllNames(b) && Joined(a) == Joined(b)
    ensures a == b
  {
    if a != [] { SplitJoined(a); }
    if b != [] { SplitJoined(b); }
  }
}
