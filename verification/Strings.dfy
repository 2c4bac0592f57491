/** The order of Go strings, and what `sort.Strings` returns. */
module Strings {

  /** `a <= b` in lexicographic order. Code-point order equals the byte order of UTF-8. */
  predicate AtMost(a: string, b: string) {
    if a == [] then true
    else if b == [] then false
    else if a[0] != b[0] then a[0] < b[0]
    else AtMost(a[1..], b[1..])
  }

  /** `a` starts `b`, or has the smaller character where they first differ. */
  lemma {:induction false} AtMostIff(a: string, b: string)
    ensures AtMost(a, b) <==> a <= b || exists k :: FirstSmaller(a, b, k)
  {
    if a != [] && b != [] {
      var s, t := a[1..], b[1..];
      assert a == [a[0]] + s && b == [b[0]] + t;
      if a[0] == b[0] {
        AtMostIff(s, t);
        if k: nat :| FirstSmaller(s, t, k) { assert FirstSmaller(a, b, k + 1); }
        if k: nat :| FirstSmaller(a, b, k) {
          assert k > 0 && forall i :: 0 <= i < k - 1 ==> s[i] == a[i + 1] && t[i] == b[i + 1];
          assert FirstSmaller(s, t, k - 1);
        }
      } else if a[0] < b[0] {
        assert FirstSmaller(a, b, 0);
      }
    }
  }

  predicate FirstSmaller(a: string, b: string, k: nat) {
    k < |a| && k < |b| && (forall i :: 0 <= i < k ==> a[i] == b[i]) && a[k] < b[k]
  }

  lemma {:induction false} AtMostTotal(a: string, b: string)
    ensures AtMost(a, b) || AtMost(b, a)
  {
    if a != [] && b != [] && a[0] == b[0] { AtMostTotal(a[1..], b[1..]); }
  }

  lemma {:induction false} AtMostAntisymmetric(a: string, b: string)
    requires AtMost(a, b) && AtMost(b, a)
    ensures a == b
  {
    if a != [] && b != [] {
      AtMostAntisymmetric(a[1..], b[1..]);
      assert a == [a[0]] + a[1..] && b == [b[0]] + b[1..];
    }
  }

  lemma {:induction false} AtMostTransitive(a: string, b: string, c: string)
    requires AtMost(a, b) && AtMost(b, c)
    ensures AtMost(a, c)
  {
    if a != [] && a[0] == b[0] && b[0] == c[0] {
      AtMostTransitive(a[1..], b[1..], c[1..]);
    }
  }

  predicate Sorted(names: seq<string>) {
    forall i, j :: 0 <= i < j < |names| ==> AtMost(names[i], names[j])
  }

  function Insert(name: string, names: seq<string>): seq<string> {
    if names == [] then [name]
    else if AtMost(name, names[0]) then [name] + names
    else [names[0]] + Insert(name, names[1..])
  }

  lemma {:induction false} InsertKeepsNames(name: string, names: seq<string>)
    ensures multiset(Insert(name, names)) == multiset(names) + multiset{name}
    ensures |Insert(name, names)| == |names| + 1
  {
    if names != [] {
      assert names == [names[0]] + names[1..];
      InsertKeepsNames(name, names[1..]);
    }
  }

  lemma {:induction false} InsertKeepsOrder(name: string, names: seq<string>)
    requires Sorted(names)
    ensures Sorted(Insert(name, names))
  {
    if names != [] {
      if AtMost(name, names[0]) {
        forall j | 0 <= j < |names| ensures AtMost(name, names[j]) {
          if j > 0 { AtMostTransitive(name, names[0], names[j]); }
        }
      } else {
        var rest := Insert(name, names[1..]);
        InsertKeepsOrder(name, names[1..]);
        InsertKeepsNames(name, names[1..]);
        AtMostTotal(name, names[0]);
        forall j | 0 <= j < |rest| ensures AtMost(names[0], rest[j]) {
          assert rest[j] in multiset(rest);
          assert rest[j] == name || rest[j] in names[1..];
        }
      }
    }
  }

  lemma {:induction false} InsertSorts(names: seq<string>, rest: seq<string>)
    requires names != [] && Sorted(rest) && multiset(rest) == multiset(names[1..]) && |rest| == |names| - 1
    ensures var r := Insert(names[0], rest);
            Sorted(r) && multiset(r) == multiset(names) && |r| == |names|
  {
    InsertKeepsOrder(names[0], rest);
    InsertKeepsNames(names[0], rest);
    assert names == [names[0]] + names[1..];
  }

  /** `sort.Strings`: the same names, ascending. */
  function Sort(names: seq<string>): (r: seq<string>)
    ensures Sorted(r) && multiset(r) == multiset(names) && |r| == |names|
  {
    if names == [] then []
    else
      var rest := Sort(names[1..]);
      InsertSorts(names, rest);
      Insert(names[0], rest)
  }

  lemma {:induction false} SortKeepsMembers(names: seq<string>)
    ensures forall name :: name in Sort(names) <==> name in names
  {
    forall name ensures name in Sort(names) <==> name in names {
      assert name in multiset(Sort(names)) <==> name in multiset(names);
    }
  }

  /** The names of a set, ascending, collected in no particular order. */
  method SortedMembers(members: set<string>) returns (names: seq<string>)
    ensures Sorted(names) && forall name :: name in names <==> name in members
  {
    var left := members;
    names := [];
    while left != {}
      invariant left <= members
      invariant forall name :: name in names <==> name in members - left
    {
      var name :| name in left;
      left := left - {name};
      names := names + [name];
    }
    SortKeepsMembers(names);
    names := Sort(names);
  }

  /** The first of the sorted names is the least name of the list. */
  lemma {:induction false} SortedHeadIsLeast(names: seq<string>)
    requires names != []
    ensures Sort(names)[0] in names
    ensures forall name :: name in names ==> AtMost(Sort(names)[0], name)
  {
    var r := Sort(names);
    assert r[0] in multiset(r);
    forall name | name in names ensures AtMost(r[0], name) {
      assert name in multiset(r);
      var j :| 0 <= j < |r| && r[j] == name;
      if j == 0 { AtMostTotal(name, name); }
    }
  }
}
