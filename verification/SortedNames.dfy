/** Ordered lists of names: the byte-wise string order, sorting, duplicate
    removal and list comparison used to detect route changes. */
module SortedNames {
  import opened Basics

  predicate Less(a: string, b: string) {
    if b == "" then false
    else if a == "" then true
    else a[0] < b[0] || (a[0] == b[0] && Less(a[1..], b[1..]))
  }

  lemma {:induction false} LessIrreflexive(a: string)
    ensures !Less(a, a)
  {
    if a != "" {
      LessIrreflexive(a[1..]);
    }
  }

  lemma {:induction false} LessTransitive(a: string, b: string, c: string)
    requires Less(a, b) && Less(b, c)
    ensures Less(a, c)
  {
    if a != "" && a[0] == b[0] && b[0] == c[0] {
      LessTransitive(a[1..], b[1..], c[1..]);
    }
  }

  lemma {:induction false} LessTotal(a: string, b: string)
    ensures a == b || Less(a, b) || Less(b, a)
  {
    if a != "" && b != "" && a[0] == b[0] {
      LessTotal(a[1..], b[1..]);
      assert a == [a[0]] + a[1..] && b == [b[0]] + b[1..];
    }
  }

  ghost predicate Ascending(s: seq<string>) {
    forall i, j :: 0 <= i < j < |s| ==> Less(s[i], s[j])
  }

  function Names(s: seq<string>): set<string> { set x | x in s }

  // ---- sort.Strings ----

  function Insert(x: string, s: seq<string>): seq<string> {
    if s == [] then [x]
    else if Less(s[0], x) then [s[0]] + Insert(x, s[1..])
    else [x] + s
  }

  function Sort(s: seq<string>): seq<string> {
    if s == [] then [] else Insert(s[0], Sort(s[1..]))
  }

  lemma {:induction false} InsertNames(x: string, s: seq<string>)
    ensures Names(Insert(x, s)) == Names(s) + {x}
  {
    if s != [] {
      assert s == [s[0]] + s[1..];
      assert Names(s) == {s[0]} + Names(s[1..]);
      if Less(s[0], x) {
        InsertNames(x, s[1..]);
        assert Names([s[0]] + Insert(x, s[1..])) == {s[0]} + Names(Insert(x, s[1..]));
      } else {
        assert Names([x] + s) == {x} + Names(s);
      }
    }
  }

  lemma PrependAscending(x: string, s: seq<string>)
    requires Ascending(s) && forall y :: y in s ==> Less(x, y)
    ensures Ascending([x] + s)
  {
  }

  lemma {:induction false} InsertAscending(x: string, s: seq<string>)
    requires Ascending(s) && x !in s
    ensures Ascending(Insert(x, s))
  {
    if s != [] {
      LessTotal(s[0], x);
      if Less(s[0], x) {
        InsertAscending(x, s[1..]);
        InsertNames(x, s[1..]);
        forall y | y in Insert(x, s[1..]) ensures Less(s[0], y) {
          assert y in Names(s[1..]) + {x};
        }
        PrependAscending(s[0], Insert(x, s[1..]));
      } else {
        forall y | y in s ensures Less(x, y) {
          if y != s[0] {
            LessTransitive(x, s[0], y);
          }
        }
        PrependAscending(x, s);
      }
    }
  }

  /** Sorting a duplicate-free list gives the ascending list of the same names. */
  lemma {:induction false} SortSorts(s: seq<string>)
    requires Distinct(s)
    ensures Ascending(Sort(s)) && Names(Sort(s)) == Names(s)
  {
    if s != [] {
      SortSorts(s[1..]);
      assert s == [s[0]] + s[1..];
      assert s[0] !in Sort(s[1..]) by {
        assert s[0] !in Names(s[1..]);
      }
      InsertAscending(s[0], Sort(s[1..]));
      InsertNames(s[0], Sort(s[1..]));
    }
  }

  /** There is only one ascending list of a set of names. */
  lemma {:induction false} AscendingUnique(a: seq<string>, b: seq<string>)
    requires Ascending(a) && Ascending(b) && Names(a) == Names(b)
    ensures a == b
  {
    EmptyNames(a);
    EmptyNames(b);
    if a != [] {
      FirstIsLeast(a, b);
      FirstIsLeast(b, a);
      LessAsymmetric(a[0], b[0]);
      TailNames(a);
      TailNames(b);
      AscendingUnique(a[1..], b[1..]);
      assert a == [a[0]] + a[1..] && b == [b[0]] + b[1..];
    }
  }

  lemma EmptyNames(a: seq<string>)
    ensures a == [] <==> Names(a) == {}
  {
    if a != [] {
      assert a[0] in Names(a);
    }
  }

  lemma LessAsymmetric(a: string, b: string)
    requires a == b || Less(a, b)
    requires b == a || Less(b, a)
    ensures a == b
  {
  }

  lemma FirstIsLeast(a: seq<string>, b: seq<string>)
    requires Ascending(a) && Names(a) == Names(b) && a != [] && b != []
    ensures a[0] == b[0] || Less(a[0], b[0])
  {
    assert b[0] in Names(a);
  }

  lemma TailNames(a: seq<string>)
    requires Ascending(a) && a != []
    ensures Names(a[1..]) == Names(a) - {a[0]}
  {
    assert a == [a[0]] + a[1..];
    assert a[0] !in a[1..] by {
      forall i | 1 <= i < |a| ensures a[i] != a[0] {
        LessIrreflexive(a[0]);
      }
    }
  }

  // ---- the two loops of the route comparison ----

  /** uniqueRoutes: first occurrences, in order. */
  method UniqueRoutes(routes: seq<string>) returns (result: seq<string>)
    ensures Distinct(result) && Names(result) == Names(routes)
  {
    var seen := {};
    result := [];
    for i := 0 to |routes|
      invariant Distinct(result) && Names(result) == seen == Names(routes[..i])
    {
      var route := routes[i];
      assert routes[..i + 1] == routes[..i] + [route];
      assert Names(routes[..i + 1]) == Names(routes[..i]) + {route};
      if route !in seen {
        seen := seen + {route};
        assert Names(result + [route]) == Names(result) + {route};
        result := result + [route];
      }
    }
    assert routes[..|routes|] == routes;
  }

  method EqualStrings(a: seq<string>, b: seq<string>) returns (equal: bool)
    ensures equal <==> a == b
  {
    if |a| != |b| {
      return false;
    }
    for i := 0 to |a|
      invariant a[..i] == b[..i]
    {
      if a[i] != b[i] {
        return false;
      }
    }
    return true;
  }

  /** The comparison of UpdateUser: existing routes come sorted from the database,
      requested ones in any order with any duplicates. */
  method RoutesChanged(existing: seq<string>, requested: seq<string>) returns (changed: bool, sorted: seq<string>)
    requires Ascending(existing)
    ensures changed <==> Names(existing) != Names(requested)
    ensures Ascending(sorted) && Names(sorted) == Names(requested)
  {
    var unique := UniqueRoutes(requested);
    SortSorts(unique);
    sorted := Sort(unique);
    var equal := EqualStrings(existing, sorted);
    if Names(existing) == Names(sorted) {
      AscendingUnique(existing, sorted);
    }
    changed := !equal;
  }
}
