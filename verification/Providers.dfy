/** The provider list: merged from the database and the configuration file, sorted by name. */
module Providers {
  import opened Basics

  datatype Provider = Provider(name: string, enabled: bool, baseUrl: string, apiKeyEnv: string, defaultModel: string)

  // ----- names are ordered character by character

  predicate Less(a: string, b: string) {
    b != "" && (a == "" || a[0] < b[0] || (a[0] == b[0] && Less(a[1..], b[1..])))
  }

  lemma {:induction false} LessIsStrict(a: string, b: string)
    ensures Less(a, b) ==> a != b && !Less(b, a)
  {
    if a != "" && b != "" && a[0] == b[0] {
      LessIsStrict(a[1..], b[1..]);
    }
  }

  lemma {:induction false} LessIsTotal(a: string, b: string)
    requires !Less(a, b) && !Less(b, a)
    ensures a == b
  {
    if a != "" && b != "" {
      LessIsTotal(a[1..], b[1..]);
      assert a == [a[0]] + a[1..] && b == [b[0]] + b[1..];
    }
  }

  lemma {:induction false} LessIsTransitive(a: string, b: string, c: string)
    requires Less(a, b) && Less(b, c)
    ensures Less(a, c)
  {
    if a != "" && a[0] == b[0] == c[0] {
      LessIsTransitive(a[1..], b[1..], c[1..]);
    }
  }

  /** a is not after b. */
  predicate Upto(a: string, b: string) {
    !Less(b, a)
  }

  lemma UptoIsTransitive(a: string, b: string, c: string)
    requires Upto(a, b) && Upto(b, c)
    ensures Upto(a, c)
  {
    hide Less;
    if Less(c, a) {
      if Less(a, b) {
        LessIsTransitive(c, a, b);
      } else {
        LessIsTotal(a, b);
      }
    }
  }

  // ----- sorting

  ghost predicate Sorted(ps: seq<Provider>) {
    forall i, j :: 0 <= i < j < |ps| ==> Upto(ps[i].name, ps[j].name)
  }

  /** Puts x after every entry that is not greater. */
  function InsertInto(ps: seq<Provider>, x: Provider): (r: seq<Provider>)
    ensures |r| == |ps| + 1
  {
    if ps == [] then [x]
    else
      var n := |ps| - 1;
      if Less(x.name, ps[n].name) then InsertInto(ps[..n], x) + [ps[n]] else ps + [x]
  }

  function SortOf(ps: seq<Provider>): (r: seq<Provider>)
    ensures |r| == |ps|
  {
    if ps == [] then [] else InsertInto(SortOf(ps[..|ps| - 1]), ps[|ps| - 1])
  }

  lemma {:induction false} InsertMembers(ps: seq<Provider>, x: Provider)
    ensures multiset(InsertInto(ps, x)) == multiset(ps) + multiset{x}
  {
    if ps != [] {
      InsertMembers(ps[..|ps| - 1], x);
      assert ps == ps[..|ps| - 1] + [ps[|ps| - 1]];
    }
  }

  /** Sorting loses nothing and adds nothing. */
  lemma {:induction false} SortMembers(ps: seq<Provider>)
    ensures multiset(SortOf(ps)) == multiset(ps)
  {
    hide InsertInto, SortOf;
    if ps == [] {
    } else {
      var n := |ps| - 1;
      var front, x := ps[..n], ps[n];
      assert ps == front + [x] && ps[..n + 1] == ps;
      SortMembers(front);
      InsertMembers(SortOf(front), x);
      SortNext(ps, n);
      assert multiset(ps) == multiset(front) + multiset{x};
    }
  }

  ghost predicate AllUpto(ps: seq<Provider>, name: string) {
    forall i :: 0 <= i < |ps| ==> Upto(ps[i].name, name)
  }

  lemma SortedSnoc(ps: seq<Provider>, x: Provider)
    requires Sorted(ps) && AllUpto(ps, x.name)
    ensures Sorted(ps + [x])
  {
    hide Upto;
  }

  lemma SortedFront(ps: seq<Provider>)
    requires Sorted(ps) && ps != []
    ensures Sorted(ps[..|ps| - 1]) && AllUpto(ps[..|ps| - 1], ps[|ps| - 1].name)
  {
    hide Upto;
  }

  lemma AllUptoMore(ps: seq<Provider>, a: string, b: string)
    requires AllUpto(ps, a) && Upto(a, b)
    ensures AllUpto(ps, b)
  {
    forall i | 0 <= i < |ps|
      ensures Upto(ps[i].name, b)
    {
      UptoIsTransitive(ps[i].name, a, b);
    }
  }

  lemma {:induction false} InsertIsSorted(ps: seq<Provider>, x: Provider, bound: string)
    requires Sorted(ps) && AllUpto(ps, bound) && Upto(x.name, bound)
    ensures Sorted(InsertInto(ps, x)) && AllUpto(InsertInto(ps, x), bound)
  {
    hide Upto, Less, Sorted;
    if ps == [] {
      assert Sorted([x]) by {
        OneIsSorted(x);
      }
    } else {
      var n := |ps| - 1;
      SortedFront(ps);
      if Less(x.name, ps[n].name) {
        LessIsUpto(x.name, ps[n].name);
        InsertIsSorted(ps[..n], x, ps[n].name);
        SortedSnoc(InsertInto(ps[..n], x), ps[n]);
        AllUptoMore(InsertInto(ps[..n], x), ps[n].name, bound);
      } else {
        NotLessIsUpto(ps[n].name, x.name);
        AllUptoMore(ps[..n], ps[n].name, x.name);
        SortedSnoc(ps, x);
      }
    }
  }

  lemma OneIsSorted(x: Provider)
    ensures Sorted([x])
  {
  }

  lemma LessIsUpto(a: string, b: string)
    requires Less(a, b)
    ensures Upto(a, b)
  {
    LessIsStrict(a, b);
  }

  lemma NotLessIsUpto(a: string, b: string)
    requires !Less(b, a)
    ensures Upto(a, b)
  {
  }

  /** The largest of the names in the list, and another. */
  lemma Bound(ps: seq<Provider>, x: string) returns (b: string)
    ensures AllUpto(ps, b) && Upto(x, b)
  {
    b := x;
    hide Less;
    LessIsStrict(x, x);
    for i := 0 to |ps|
      invariant AllUpto(ps[..i], b) && Upto(x, b)
    {
      if Less(b, ps[i].name) {
        LessIsUpto(b, ps[i].name);
        LessIsStrict(ps[i].name, ps[i].name);
        AllUptoMore(ps[..i], b, ps[i].name);
        UptoIsTransitive(x, b, ps[i].name);
        b := ps[i].name;
      }
      assert ps[..i + 1] == ps[..i] + [ps[i]];
    }
    assert ps[..|ps|] == ps;
  }

  lemma {:induction false} SortIsSorted(ps: seq<Provider>)
    ensures Sorted(SortOf(ps))
  {
    hide Upto, InsertInto;
    if ps != [] {
      var n := |ps| - 1;
      SortIsSorted(ps[..n]);
      var b := Bound(SortOf(ps[..n]), ps[n].name);
      InsertIsSorted(SortOf(ps[..n]), ps[n], b);
    }
  }

  // ----- the in-place sort

  lemma {:induction false} InsertSplits(ps: seq<Provider>, x: Provider, j: nat)
    requires j <= |ps|
    requires forall k :: j <= k < |ps| ==> Less(x.name, ps[k].name)
    requires j == 0 || !Less(x.name, ps[j - 1].name)
    ensures InsertInto(ps, x) == ps[..j] + [x] + ps[j..]
  {
    hide Less;
    if j < |ps| {
      var n := |ps| - 1;
      InsertSplits(ps[..n], x, j);
      assert ps[..n][j..] + [ps[n]] == ps[j..];
    }
  }

  /** Entry i has moved down to j, past greater ones. */
  ghost predicate MovedDown(now: seq<Provider>, was: seq<Provider>, i: nat, j: nat) {
    && |now| == |was| && j <= i < |was| && now[j] == was[i]
    && (forall k :: 0 <= k < j || i < k < |was| ==> now[k] == was[k])
    && (forall k :: j < k <= i ==> now[k] == was[k - 1])
    && (forall k :: j <= k < i ==> Less(was[i].name, was[k].name))
  }

  lemma NotMoved(was: seq<Provider>, i: nat)
    requires i < |was|
    ensures MovedDown(was, was, i, i)
  {
  }

  lemma MoveOnce(now: seq<Provider>, was: seq<Provider>, i: nat, j: nat)
    requires MovedDown(now, was, i, j) && j > 0 && Less(now[j].name, now[j - 1].name)
    ensures MovedDown(now[j - 1 := now[j]][j := now[j - 1]], was, i, j - 1)
  {
    hide Less;
  }

  lemma MovedIsInserted(now: seq<Provider>, was: seq<Provider>, i: nat, j: nat)
    requires MovedDown(now, was, i, j) && (j == 0 || !Less(now[j].name, now[j - 1].name))
    ensures now[..i + 1] == InsertInto(was[..i], was[i]) && now[i + 1..] == was[i + 1..]
  {
    hide Less, InsertInto;
    var front := was[..i];
    InsertSplits(front, was[i], j);
    assert now[..i + 1] == front[..j] + [was[i]] + front[j..];
  }

  /** One pass of the insertion sort: entry i moves down, swap by swap. */
  method MoveDown(a: array<Provider>, i: nat)
    requires i < a.Length
    modifies a
    ensures a[..i + 1] == InsertInto(old(a[..i]), old(a[i]))
    ensures a[i + 1..] == old(a[i + 1..])
  {
    hide Less, InsertInto, MovedDown;
    ghost var was := a[..];
    NotMoved(was, i);
    var j: nat := i;
    while j > 0 && Less(a[j].name, a[j - 1].name)
      invariant j <= i && MovedDown(a[..], was, i, j)
    {
      MoveOnce(a[..], was, i, j);
      ghost var next := a[..][j - 1 := a[j]][j := a[j - 1]];
      a[j - 1], a[j] := a[j], a[j - 1];
      assert a[..] == next;
      j := j - 1;
    }
    MovedIsInserted(a[..], was, i, j);
    assert a[..i + 1] == a[..][..i + 1] && a[i + 1..] == a[..][i + 1..];
  }

  method SortInPlace(a: array<Provider>)
    modifies a
    ensures a[..] == SortOf(old(a[..]))
  {
    hide InsertInto, SortOf;
    ghost var was := a[..];
    if a.Length == 0 {
      return;
    }
    OneSorts(was);
    for i := 1 to a.Length
      invariant a[..i] == SortOf(was[..i])
      invariant a[i..] == was[i..]
    {
      assert a[i] == a[i..][0] == was[i];
      assert a[i + 1..] == a[i..][1..] == was[i + 1..];
      MoveDown(a, i);
      SortNext(was, i);
    }
    assert was[..a.Length] == was && a[..a.Length] == a[..];
  }

  lemma SortNext(ps: seq<Provider>, i: nat)
    requires i < |ps|
    ensures SortOf(ps[..i + 1]) == InsertInto(SortOf(ps[..i]), ps[i])
  {
    hide InsertInto;
    assert ps[..i + 1][..i] == ps[..i];
  }

  lemma OneSorts(ps: seq<Provider>)
    requires ps != []
    ensures SortOf(ps[..1]) == ps[..1]
  {
    assert ps[..1][..0] == [];
    assert SortOf(ps[..1][..0]) == [];
  }

  // ----- entries by name

  /** The first entry with the name. */
  function Find(ps: seq<Provider>, name: string): Option<Provider> {
    if ps == [] then None
    else
      var n := |ps| - 1;
      if Find(ps[..n], name).Some? then Find(ps[..n], name)
      else if ps[n].name == name then Some(ps[n]) else None
  }

  lemma FindSnoc(ps: seq<Provider>, x: Provider, name: string)
    ensures Find(ps + [x], name) == if Find(ps, name).Some? then Find(ps, name) else if x.name == name then Some(x) else None
  {
    assert (ps + [x])[..|ps|] == ps;
  }

  lemma {:induction false} FindFacts(ps: seq<Provider>, name: string)
    ensures Find(ps, name).Some? ==> Find(ps, name).value in ps && Find(ps, name).value.name == name
    ensures forall i :: 0 <= i < |ps| && ps[i].name == name ==> Find(ps, name).Some?
  {
    if ps != [] {
      FindFacts(ps[..|ps| - 1], name);
    }
  }

  lemma {:induction false} FindInserted(ps: seq<Provider>, x: Provider, name: string)
    ensures Find(InsertInto(ps, x), name) == Find(ps + [x], name)
  {
    hide Less, Find;
    if ps == [] {
      assert [] + [x] == [x];
    } else {
      var n := |ps| - 1;
      if Less(x.name, ps[n].name) {
        LessIsStrict(x.name, ps[n].name);
        FindInserted(ps[..n], x, name);
        FindSnoc(InsertInto(ps[..n], x), ps[n], name);
        FindSnoc(ps[..n], x, name);
        FindSnoc(ps[..n], ps[n], name);
        assert ps[..n] + [ps[n]] == ps;
        FindSnoc(ps, x, name);
      }
    }
  }

  /** Sorting keeps the first entry of each name first. */
  lemma {:induction false} FindSorted(ps: seq<Provider>, name: string)
    ensures Find(SortOf(ps), name) == Find(ps, name)
  {
    if ps != [] {
      hide Find, InsertInto;
      var n := |ps| - 1;
      FindSorted(ps[..n], name);
      FindInserted(SortOf(ps[..n]), ps[n], name);
      FindSnoc(SortOf(ps[..n]), ps[n], name);
      FindSnoc(ps[..n], ps[n], name);
      assert ps[..n] + [ps[n]] == ps;
    }
  }

  ghost predicate Distinct(ps: seq<Provider>) {
    forall i, j :: 0 <= i < j < |ps| ==> ps[i].name != ps[j].name
  }

  lemma {:induction false} InsertIsDistinct(ps: seq<Provider>, x: Provider)
    requires Distinct(ps) && forall i :: 0 <= i < |ps| ==> ps[i].name != x.name
    ensures Distinct(InsertInto(ps, x))
  {
    hide Less;
    if ps != [] {
      var n := |ps| - 1;
      InsertIsDistinct(ps[..n], x);
      InsertMembers(ps[..n], x);
      forall p | p in InsertInto(ps[..n], x)
        ensures p.name != ps[n].name
      {
        assert p in multiset(InsertInto(ps[..n], x));
        assert p in ps[..n] || p == x;
      }
    }
  }

  lemma {:induction false} SortIsDistinct(ps: seq<Provider>)
    requires Distinct(ps)
    ensures Distinct(SortOf(ps))
  {
    if ps != [] {
      hide InsertInto;
      var n := |ps| - 1;
      SortIsDistinct(ps[..n]);
      SortMembers(ps[..n]);
      forall p | p in SortOf(ps[..n])
        ensures p.name != ps[n].name
      {
        assert p in multiset(SortOf(ps[..n]));
        assert p in ps[..n];
      }
      InsertIsDistinct(SortOf(ps[..n]), ps[n]);
    }
  }

  /** Strictly increasing by name. */
  ghost predicate Strict(ps: seq<Provider>) {
    forall i, j :: 0 <= i < j < |ps| ==> Less(ps[i].name, ps[j].name)
  }

  lemma SortedDistinctIsStrict(ps: seq<Provider>)
    requires Sorted(ps) && Distinct(ps)
    ensures Strict(ps)
  {
    hide Less;
    forall i, j | 0 <= i < j < |ps|
      ensures Less(ps[i].name, ps[j].name)
    {
      if !Less(ps[i].name, ps[j].name) {
        LessIsTotal(ps[i].name, ps[j].name);
      }
    }
  }

  /** Entries in strict order of names are determined by what is found under each name. */
  lemma {:induction false} StrictIsUnique(a: seq<Provider>, b: seq<Provider>)
    requires Strict(a) && Strict(b) && forall name :: Find(a, name) == Find(b, name)
    ensures a == b
    decreases |a|
  {
    hide Less, Find;
    if a == [] {
      if b != [] {
        SameLast(b, a);
      }
    } else if b == [] {
      SameLast(a, b);
    } else {
      var m, n := |a| - 1, |b| - 1;
      SameLast(a, b);
      SameLast(b, a);
      LessIsStrict(a[m].name, b[n].name);
      assert a[m] == b[n] by {
        StrictFind(a, m);
        StrictFind(b, n);
        LessIsTotal(a[m].name, b[n].name);
      }
      forall name
        ensures Find(a[..m], name) == Find(b[..n], name)
      {
        FindWithoutLast(a, name);
        FindWithoutLast(b, name);
      }
      StrictIsUnique(a[..m], b[..n]);
      assert a == a[..m] + [a[m]] && b == b[..n] + [b[n]];
    }
  }

  lemma StrictFind(a: seq<Provider>, k: nat)
    requires Strict(a) && k < |a|
    ensures Find(a, a[k].name) == Some(a[k])
  {
    hide Less, Find;
    FindFacts(a, a[k].name);
    var p := Find(a, a[k].name).value;
    var i :| 0 <= i < |a| && a[i] == p;
    LessIsStrict(a[i].name, a[k].name);
    LessIsStrict(a[k].name, a[i].name);
  }

  /** The last name of one list is found in the other, so it is not after the other's last. */
  lemma SameLast(a: seq<Provider>, b: seq<Provider>)
    requires Strict(a) && Strict(b) && a != [] && forall name :: Find(a, name) == Find(b, name)
    ensures b != [] && !Less(b[|b| - 1].name, a[|a| - 1].name)
  {
    hide Less, Find;
    var x := a[|a| - 1];
    StrictFind(a, |a| - 1);
    FindFacts(b, x.name);
    assert x in b;
    var i :| 0 <= i < |b| && b[i] == x;
    LessIsStrict(x.name, b[|b| - 1].name);
    LessIsStrict(x.name, x.name);
  }

  lemma FindWithoutLast(a: seq<Provider>, name: string)
    requires Strict(a) && a != []
    ensures Find(a[..|a| - 1], name) == if name == a[|a| - 1].name then None else Find(a, name)
  {
    hide Less, Find;
    var n := |a| - 1;
    assert a[..n] + [a[n]] == a;
    FindSnoc(a[..n], a[n], name);
    FindFacts(a[..n], name);
    if name == a[n].name && Find(a[..n], name).Some? {
      var i :| 0 <= i < n && a[i] == Find(a[..n], name).value;
      LessIsStrict(a[i].name, a[n].name);
    }
  }

  // ----- merging

  /** The entries whose name did not come before. */
  function Firsts(ps: seq<Provider>): seq<Provider> {
    if ps == [] then []
    else
      var n := |ps| - 1;
      Firsts(ps[..n]) + if Find(ps[..n], ps[n].name).Some? then [] else [ps[n]]
  }

  lemma FirstsNext(ps: seq<Provider>)
    requires ps != []
    ensures var n := |ps| - 1;
            Firsts(ps) == if Find(ps[..n], ps[n].name).Some? then Firsts(ps[..n]) else Firsts(ps[..n]) + [ps[n]]
  {
    hide Find;
  }

  lemma {:induction false} FindFirsts(ps: seq<Provider>, name: string)
    ensures Find(Firsts(ps), name) == Find(ps, name)
  {
    hide Find, Firsts;
    if ps == [] {
      NoFirsts();
    } else {
      var n := |ps| - 1;
      FindFirsts(ps[..n], name);
      FirstsNext(ps);
      assert ps[..n] + [ps[n]] == ps;
      FindSnoc(ps[..n], ps[n], name);
      FindSnoc(Firsts(ps[..n]), ps[n], name);
    }
  }

  lemma NoFirsts()
    ensures Firsts([]) == []
  {
  }

  lemma {:induction false} FirstsAreDistinct(ps: seq<Provider>)
    ensures Distinct(Firsts(ps))
  {
    if ps != [] {
      hide Find;
      var n := |ps| - 1;
      FirstsAreDistinct(ps[..n]);
      FindFirsts(ps[..n], ps[n].name);
      FindFacts(Firsts(ps[..n]), ps[n].name);
    }
  }

  /** One entry per name, the first, in strict order of names. */
  method DedupAndSort(providers: seq<Provider>) returns (r: seq<Provider>)
    ensures r == SortOf(Firsts(providers))
    ensures Strict(r) && forall name :: Find(r, name) == Find(providers, name)
  {
    hide Less, Find, InsertInto, SortOf;
    var seen: set<string> := {};
    var kept: seq<Provider> := [];
    NothingFound();
    for i := 0 to |providers|
      invariant kept == Firsts(providers[..i])
      invariant forall name :: name in seen <==> Find(providers[..i], name).Some?
    {
      assert providers[..i + 1][..i] == providers[..i];
      assert providers[..i + 1] == providers[..i] + [providers[i]];
      forall name
        ensures Find(providers[..i + 1], name).Some? <==> Find(providers[..i], name).Some? || name == providers[i].name
      {
        FindSnoc(providers[..i], providers[i], name);
      }
      if providers[i].name !in seen {
        seen := seen + {providers[i].name};
        kept := kept + [providers[i]];
      }
    }
    assert providers[..|providers|] == providers;
    var a := new Provider[|kept|](i requires 0 <= i < |kept| => kept[i]);
    assert a[..] == kept;
    SortInPlace(a);
    r := a[..];
    FirstsAreDistinct(providers);
    SortIsSorted(kept);
    SortIsDistinct(kept);
    SortedDistinctIsStrict(r);
    forall name
      ensures Find(r, name) == Find(providers, name)
    {
      FindSorted(kept, name);
      FindFirsts(providers, name);
    }
  }

  lemma NothingFound()
    ensures forall name :: Find([], name).None?
  {
  }

  /** What the provider table gives: there may be no store, or it may fail. */
  datatype DbRead = NoStore | Failed | Rows(providers: seq<Provider>)

  /** The entry the merge must hold for a name: the database's, or else the file's. */
  function Wins(db: DbRead, yaml: seq<Provider>, name: string): Option<Provider> {
    if db.Rows? && Find(db.providers, name).Some? then Find(db.providers, name) else Find(yaml, name)
  }

  method NamesIn(ps: seq<Provider>) returns (names: set<string>)
    ensures forall name :: name in names <==> Find(ps, name).Some?
  {
    hide Find;
    names := {};
    NothingFound();
    for i := 0 to |ps|
      invariant forall name :: name in names <==> Find(ps[..i], name).Some?
    {
      assert ps[..i + 1] == ps[..i] + [ps[i]];
      forall name
        ensures Find(ps[..i + 1], name).Some? <==> Find(ps[..i], name).Some? || name == ps[i].name
      {
        FindSnoc(ps[..i], ps[i], name);
      }
      names := names + {ps[i].name};
    }
    assert ps[..|ps|] == ps;
  }

  /** One entry per name, in strict order of names: the database's if it has one, else the file's first. */
  method MergeProviders(db: DbRead, yaml: seq<Provider>) returns (r: seq<Provider>)
    ensures Strict(r) && forall name :: Find(r, name) == Wins(db, yaml, name)
  {
    if !db.Rows? {
      r := DedupAndSort(yaml);
      return;
    }
    hide Less, Find;
    var merged := db.providers;
    NothingFound();
    assert yaml[..0] == [];
    var dbNames := NamesIn(db.providers);
    for i := 0 to |yaml|
      invariant forall name :: Find(merged, name) == Wins(db, yaml[..i], name)
    {
      assert yaml[..i + 1] == yaml[..i] + [yaml[i]];
      ghost var had := merged;
      if yaml[i].name !in dbNames {
        merged := merged + [yaml[i]];
      }
      forall name
        ensures Find(merged, name) == Wins(db, yaml[..i + 1], name)
      {
        FindSnoc(yaml[..i], yaml[i], name);
        FindSnoc(had, yaml[i], name);
        FindFacts(db.providers, name);
      }
    }
    assert yaml[..|yaml|] == yaml;
    r := DedupAndSort(merged);
  }
}
