/** Which provider and model a dispatch gets, and what the configuration page shows as the tier's choice. */
module Resolution {
  import opened Basics
  import opened Text
  import opened Providers

  /** The model each provider has for one tier. */
  type TierRow = map<string, string>

  predicate Candidate(p: Provider, models: TierRow) {
    p.enabled && p.name in models
  }

  /** The candidate with the least name, the first of equals. */
  function Best(ps: seq<Provider>, models: TierRow): Option<Provider> {
    if ps == [] then None
    else
      var n := |ps| - 1;
      var b := Best(ps[..n], models);
      if Candidate(ps[n], models) && (b.None? || Less(ps[n].name, b.value.name)) then Some(ps[n]) else b
  }

  /** The choice is a candidate, and no candidate's name comes before its name. */
  ghost predicate IsLeast(ps: seq<Provider>, models: TierRow, b: Option<Provider>) {
    match b
    case None => forall p :: p in ps ==> !Candidate(p, models)
    case Some(c) => c in ps && Candidate(c, models) && forall p :: p in ps && Candidate(p, models) ==> Upto(c.name, p.name)
  }

  lemma {:induction false} BestIsLeast(ps: seq<Provider>, models: TierRow)
    ensures IsLeast(ps, models, Best(ps, models))
  {
    hide Less, Upto, Candidate;
    if ps != [] {
      var n := |ps| - 1;
      BestIsLeast(ps[..n], models);
      assert forall p :: p in ps <==> p in ps[..n] || p == ps[n];
      var b := Best(ps[..n], models);
      var x := ps[n];
      Reflexive(x.name);
      if b.Some? && Candidate(x, models) {
        if Less(x.name, b.value.name) {
          LessIsUpto(x.name, b.value.name);
          forall p | p in ps[..n] && Candidate(p, models)
            ensures Upto(x.name, p.name)
          {
            UptoIsTransitive(x.name, b.value.name, p.name);
          }
        } else {
          NotLessIsUpto(b.value.name, x.name);
        }
      }
    }
  }

  lemma Reflexive(a: string)
    ensures Upto(a, a) && !Less(a, a)
  {
    LessIsStrict(a, a);
  }

  /** All least choices have one name; they are one entry when names are distinct. */
  lemma LeastIsUnique(ps: seq<Provider>, models: TierRow, a: Option<Provider>, b: Option<Provider>)
    requires IsLeast(ps, models, a) && IsLeast(ps, models, b)
    ensures a.Some? <==> b.Some?
    ensures a.Some? ==> a.value.name == b.value.name && (Distinct(ps) ==> a == b)
  {
    hide Less;
    if a.Some? {
      LessIsTotal(a.value.name, b.value.name);
      var i :| 0 <= i < |ps| && ps[i] == a.value;
      var j :| 0 <= j < |ps| && ps[j] == b.value;
    }
  }

  // ----- ResolveTier

  function EnabledOf(ps: seq<Provider>): seq<Provider> {
    if ps == [] then []
    else EnabledOf(ps[..|ps| - 1]) + if ps[|ps| - 1].enabled then [ps[|ps| - 1]] else []
  }

  method CollectEnabled(ps: seq<Provider>) returns (enabled: seq<Provider>)
    ensures enabled == EnabledOf(ps)
  {
    enabled := [];
    for i := 0 to |ps|
      invariant enabled == EnabledOf(ps[..i])
    {
      assert ps[..i + 1][..i] == ps[..i];
      if ps[i].enabled {
        enabled := enabled + [ps[i]];
      }
    }
    assert ps[..|ps|] == ps;
  }

  /** The first entry whose name the tier has a model for. */
  function FirstIn(ps: seq<Provider>, models: TierRow): Option<Provider> {
    if ps == [] then None
    else
      var n := |ps| - 1;
      if FirstIn(ps[..n], models).Some? then FirstIn(ps[..n], models)
      else if ps[n].name in models then Some(ps[n]) else None
  }

  lemma FirstSnoc(ps: seq<Provider>, x: Provider, models: TierRow)
    ensures FirstIn(ps + [x], models) ==
            if FirstIn(ps, models).Some? then FirstIn(ps, models) else if x.name in models then Some(x) else None
  {
    assert (ps + [x])[..|ps|] == ps;
  }

  lemma {:induction false} FirstIsMember(ps: seq<Provider>, models: TierRow)
    ensures FirstIn(ps, models).Some? ==> FirstIn(ps, models).value in ps
  {
    if ps != [] {
      FirstIsMember(ps[..|ps| - 1], models);
    }
  }

  lemma {:induction false} FirstInserted(ps: seq<Provider>, x: Provider, models: TierRow)
    requires Sorted(ps)
    ensures FirstIn(InsertInto(ps, x), models) ==
            var f := FirstIn(ps, models);
            if x.name in models && (f.None? || Less(x.name, f.value.name)) then Some(x) else f
  {
    hide Less, Upto, FirstIn;
    FirstSnoc([], x, models);
    assert [] + [x] == [x];
    if ps == [] {
      assert FirstIn([], models) == None by { FirstOfNone(models); }
    } else {
      var n := |ps| - 1;
      assert ps == ps[..n] + [ps[n]];
      FirstSnoc(ps[..n], ps[n], models);
      if Less(x.name, ps[n].name) {
        SortedFront(ps);
        FirstInserted(ps[..n], x, models);
        FirstSnoc(InsertInto(ps[..n], x), ps[n], models);
      } else {
        FirstSnoc(ps, x, models);
        FirstIsMember(ps, models);
        var f := FirstIn(ps, models);
        if f.Some? {
          var i :| 0 <= i < |ps| && ps[i] == f.value;
          Reflexive(f.value.name);
          NotLessIsUpto(ps[n].name, x.name);
          UptoIsTransitive(f.value.name, ps[n].name, x.name);
          assert !Less(x.name, f.value.name) by { UptoMeans(f.value.name, x.name); }
        }
      }
    }
  }

  lemma FirstOfNone(models: TierRow)
    ensures FirstIn([], models) == None
  {
  }

  lemma UptoMeans(a: string, b: string)
    requires Upto(a, b)
    ensures !Less(b, a)
  {
  }

  /** Scanning the sorted, enabled entries for the first with a model finds the least candidate. */
  lemma {:induction false} ScanFindsBest(ps: seq<Provider>, models: TierRow)
    ensures FirstIn(SortOf(EnabledOf(ps)), models) == Best(ps, models)
  {
    if ps != [] {
      hide FirstIn, InsertInto, Less;
      var n := |ps| - 1;
      ScanFindsBest(ps[..n], models);
      if ps[n].enabled {
        var front := EnabledOf(ps[..n]);
        SortIsSorted(front);
        FirstInserted(SortOf(front), ps[n], models);
        assert (front + [ps[n]])[..|front|] == front;
      } else {
        assert EnabledOf(ps) == EnabledOf(ps[..n]);
      }
    }
  }

  datatype Choice = Choice(provider: Provider, model: string)

  function TierChoice(tier: string, ps: seq<Provider>, tiers: Option<map<string, TierRow>>): Option<Choice> {
    if tier == "" || tiers.None? || tier !in tiers.value then None
    else
      var b := Best(ps, tiers.value[tier]);
      BestIsLeast(ps, tiers.value[tier]);
      if b.None? then None else Some(Choice(b.value, tiers.value[tier][b.value.name]))
  }

  /** The first enabled provider by name that the tier has a model for; nothing when the tier's table
      cannot be read or has no row. */
  method ResolveTier(tier: string, ps: seq<Provider>, tiers: Option<map<string, TierRow>>) returns (r: Option<Choice>)
    ensures r == TierChoice(tier, ps, tiers)
  {
    hide SortOf, FirstIn, Best, IsLeast;
    if tier == "" || tiers.None? || tier !in tiers.value {
      return None;
    }
    var models := tiers.value[tier];
    var enabled := CollectEnabled(ps);
    var a := new Provider[|enabled|](i requires 0 <= i < |enabled| => enabled[i]);
    assert a[..] == enabled;
    SortInPlace(a);
    ScanFindsBest(ps, models);
    FirstOfNone(models);
    for i := 0 to a.Length
      invariant FirstIn(a[..i], models) == None
      invariant a[..] == SortOf(enabled)
    {
      FirstSnoc(a[..i], a[i], models);
      assert a[..i + 1] == a[..i] + [a[i]];
      if a[i].name in models {
        FirstStays(a[..], i + 1, models);
        return Some(Choice(a[i], models[a[i].name]));
      }
    }
    assert a[..a.Length] == a[..];
    return None;
  }

  lemma {:induction false} FirstStays(ps: seq<Provider>, n: nat, models: TierRow)
    requires n <= |ps| && FirstIn(ps[..n], models).Some?
    ensures FirstIn(ps, models) == FirstIn(ps[..n], models)
  {
    if n == |ps| {
      assert ps[..n] == ps;
    } else {
      var m := |ps| - 1;
      assert ps[..m][..n] == ps[..n];
      FirstStays(ps[..m], n, models);
    }
  }

  // ----- the configuration page

  /** The last entry with the name, as in a map filled in order. */
  function LastNamed(ps: seq<Provider>, name: string): Option<Provider> {
    if ps == [] then None
    else if ps[|ps| - 1].name == name then Some(ps[|ps| - 1])
    else LastNamed(ps[..|ps| - 1], name)
  }

  predicate Shown(ps: seq<Provider>, name: string) {
    LastNamed(ps, name).Some? && LastNamed(ps, name).value.enabled
  }

  /** The name is of an enabled provider with a model, and no such name comes before it. */
  ghost predicate IsShownLeast(ps: seq<Provider>, models: TierRow, r: Option<string>) {
    match r
    case None => forall n :: n in models ==> !Shown(ps, n)
    case Some(x) => x in models && Shown(ps, x) && forall n :: n in models && Shown(ps, n) ==> Upto(x, n)
  }

  ghost predicate SortedNames(names: seq<string>) {
    forall i, j :: 0 <= i < j < |names| ==> Upto(names[i], names[j])
  }

  /** The names of a set in order: each taken in any order and put in its place. */
  method InOrder(keys: set<string>) returns (names: seq<string>)
    ensures SortedNames(names) && forall n :: n in names <==> n in keys
  {
    hide Less, Upto;
    names := [];
    var rest := keys;
    while rest != {}
      invariant rest <= keys && SortedNames(names)
      invariant forall n :: n in names <==> n in keys - rest
    {
      var k :| k in rest;
      var i := |names|;
      while i > 0 && Less(k, names[i - 1])
        invariant 0 <= i <= |names|
        invariant forall j :: i <= j < |names| ==> Upto(k, names[j])
      {
        LessIsUpto(k, names[i - 1]);
        i := i - 1;
      }
      PutIn(names, k, i);
      names := names[..i] + [k] + names[i..];
      rest := rest - {k};
    }
  }

  lemma PutIn(names: seq<string>, k: string, i: nat)
    requires SortedNames(names) && i <= |names| && (i > 0 ==> !Less(k, names[i - 1]))
    requires forall j :: i <= j < |names| ==> Upto(k, names[j])
    ensures var r := names[..i] + [k] + names[i..]; SortedNames(r) && forall n :: n in r <==> n in names || n == k
  {
    hide Less;
    var r := names[..i] + [k] + names[i..];
    if i > 0 {
      NotLessIsUpto(names[i - 1], k);
    }
    hide Upto;
    forall j | 0 <= j < i
      ensures Upto(names[j], k)
    {
      if j < i - 1 {
        UptoIsTransitive(names[j], names[i - 1], k);
      }
    }
    assert forall n :: n in names <==> n in names[..i] || n in names[i..] by {
      assert names == names[..i] + names[i..];
    }
  }

  /** The "resolved" entry of one tier. */
  method ShownChoice(ps: seq<Provider>, models: TierRow) returns (resolved: Option<string>)
    ensures IsShownLeast(ps, models, resolved)
  {
    hide Less, Upto;
    var byName := map[];
    for i := 0 to |ps|
      invariant forall n :: n in byName <==> LastNamed(ps[..i], n).Some?
      invariant forall n :: n in byName ==> LastNamed(ps[..i], n) == Some(byName[n])
    {
      assert ps[..i + 1][..i] == ps[..i];
      byName := byName[ps[i].name := ps[i]];
    }
    assert ps[..|ps|] == ps;
    var names := InOrder(models.Keys);
    resolved := None;
    for i := 0 to |names|
      invariant resolved.None? ==> forall j :: 0 <= j < i ==> !Shown(ps, names[j])
      invariant resolved.Some? ==> resolved.value in models && Shown(ps, resolved.value)
      invariant resolved.Some? ==> exists j :: 0 <= j < i && names[j] == resolved.value && forall k :: 0 <= k < j ==> !Shown(ps, names[k])
    {
      var enabled := names[i] in byName && byName[names[i]].enabled;
      if resolved.None? && enabled {
        resolved := Some(names[i]);
        assert names[i] in names;
      }
    }
    FirstShown(ps, models, names, resolved);
  }

  lemma FirstShown(ps: seq<Provider>, models: TierRow, names: seq<string>, r: Option<string>)
    requires SortedNames(names) && forall n :: n in names <==> n in models
    requires r.None? ==> forall j :: 0 <= j < |names| ==> !Shown(ps, names[j])
    requires r.Some? ==> Shown(ps, r.value)
    requires r.Some? ==> exists j :: 0 <= j < |names| && names[j] == r.value && forall k :: 0 <= k < j ==> !Shown(ps, names[k])
    ensures IsShownLeast(ps, models, r)
  {
    hide Less, Upto, Shown;
    if r.None? {
      forall n | n in models
        ensures !Shown(ps, n)
      {
        var j :| 0 <= j < |names| && names[j] == n;
      }
    } else {
      var j :| 0 <= j < |names| && names[j] == r.value && forall k :: 0 <= k < j ==> !Shown(ps, names[k]);
      assert names[j] in names;
      Reflexive(r.value);
      forall n | n in models && Shown(ps, n)
        ensures Upto(r.value, n)
      {
        var k :| 0 <= k < |names| && names[k] == n;
      }
    }
  }

  lemma {:induction false} LastFacts(ps: seq<Provider>, name: string)
    ensures LastNamed(ps, name).Some? ==> LastNamed(ps, name).value in ps && LastNamed(ps, name).value.name == name
    ensures forall p :: p in ps && p.name == name ==> LastNamed(ps, name).Some?
  {
    if ps != [] {
      LastFacts(ps[..|ps| - 1], name);
      assert ps == ps[..|ps| - 1] + [ps[|ps| - 1]];
    }
  }

  lemma ShownIfCandidate(ps: seq<Provider>, models: TierRow, name: string)
    requires Distinct(ps)
    ensures name in models && Shown(ps, name) <==> exists p :: p in ps && p.name == name && Candidate(p, models)
  {
    LastFacts(ps, name);
    if p :| p in ps && p.name == name && Candidate(p, models) {
      var q := LastNamed(ps, name).value;
      var i :| 0 <= i < |ps| && ps[i] == p;
      var j :| 0 <= j < |ps| && ps[j] == q;
    }
  }

  /** The page and the dispatch agree: with distinct names the entry shown is the one ResolveTier picks. */
  lemma PageShowsDispatch(ps: seq<Provider>, models: TierRow, shown: Option<string>)
    requires Distinct(ps) && IsShownLeast(ps, models, shown)
    ensures var b := Best(ps, models);
            shown == if b.None? then None else Some(b.value.name)
  {
    hide Best, Less, Upto, Shown, Candidate, Distinct;
    var b := Best(ps, models);
    BestIsLeast(ps, models);
    if b.Some? {
      ShownIfCandidate(ps, models, b.value.name);
      assert b.value in ps && b.value.name == b.value.name && Candidate(b.value, models);
      UptoMeans(shown.value, b.value.name);
    }
    if shown.Some? {
      ShownIfCandidate(ps, models, shown.value);
      var p :| p in ps && p.name == shown.value && Candidate(p, models);
      UptoMeans(b.value.name, p.name);
      LessIsTotal(b.value.name, shown.value);
    }
  }

  function NameOf(b: Option<Provider>): Option<string> {
    if b.None? then None else Some(b.value.name)
  }

  lemma ShownIsCandidate(ps: seq<Provider>, models: TierRow, name: string)
    requires name in models && Shown(ps, name)
    ensures var q := LastNamed(ps, name).value; q in ps && q.name == name && Candidate(q, models)
  {
    LastFacts(ps, name);
  }

  /** Whatever the list: the page names the dispatch's choice exactly when there is none, or the last
      entry with its name is enabled. */
  lemma PageAgreesExactlyWhen(ps: seq<Provider>, models: TierRow, shown: Option<string>)
    requires IsShownLeast(ps, models, shown)
    ensures shown == NameOf(Best(ps, models)) <==> Best(ps, models).None? || Shown(ps, Best(ps, models).value.name)
  {
    hide Best, Less, Upto, Shown, Candidate;
    var b := Best(ps, models);
    BestIsLeast(ps, models);
    CandidatesAreNamed(ps, models);
    if shown.Some? {
      ShownIsCandidate(ps, models, shown.value);
      if b.Some? && Shown(ps, b.value.name) {
        UptoMeans(shown.value, b.value.name);
        UptoMeans(b.value.name, shown.value);
        LessIsTotal(b.value.name, shown.value);
      }
    }
  }

  lemma CandidatesAreNamed(ps: seq<Provider>, models: TierRow)
    ensures forall p :: p in ps && Candidate(p, models) ==> p.name in models
  {
  }

  /** With a repeated name they need not agree: the page looks at the last entry, the dispatch at any
      enabled one.  The primary key of the table keeps such a list out of the database. */
  lemma RepeatedNameDisagrees()
    ensures var p := Provider("a", true, "", "", "");
            var ps, models := [p, p.(enabled := false)], map["a" := "m"];
            Best(ps, models) == Some(p) && IsShownLeast(ps, models, None)
  {
    var p := Provider("a", true, "", "", "");
    var q := p.(enabled := false);
    assert [p, q][..1] == [p] && [p][..0] == [];
    assert Best([p], map["a" := "m"]) == Some(p);
  }

  // ----- the page's list and the dispatch's

  /** What MergeProviders returns. */
  ghost predicate Merged(db: seq<Provider>, yaml: seq<Provider>, r: seq<Provider>) {
    Strict(r) && forall name :: Find(r, name) == Wins(Rows(db), yaml, name)
  }

  lemma MergedMembers(db: seq<Provider>, yaml: seq<Provider>, r: seq<Provider>, p: Provider)
    requires Merged(db, yaml, r)
    ensures p in r <==> Wins(Rows(db), yaml, p.name) == Some(p)
  {
    hide Wins;
    FindFacts(r, p.name);
    if p in r {
      var i :| 0 <= i < |r| && r[i] == p;
      StrictFind(r, i);
    }
  }

  lemma DistinctFind(ps: seq<Provider>, name: string)
    requires Distinct(ps)
    ensures LastNamed(ps, name) == Find(ps, name)
  {
    hide Find, LastNamed;
    LastFacts(ps, name);
    FindFacts(ps, name);
    if Find(ps, name).Some? {
      var p, q := Find(ps, name).value, LastNamed(ps, name).value;
      var i :| 0 <= i < |ps| && ps[i] == p;
      var j :| 0 <= j < |ps| && ps[j] == q;
    }
  }

  /** An entry shown for the database's list is the one the merged list has for the name. */
  lemma ShownIsMerged(db: seq<Provider>, yaml: seq<Provider>, r: seq<Provider>, models: TierRow, name: string)
    requires Distinct(db) && Merged(db, yaml, r) && Find(db, name).Some? && name in models
    ensures Shown(db, name) <==> exists p :: p in r && p.name == name && Candidate(p, models)
  {
    hide Find, LastNamed, Merged;
    DistinctFind(db, name);
    FindFacts(db, name);
    var q := Find(db, name).value;
    forall p
      ensures p in r && p.name == name <==> p == q
    {
      MergedMembers(db, yaml, r, p);
    }
  }

  /** The page reads the database, a dispatch the merge of the database and a file: they agree on a tier
      exactly when the dispatch has no choice, or its choice is an entry of the database. */
  lemma MergeAgreesExactlyWhen(db: seq<Provider>, yaml: seq<Provider>, r: seq<Provider>, models: TierRow, shown: Option<string>)
    requires Distinct(db) && Merged(db, yaml, r) && IsShownLeast(db, models, shown)
    ensures var b := Best(r, models);
            && (shown == NameOf(b) <==> b.None? || b.value in db)
            && (b.Some? ==> (b.value in db <==> Find(db, b.value.name).Some?))
  {
    hide Best, Find, Less, Upto, Shown, Candidate, Distinct, Merged;
    var b := Best(r, models);
    BestIsLeast(r, models);
    CandidatesAreNamed(r, models);
    if b.Some? {
      BestInDatabase(db, yaml, r, b.value);
      if b.value in db {
        ShownIsMerged(db, yaml, r, models, b.value.name);
        assert Candidate(b.value, models);
      }
    }
    if shown.Some? {
      ShownIsCandidate(db, models, shown.value);
      InDatabase(db, shown.value);
      ShownIsMerged(db, yaml, r, models, shown.value);
      var p :| p in r && p.name == shown.value && Candidate(p, models);
      UptoMeans(b.value.name, p.name);
      if b.value in db {
        UptoMeans(shown.value, b.value.name);
        LessIsTotal(b.value.name, shown.value);
      } else {
        InDatabase(db, shown.value);
      }
    }
  }

  lemma InDatabase(db: seq<Provider>, name: string)
    requires Shown(db, name)
    ensures Find(db, name).Some?
  {
    hide Find;
    LastFacts(db, name);
    FindFacts(db, name);
  }

  lemma BestInDatabase(db: seq<Provider>, yaml: seq<Provider>, r: seq<Provider>, p: Provider)
    requires Distinct(db) && Merged(db, yaml, r) && p in r
    ensures p in db <==> Find(db, p.name).Some?
  {
    hide Find;
    MergedMembers(db, yaml, r, p);
    FindFacts(db, p.name);
  }

  /** So they always agree: the keys of a tier's row are names of the database, and the program merges
      no file. */
  lemma PageShowsMergedDispatch(db: seq<Provider>, yaml: seq<Provider>, r: seq<Provider>, models: TierRow, shown: Option<string>)
    requires Distinct(db) && Merged(db, yaml, r) && IsShownLeast(db, models, shown)
    requires yaml == [] || forall n :: n in models ==> Find(db, n).Some?
    ensures shown == NameOf(Best(r, models)) && Best(r, models) == Best(db, models)
  {
    hide Best, Find, Less, Upto, Shown, Distinct, Merged;
    var b := Best(r, models);
    MergeAgreesExactlyWhen(db, yaml, r, models, shown);
    BestIsLeast(r, models);
    if b.Some? && yaml == [] {
      MergedMembers(db, yaml, r, b.value);
      NothingFound();
    }
    PageShowsDispatch(db, models, shown);
    BestIsLeast(db, models);
    if b.Some? {
      SameEntry(db, b.value, Best(db, models).value);
    }
  }

  lemma SameEntry(ps: seq<Provider>, p: Provider, q: Provider)
    requires Distinct(ps) && p in ps && q in ps && p.name == q.name
    ensures p == q
  {
    var i :| 0 <= i < |ps| && ps[i] == p;
    var j :| 0 <= j < |ps| && ps[j] == q;
  }

  // ----- ResolveProvider

  datatype Override = Override(provider: string, model: string)

  /** What the role definition says of its tier. */
  datatype TierRead = NoLoader | LoadFailed | Tier(name: string)

  /** Everything a dispatch depends on but the provider list. An unset variable reads as "". */
  datatype Setting = Setting(
    override: Option<Override>,
    tier: TierRead,
    tiers: Option<map<string, TierRow>>,
    env: string -> string)

  datatype Outcome =
    | Default                               // nothing resolved: the tool's own default
    | UnknownProvider(name: string)
    | TierNotLoaded
    | KeyNotSet(provider: string, variable: string)
    | Resolved(baseUrl: string, model: string, keyEnv: string, key: string)

  function OrDefault(model: string, p: Provider): string {
    if model == "" then p.defaultModel else model
  }

  /** Reading the key: a provider whose variable is empty fails, there is no second choice. */
  function WithKey(c: Choice, env: string -> string): Outcome {
    var p := c.provider;
    if p.apiKeyEnv == "" then Resolved(p.baseUrl, c.model, "", "")
    else
      var variable := TrimPrefix(p.apiKeyEnv, "$");
      if env(variable) == "" then KeyNotSet(p.name, variable) else Resolved(p.baseUrl, c.model, p.apiKeyEnv, env(variable))
  }

  /** The only enabled provider. */
  function Single(ps: seq<Provider>): Option<Choice> {
    var enabled := EnabledOf(ps);
    if |enabled| == 1 then Some(Choice(enabled[0], enabled[0].defaultModel)) else None
  }

  function ByTier(ps: seq<Provider>, w: Setting): Option<Choice> {
    if w.tier.Tier? then
      match TierChoice(w.tier.name, ps, w.tiers)
      case None => None
      case Some(c) => Some(Choice(c.provider, OrDefault(c.model, c.provider)))
    else None
  }

  /** The override decides alone; without one the tier, and without a choice there the single enabled provider. */
  function Resolution(ps: seq<Provider>, w: Setting): Outcome {
    if ps == [] then Default
    else if w.override.Some? && w.override.value.provider != "" then
      match Find(ps, w.override.value.provider)
      case None => UnknownProvider(w.override.value.provider)
      case Some(p) => WithKey(Choice(p, OrDefault(w.override.value.model, p)), w.env)
    else if w.tier.LoadFailed? then TierNotLoaded
    else
      match ByTier(ps, w)
      case Some(c) => WithKey(c, w.env)
      case None => match Single(ps) case Some(c) => WithKey(c, w.env) case None => Default
  }

  method FindProvider(ps: seq<Provider>, name: string) returns (r: Option<Provider>)
    ensures r == Find(ps, name)
  {
    for i := 0 to |ps|
      invariant Find(ps[..i], name) == None
    {
      assert ps[..i + 1] == ps[..i] + [ps[i]];
      FindSnoc(ps[..i], ps[i], name);
      if ps[i].name == name {
        FindStays(ps, i + 1, name);
        return Some(ps[i]);
      }
    }
    assert ps[..|ps|] == ps;
    return None;
  }

  lemma {:induction false} FindStays(ps: seq<Provider>, n: nat, name: string)
    requires n <= |ps| && Find(ps[..n], name).Some?
    ensures Find(ps, name) == Find(ps[..n], name)
  {
    if n == |ps| {
      assert ps[..n] == ps;
    } else {
      assert ps[..|ps| - 1][..n] == ps[..n];
      FindStays(ps[..|ps| - 1], n, name);
    }
  }

  method ResolveProvider(ps: seq<Provider>, w: Setting) returns (r: Outcome)
    ensures r == Resolution(ps, w)
  {
    hide Find, EnabledOf, Best, TrimPrefix;
    if |ps| == 0 {
      return Default;
    }
    var provider: Option<Provider>, model := None, "";
    if w.override.Some? && w.override.value.provider != "" {
      provider := FindProvider(ps, w.override.value.provider);
      if provider.None? {
        return UnknownProvider(w.override.value.provider);
      }
      model := w.override.value.model;
      if model == "" {
        model := provider.value.defaultModel;
      }
    }
    if provider.None? && w.tier != NoLoader {
      if w.tier.LoadFailed? {
        return TierNotLoaded;
      }
      if w.tier.name != "" {
        var c := ResolveTier(w.tier.name, ps, w.tiers);
        if c.Some? {
          provider, model := Some(c.value.provider), c.value.model;
          if model == "" {
            model := provider.value.defaultModel;
          }
        }
      }
    }
    if provider.None? {
      var enabled := CollectEnabled(ps);
      if |enabled| == 1 {
        provider, model := Some(enabled[0]), enabled[0].defaultModel;
      }
    }
    if provider.None? {
      return Default;
    }
    var p := provider.value;
    if p.apiKeyEnv != "" {
      var variable := TrimPrefix(p.apiKeyEnv, "$");
      var key := w.env(variable);
      if key == "" {
        return KeyNotSet(p.name, variable);
      }
      return Resolved(p.baseUrl, model, p.apiKeyEnv, key);
    }
    return Resolved(p.baseUrl, model, "", "");
  }

  // ----- the order of the list does not matter

  lemma SameMembers(ps: seq<Provider>, qs: seq<Provider>)
    requires multiset(ps) == multiset(qs)
    ensures forall p :: p in ps <==> p in qs
    ensures |ps| == |qs|
  {
    assert forall p :: p in ps <==> p in multiset(ps);
    assert forall p :: p in qs <==> p in multiset(qs);
    assert |multiset(ps)| == |ps| && |multiset(qs)| == |qs|;
  }

  lemma OneOfEachName(ps: seq<Provider>, a: Provider, b: Provider)
    requires Distinct(ps) && a in ps && b in ps && a.name == b.name
    ensures a == b
  {
    var i :| 0 <= i < |ps| && ps[i] == a;
    var j :| 0 <= j < |ps| && ps[j] == b;
  }

  lemma FindAgrees(ps: seq<Provider>, qs: seq<Provider>, name: string)
    requires Distinct(ps) && forall p :: p in ps <==> p in qs
    ensures Find(ps, name) == Find(qs, name)
  {
    hide Find, Distinct;
    FindFacts(ps, name);
    FindFacts(qs, name);
    var a, b := Find(ps, name), Find(qs, name);
    if a.Some? {
      var i :| 0 <= i < |qs| && qs[i] == a.value;
    }
    if b.Some? {
      var i :| 0 <= i < |ps| && ps[i] == b.value;
      OneOfEachName(ps, a.value, b.value);
    }
  }

  lemma BestAgrees(ps: seq<Provider>, qs: seq<Provider>, models: TierRow)
    requires Distinct(ps) && forall p :: p in ps <==> p in qs
    ensures Best(ps, models) == Best(qs, models)
  {
    hide Best, Candidate, Upto;
    BestIsLeast(ps, models);
    BestIsLeast(qs, models);
    hide Distinct;
    LeastIsUnique(ps, models, Best(ps, models), Best(qs, models));
  }

  lemma {:induction false} EnabledMembers(ps: seq<Provider>, p: Provider)
    ensures multiset(EnabledOf(ps))[p] == if p.enabled then multiset(ps)[p] else 0
  {
    if ps != [] {
      EnabledMembers(ps[..|ps| - 1], p);
      assert ps == ps[..|ps| - 1] + [ps[|ps| - 1]];
    }
  }

  lemma SingleAgrees(ps: seq<Provider>, qs: seq<Provider>)
    requires multiset(ps) == multiset(qs)
    ensures Single(ps) == Single(qs)
  {
    hide EnabledOf;
    forall p
      ensures multiset(EnabledOf(ps))[p] == multiset(EnabledOf(qs))[p]
    {
      EnabledMembers(ps, p);
      EnabledMembers(qs, p);
    }
    assert multiset(EnabledOf(ps)) == multiset(EnabledOf(qs));
    SameMembers(EnabledOf(ps), EnabledOf(qs));
    if |EnabledOf(ps)| == 1 {
      assert EnabledOf(ps)[0] in EnabledOf(qs);
    }
  }

  /** With distinct names, the order of the provider list never changes what a dispatch gets. */
  lemma OrderDoesNotMatter(ps: seq<Provider>, qs: seq<Provider>, w: Setting)
    requires Distinct(ps) && multiset(ps) == multiset(qs)
    ensures Resolution(ps, w) == Resolution(qs, w)
  {
    hide Find, Best, Single, WithKey, Distinct;
    SameMembers(ps, qs);
    SingleAgrees(ps, qs);
    if w.override.Some? {
      FindAgrees(ps, qs, w.override.value.provider);
    }
    if w.tier.Tier? && w.tiers.Some? && w.tier.name in w.tiers.value {
      BestAgrees(ps, qs, w.tiers.value[w.tier.name]);
    }
  }
}
