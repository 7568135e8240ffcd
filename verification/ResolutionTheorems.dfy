/** What a dispatch gets, in terms of the provider list and the role's settings. */
module ResolutionTheorems {
  import opened Basics
  import opened Text
  import opened Providers
  import opened Resolution

  // ----- the order of names

  /** The names agree up to some place, where the first has ended, or has the lower character. */
  ghost predicate ComesFirst(a: string, b: string) {
    exists n :: 0 <= n <= |a| && n < |b| && a[..n] == b[..n] && (n == |a| || a[n] < b[n])
  }

  lemma {:induction false} LessIsLexicographic(a: string, b: string)
    ensures Less(a, b) <==> ComesFirst(a, b)
  {
    if a != "" && b != "" {
      LessIsLexicographic(a[1..], b[1..]);
      if n :| 0 <= n <= |a[1..]| && n < |b[1..]| && a[1..][..n] == b[1..][..n] && (n == |a[1..]| || a[1..][n] < b[1..][n]) {
        if a[0] == b[0] {
          assert a[..n + 1] == [a[0]] + a[1..][..n] && b[..n + 1] == [b[0]] + b[1..][..n];
        }
      }
      if n :| 0 <= n <= |a| && n < |b| && a[..n] == b[..n] && (n == |a| || a[n] < b[n]) {
        if n > 0 {
          assert a[0] == a[..n][0] && b[0] == b[..n][0];
          assert a[1..][..n - 1] == a[..n][1..] && b[1..][..n - 1] == b[..n][1..];
        }
      }
      if a[0] < b[0] {
        assert a[..0] == b[..0];
      }
    } else if b != "" {
      assert a[..0] == b[..0];
    }
  }

  // ----- who is chosen

  /** Entry i is the first with the name. */
  ghost predicate FirstCalled(ps: seq<Provider>, i: nat, name: string) {
    i < |ps| && ps[i].name == name && forall j :: 0 <= j < i ==> ps[j].name != name
  }

  /** Entry i is enabled and has a model in the row; no such entry's name comes before its name, and it is the
      first of those with the name. */
  ghost predicate FirstLeast(ps: seq<Provider>, row: TierRow, i: nat) {
    && i < |ps| && ps[i].enabled && ps[i].name in row
    && forall j :: 0 <= j < |ps| && ps[j].enabled && ps[j].name in row ==>
         !ComesFirst(ps[j].name, ps[i].name) && (j < i ==> ps[j].name != ps[i].name)
  }

  /** Entry i is the only enabled one. */
  ghost predicate OnlyEnabled(ps: seq<Provider>, i: nat) {
    i < |ps| && forall j :: 0 <= j < |ps| ==> (ps[j].enabled <==> j == i)
  }

  ghost predicate HasOverride(w: Setting) {
    w.override.Some? && w.override.value.provider != ""
  }

  /** The row of the role's tier, if the tier is named and its table has one. */
  ghost predicate HasRow(w: Setting, row: TierRow) {
    w.tier.Tier? && w.tier.name != "" && w.tiers.Some? && w.tier.name in w.tiers.value && w.tiers.value[w.tier.name] == row
  }

  ghost predicate TierChooses(ps: seq<Provider>, w: Setting, i: nat) {
    exists row :: HasRow(w, row) && FirstLeast(ps, row, i)
  }

  /** The entry and the model a dispatch uses: the override's, then the tier's, then the only enabled one's.
      An empty model stands for the provider's default. */
  ghost predicate Chooses(ps: seq<Provider>, w: Setting, i: nat, model: string) {
    if HasOverride(w) then
      FirstCalled(ps, i, w.override.value.provider)
      && model == if w.override.value.model != "" then w.override.value.model else ps[i].defaultModel
    else
      && !w.tier.LoadFailed?
      && ((exists row :: HasRow(w, row) && FirstLeast(ps, row, i)
             && model == if row[ps[i].name] != "" then row[ps[i].name] else ps[i].defaultModel)
          || ((forall j :: !TierChooses(ps, w, j)) && OnlyEnabled(ps, i) && model == ps[i].defaultModel))
  }

  /** The variable that holds the key: a dollar sign in front is not part of its name. */
  function Variable(keyEnv: string): string
    requires keyEnv != ""
  {
    if keyEnv[0] == '$' then keyEnv[1..] else keyEnv
  }

  /** What a dispatch is given for an entry and a model: an error when the key's variable reads empty. */
  ghost predicate Gives(r: Resolution.Outcome, p: Provider, model: string, env: string -> string) {
    if p.apiKeyEnv == "" then r == Resolved(p.baseUrl, model, "", "")
    else if env(Variable(p.apiKeyEnv)) == "" then r == KeyNotSet(p.name, Variable(p.apiKeyEnv))
    else r == Resolved(p.baseUrl, model, p.apiKeyEnv, env(Variable(p.apiKeyEnv)))
  }

  // ----- the pieces

  lemma WithKeyGives(c: Choice, env: string -> string)
    ensures Gives(WithKey(c, env), c.provider, c.model, env)
  {
    var k := c.provider.apiKeyEnv;
    if k != "" {
      assert "$" <= k <==> k[0] == '$';
    }
  }

  lemma {:induction false} FindIsFirst(ps: seq<Provider>, name: string)
    ensures Find(ps, name).None? ==> forall i :: 0 <= i < |ps| ==> ps[i].name != name
    ensures forall i: nat :: FirstCalled(ps, i, name) ==> Find(ps, name) == Some(ps[i])
    ensures Find(ps, name).Some? ==> exists i: nat :: FirstCalled(ps, i, name) && ps[i] == Find(ps, name).value
  {
    if ps != [] {
      var n := |ps| - 1;
      FindIsFirst(ps[..n], name);
      if Find(ps[..n], name).Some? {
        var i: nat :| FirstCalled(ps[..n], i, name) && ps[..n][i] == Find(ps[..n], name).value;
        assert FirstCalled(ps, i, name);
      } else if ps[n].name == name {
        assert forall i :: 0 <= i < n ==> ps[i] == ps[..n][i];
        assert FirstCalled(ps, n, name);
      }
    }
  }

  lemma {:induction false} BestIsFirstLeast(ps: seq<Provider>, row: TierRow)
    ensures Best(ps, row).None? ==> forall i :: 0 <= i < |ps| ==> !(ps[i].enabled && ps[i].name in row)
    ensures Best(ps, row).Some? ==> exists i: nat :: i < |ps| && FirstLeast(ps, row, i) && ps[i] == Best(ps, row).value
  {
    hide ComesFirst, Less;
    if ps != [] {
      var n := |ps| - 1;
      var front, x := ps[..n], ps[n];
      BestIsFirstLeast(front, row);
      var b := Best(front, row);
      assert forall i :: 0 <= i < n ==> ps[i] == front[i];
      if b.None? {
        if Candidate(x, row) {
          Reflexive(x.name);
          LessIsLexicographic(x.name, x.name);
          assert FirstLeast(ps, row, n);
        }
      } else {
        var i: nat :| FirstLeast(front, row, i) && front[i] == b.value;
        if Candidate(x, row) && Less(x.name, b.value.name) {
          LastIsLeast(ps, row, i);
        } else {
          StillLeast(ps, row, i);
        }
      }
    }
  }

  lemma LastIsLeast(ps: seq<Provider>, row: TierRow, i: nat)
    requires ps != [] && FirstLeast(ps[..|ps| - 1], row, i)
    requires Candidate(ps[|ps| - 1], row) && Less(ps[|ps| - 1].name, ps[i].name)
    ensures FirstLeast(ps, row, |ps| - 1)
  {
    hide ComesFirst, Less;
    var n := |ps| - 1;
    var x := ps[n].name;
    forall j | 0 <= j < |ps| && ps[j].enabled && ps[j].name in row
      ensures !ComesFirst(ps[j].name, x) && (j < n ==> ps[j].name != x)
    {
      LessIsLexicographic(ps[j].name, x);
      if j < n {
        assert ps[..n][j] == ps[j] && ps[..n][i] == ps[i];
        LessIsLexicographic(ps[j].name, ps[i].name);
        NotBefore(ps[j].name, x, ps[i].name);
      } else {
        Reflexive(x);
      }
    }
  }

  lemma StillLeast(ps: seq<Provider>, row: TierRow, i: nat)
    requires ps != [] && FirstLeast(ps[..|ps| - 1], row, i)
    requires !(Candidate(ps[|ps| - 1], row) && Less(ps[|ps| - 1].name, ps[i].name))
    ensures FirstLeast(ps, row, i)
  {
    hide ComesFirst, Less;
    var n := |ps| - 1;
    LessIsLexicographic(ps[n].name, ps[i].name);
    forall j | 0 <= j < |ps| && ps[j].enabled && ps[j].name in row
      ensures !ComesFirst(ps[j].name, ps[i].name) && (j < i ==> ps[j].name != ps[i].name)
    {
      if j < n {
        assert ps[..n][j] == ps[j] && ps[..n][i] == ps[i];
      }
    }
  }

  lemma NotBefore(a: string, x: string, b: string)
    requires Less(x, b) && !Less(a, b)
    ensures !Less(a, x) && a != x
  {
    hide Less;
    if Less(a, x) {
      LessIsTransitive(a, x, b);
    }
  }

  lemma LeastIsOne(ps: seq<Provider>, row: TierRow, i: nat, j: nat)
    requires FirstLeast(ps, row, i) && FirstLeast(ps, row, j)
    ensures i == j
  {
    hide ComesFirst, Less;
    LessIsLexicographic(ps[i].name, ps[j].name);
    LessIsLexicographic(ps[j].name, ps[i].name);
    LessIsTotal(ps[i].name, ps[j].name);
  }

  lemma {:induction false} EnabledOfNone(ps: seq<Provider>)
    ensures EnabledOf(ps) == [] <==> forall i :: 0 <= i < |ps| ==> !ps[i].enabled
  {
    if ps != [] {
      EnabledOfNone(ps[..|ps| - 1]);
      assert forall i :: 0 <= i < |ps| - 1 ==> ps[..|ps| - 1][i] == ps[i];
    }
  }

  lemma {:induction false} EnabledOfOne(ps: seq<Provider>, i: nat)
    requires OnlyEnabled(ps, i)
    ensures EnabledOf(ps) == [ps[i]]
  {
    var n := |ps| - 1;
    assert forall j :: 0 <= j < n ==> ps[..n][j] == ps[j];
    if i < n {
      EnabledOfOne(ps[..n], i);
    } else {
      EnabledOfNone(ps[..n]);
    }
  }

  lemma {:induction false} OneIsEnabled(ps: seq<Provider>) returns (i: nat)
    requires |EnabledOf(ps)| == 1
    ensures OnlyEnabled(ps, i)
  {
    var n := |ps| - 1;
    assert forall j :: 0 <= j < n ==> ps[..n][j] == ps[j];
    if ps[n].enabled {
      EnabledOfNone(ps[..n]);
      i := n;
    } else {
      i := OneIsEnabled(ps[..n]);
    }
  }

  // ----- the cases

  /** With an override of a listed provider, the override decides provider and model, whatever the tier, the
      tier table and the other providers are. */
  lemma OverrideDecides(ps: seq<Provider>, w: Setting, i: nat)
    requires HasOverride(w) && FirstCalled(ps, i, w.override.value.provider)
    ensures Gives(Resolution.Resolution(ps, w), ps[i],
                  if w.override.value.model != "" then w.override.value.model else ps[i].defaultModel, w.env)
  {
    hide Find, WithKey, Gives;
    FindIsFirst(ps, w.override.value.provider);
    WithKeyGives(Choice(ps[i], OrDefault(w.override.value.model, ps[i])), w.env);
  }

  /** Without one, a tier with a row decides by the least enabled provider that has a model in it. */
  lemma TierDecides(ps: seq<Provider>, w: Setting, row: TierRow, i: nat)
    requires !HasOverride(w) && HasRow(w, row) && FirstLeast(ps, row, i)
    ensures Gives(Resolution.Resolution(ps, w), ps[i], if row[ps[i].name] != "" then row[ps[i].name] else ps[i].defaultModel, w.env)
  {
    hide Best, WithKey, Gives, FirstLeast, Single;
    BestIsFirstLeast(ps, row);
    LeastIsListed(ps, row, i);
    var j: nat :| j < |ps| && FirstLeast(ps, row, j) && ps[j] == Best(ps, row).value;
    LeastIsOne(ps, row, i, j);
    WithKeyGives(Choice(ps[i], OrDefault(row[ps[i].name], ps[i])), w.env);
  }

  lemma LeastIsListed(ps: seq<Provider>, row: TierRow, i: nat)
    requires FirstLeast(ps, row, i)
    ensures i < |ps| && ps[i].enabled && ps[i].name in row
  {
  }

  lemma NoTierChoice(ps: seq<Provider>, w: Setting)
    ensures (forall i :: !TierChooses(ps, w, i)) <==> ByTier(ps, w).None?
  {
    hide Best, FirstLeast;
    if w.tier.Tier? && w.tier.name != "" && w.tiers.Some? && w.tier.name in w.tiers.value {
      var row := w.tiers.value[w.tier.name];
      assert HasRow(w, row);
      BestIsFirstLeast(ps, row);
      forall i: nat | FirstLeast(ps, row, i)
        ensures Best(ps, row).Some?
      {
        LeastIsListed(ps, row, i);
      }
      if Best(ps, row).Some? {
        var i: nat :| i < |ps| && FirstLeast(ps, row, i) && ps[i] == Best(ps, row).value;
        assert TierChooses(ps, w, i);
      }
    }
  }

  /** Without a choice by tier the only enabled provider decides, with its default model. */
  lemma SingleDecides(ps: seq<Provider>, w: Setting, i: nat)
    requires !HasOverride(w) && !w.tier.LoadFailed? && (forall j :: !TierChooses(ps, w, j)) && OnlyEnabled(ps, i)
    ensures Gives(Resolution.Resolution(ps, w), ps[i], ps[i].defaultModel, w.env)
  {
    hide EnabledOf, WithKey, Gives, ByTier, TierChooses;
    NoTierChoice(ps, w);
    EnabledOfOne(ps, i);
    WithKeyGives(Choice(ps[i], ps[i].defaultModel), w.env);
  }

  /** A dispatch whose settings choose an entry and a model is given just that; there is at most one such
      choice. */
  lemma DispatchGetsChoice(ps: seq<Provider>, w: Setting, i: nat, model: string)
    requires Chooses(ps, w, i, model)
    ensures i < |ps| && Gives(Resolution.Resolution(ps, w), ps[i], model, w.env)
  {
    hide Gives, FirstLeast;
    if HasOverride(w) {
      OverrideDecides(ps, w, i);
    } else if row :| HasRow(w, row) && FirstLeast(ps, row, i) && i < |ps| && ps[i].name in row
                     && model == if row[ps[i].name] != "" then row[ps[i].name] else ps[i].defaultModel {
      TierDecides(ps, w, row, i);
    } else {
      ChoiceIsSingle(ps, w, i, model);
      SingleDecides(ps, w, i);
    }
  }

  lemma ChoiceIsSingle(ps: seq<Provider>, w: Setting, i: nat, model: string)
    requires Chooses(ps, w, i, model) && !HasOverride(w)
    requires !exists row :: HasRow(w, row) && FirstLeast(ps, row, i) && i < |ps| && ps[i].name in row
                     && model == if row[ps[i].name] != "" then row[ps[i].name] else ps[i].defaultModel
    ensures (forall j :: !TierChooses(ps, w, j)) && OnlyEnabled(ps, i) && model == ps[i].defaultModel && !w.tier.LoadFailed?
  {
    hide FirstLeast;
    forall row | HasRow(w, row) && FirstLeast(ps, row, i)
      ensures i < |ps| && ps[i].name in row
    {
      LeastIsListed(ps, row, i);
    }
  }

  ghost predicate HasChoice(ps: seq<Provider>, w: Setting) {
    exists i: nat, model :: Chooses(ps, w, i, model)
  }

  /** Without a choice: an override of a provider that is not listed, a tier that cannot be loaded, or nothing
      to go by, in which case the tool's own default is used. */
  lemma DispatchWithoutChoice(ps: seq<Provider>, w: Setting)
    requires !HasChoice(ps, w)
    ensures Resolution.Resolution(ps, w) ==
            if ps == [] then Default
            else if HasOverride(w) then UnknownProvider(w.override.value.provider)
            else if w.tier.LoadFailed? then TierNotLoaded
            else Default
  {
    hide Find, EnabledOf, WithKey, Best, Chooses, FirstLeast;
    if HasOverride(w) {
      FindIsFirst(ps, w.override.value.provider);
      if i: nat :| FirstCalled(ps, i, w.override.value.provider) {
        OverrideChooses(ps, w, i);
      }
    } else if !w.tier.LoadFailed? {
      NoTierChoice(ps, w);
      if i :| TierChooses(ps, w, i) {
        TierIsChoice(ps, w, i);
      }
      if |EnabledOf(ps)| == 1 {
        var i := OneIsEnabled(ps);
        SingleChooses(ps, w, i);
      }
    }
  }

  lemma OverrideChooses(ps: seq<Provider>, w: Setting, i: nat)
    requires HasOverride(w) && FirstCalled(ps, i, w.override.value.provider)
    ensures HasChoice(ps, w)
  {
    assert Chooses(ps, w, i, if w.override.value.model != "" then w.override.value.model else ps[i].defaultModel);
  }

  lemma TierIsChoice(ps: seq<Provider>, w: Setting, i: nat)
    requires !HasOverride(w) && !w.tier.LoadFailed? && TierChooses(ps, w, i)
    ensures HasChoice(ps, w)
  {
    hide ComesFirst;
    var row :| HasRow(w, row) && FirstLeast(ps, row, i);
    assert Chooses(ps, w, i, if row[ps[i].name] != "" then row[ps[i].name] else ps[i].defaultModel);
  }

  lemma SingleChooses(ps: seq<Provider>, w: Setting, i: nat)
    requires !HasOverride(w) && !w.tier.LoadFailed? && (forall j :: !TierChooses(ps, w, j)) && OnlyEnabled(ps, i)
    ensures HasChoice(ps, w)
  {
    hide TierChooses, FirstLeast;
    assert Chooses(ps, w, i, ps[i].defaultModel);
  }

  /** The tool's own default is used exactly when nothing is chosen and nothing is wrong, and a key is missing
      exactly when the chosen provider names a variable that reads empty. */
  lemma DispatchExactly(ps: seq<Provider>, w: Setting)
    ensures Resolution.Resolution(ps, w) == Default <==>
              !HasChoice(ps, w) && (ps == [] || (!HasOverride(w) && !w.tier.LoadFailed?))
    ensures Resolution.Resolution(ps, w).KeyNotSet? <==>
              exists i: nat, model :: Chooses(ps, w, i, model) && i < |ps| && MissesKey(ps[i], w.env)
  {
    hide Chooses, Resolution.Resolution;
    if i: nat, model :| Chooses(ps, w, i, model) {
      DispatchGetsChoice(ps, w, i, model);
      assert Resolution.Resolution(ps, w).KeyNotSet? <==> MissesKey(ps[i], w.env);
      forall j: nat, other | Chooses(ps, w, j, other)
        ensures j < |ps| && (MissesKey(ps[j], w.env) <==> MissesKey(ps[i], w.env))
      {
        DispatchGetsChoice(ps, w, j, other);
      }
    } else {
      DispatchWithoutChoice(ps, w);
    }
  }

  predicate MissesKey(p: Provider, env: string -> string) {
    p.apiKeyEnv != "" && env(Variable(p.apiKeyEnv)) == ""
  }
}
