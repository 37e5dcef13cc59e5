/** Shared setups: `activeSetups` decides which run and for whom, `withoutTRs` drops a failed one's requirements. */
module Setups {
  import opened Core
  import opened Filtering
  import opened Text
  import S = Sorting
  import opened Grouping

  /** A setup to run, its diagnostic label and the requirements it applies to. */
  datatype Scoped = Scoped(name: string, trs: seq<Requirement>)

  /** Keys of the registered providers, per scope. */
  datatype Providers = Providers(run: set<string>, group: set<string>)

  function SetupGroups(resolve: Resolver, tr: Requirement): seq<string>
  {
    match resolve(tr.automationTool, tr.id)
    case Some(integration) => integration.setupGroups
    case None => []
  }

  /** The requirements in a group's scope, once per mention of the group by their tool. */
  function InGroup(resolve: Resolver, key: string, trs: seq<Requirement>): seq<Requirement>
  {
    if trs == [] then []
    else
      var last := trs[|trs| - 1];
      InGroup(resolve, key, trs[..|trs| - 1]) + Copies(SetupGroups(resolve, last), key, last)
  }

  function Copies(groups: seq<string>, key: string, tr: Requirement): seq<Requirement>
  {
    if groups == [] then []
    else Copies(groups[..|groups| - 1], key, tr) + if groups[|groups| - 1] == key then [tr] else []
  }

  lemma CopiesSnoc(groups: seq<string>, last: string, key: string, tr: Requirement)
    ensures Copies(groups + [last], key, tr) == Copies(groups, key, tr) + if last == key then [tr] else []
  {
    assert (groups + [last])[..|groups|] == groups;
  }

  lemma {:induction false} CopiesMembers(groups: seq<string>, key: string, tr: Requirement, x: Requirement)
    ensures x in Copies(groups, key, tr) <==> x == tr && key in groups
  {
    if groups != [] {
      CopiesMembers(groups[..|groups| - 1], key, tr, x);
      assert groups == groups[..|groups| - 1] + [groups[|groups| - 1]];
    }
  }

  /** A group's scope holds exactly the requirements whose tool names the group. */
  lemma {:induction false} InGroupMembers(resolve: Resolver, key: string, trs: seq<Requirement>, tr: Requirement)
    ensures tr in InGroup(resolve, key, trs) <==> tr in trs && key in SetupGroups(resolve, tr)
  {
    if trs != [] {
      var init, last := trs[..|trs| - 1], trs[|trs| - 1];
      assert trs == init + [last];
      InGroupMembers(resolve, key, init, tr);
      CopiesMembers(SetupGroups(resolve, last), key, last, tr);
    }
  }

  function Wanted(resolve: Resolver, trs: seq<Requirement>): set<string>
  {
    set tr, key | tr in trs && key in SetupGroups(resolve, tr) :: key
  }

  ghost function RunScopes(keys: seq<string>, trs: seq<Requirement>): seq<Scoped>
  {
    seq(|keys|, n requires 0 <= n < |keys| => Scoped("run/" + keys[n], trs))
  }

  ghost function GroupScopes(resolve: Resolver, keys: seq<string>, trs: seq<Requirement>): seq<Scoped>
  {
    seq(|keys|, n requires 0 <= n < |keys| => Scoped("group/" + keys[n], InGroup(resolve, keys[n], trs)))
  }

  /** Run scope first, then the wanted groups that have a provider; both sorted by key. */
  ghost predicate Arrangement(resolve: Resolver, providers: Providers, trs: seq<Requirement>, out: seq<Scoped>)
  {
    exists run: seq<string>, groups: seq<string> :: Arranged(resolve, providers, trs, run, groups, out)
  }

  ghost predicate Arranged(resolve: Resolver, providers: Providers, trs: seq<Requirement>,
                           run: seq<string>, groups: seq<string>, out: seq<Scoped>)
  {
    && S.Ascending(Less, if trs == [] then {} else providers.run, run)
    && S.Ascending(Less, Wanted(resolve, trs) * providers.group, groups)
    && out == RunScopes(run, trs) + GroupScopes(resolve, groups, trs)
  }

  method ActiveSetups(resolve: Resolver, providers: Providers, scorable: seq<Requirement>) returns (out: seq<Scoped>)
    ensures Arrangement(resolve, providers, scorable, out)
  {
    if scorable == [] {
      assert Arranged(resolve, providers, scorable, [], [], []);
      return [];
    }
    var run, groups, keys;
    out, run := RunSetups(providers, scorable);
    groups, keys := GroupSetups(resolve, providers, scorable);
    out := out + groups;
    assert Arranged(resolve, providers, scorable, run, keys, out);
  }

  method RunSetups(providers: Providers, scorable: seq<Requirement>) returns (out: seq<Scoped>, keys: seq<string>)
    ensures S.Ascending(Less, providers.run, keys) && out == RunScopes(keys, scorable)
  {
    var run := SortedNames(providers.run);
    out := [];
    for n := 0 to |run|
      invariant out == RunScopes(run[..n], scorable)
    {
      out := out + [Scoped("run/" + run[n], scorable)];
    }
    assert run[..|run|] == run;
    keys := run;
  }

  method GroupSetups(resolve: Resolver, providers: Providers, scorable: seq<Requirement>)
    returns (out: seq<Scoped>, kept: seq<string>)
    ensures S.Ascending(Less, Wanted(resolve, scorable) * providers.group, kept)
    ensures out == GroupScopes(resolve, kept, scorable)
  {
    var groupTRs, keys := CollectGroups(resolve, scorable);
    var order := SortedNames(keys);
    out, kept := [], [];
    for n := 0 to |order|
      invariant out == GroupScopes(resolve, kept, scorable)
      invariant Kept(order[..n], providers.group, kept)
    {
      var key := order[n];
      assert key in order;
      KeepNext(order, n, providers.group, kept);
      if key in providers.group {
        out := AppendGroup(resolve, groupTRs, key, scorable, out, kept);
        kept := kept + [key];
      }
    }
    assert order[..|order|] == order;
  }

  method AppendGroup(resolve: Resolver, groupTRs: map<string, seq<Requirement>>, key: string,
                     scorable: seq<Requirement>, before: seq<Scoped>, ghost kept: seq<string>)
    returns (out: seq<Scoped>)
    requires key in groupTRs && At(groupTRs, key) == InGroup(resolve, key, scorable)
    requires before == GroupScopes(resolve, kept, scorable)
    ensures out == GroupScopes(resolve, kept + [key], scorable)
  {
    out := before + [Scoped("group/" + key, groupTRs[key])];
  }

  /** `kept` is the part of `order` that `allowed` admits, still ascending. */
  ghost predicate Kept(order: seq<string>, allowed: set<string>, kept: seq<string>)
  {
    && (forall i, j :: 0 <= i < j < |kept| ==> Less(kept[i], kept[j]))
    && (forall key :: key in kept <==> key in order && key in allowed)
  }

  lemma KeepNext(order: seq<string>, n: nat, allowed: set<string>, kept: seq<string>)
    requires n < |order| && Kept(order[..n], allowed, kept)
    requires forall i, j :: 0 <= i < j < |order| ==> Less(order[i], order[j])
    ensures Kept(order[..n + 1], allowed, if order[n] in allowed then kept + [order[n]] else kept)
  {
    assert order[..n + 1] == order[..n] + [order[n]];
    forall i | 0 <= i < |kept| ensures Less(kept[i], order[n]) {
      assert kept[i] in kept;
    }
  }

  function At(groupTRs: map<string, seq<Requirement>>, key: string): seq<Requirement>
  {
    if key in groupTRs then groupTRs[key] else []
  }

  method CollectGroups(resolve: Resolver, scorable: seq<Requirement>)
    returns (groupTRs: map<string, seq<Requirement>>, keys: set<string>)
    ensures keys == groupTRs.Keys == Wanted(resolve, scorable)
    ensures forall key :: At(groupTRs, key) == InGroup(resolve, key, scorable)
  {
    groupTRs := map[];
    for n := 0 to |scorable|
      invariant groupTRs.Keys == Wanted(resolve, scorable[..n])
      invariant forall key :: At(groupTRs, key) == InGroup(resolve, key, scorable[..n])
    {
      var tr := scorable[n];
      assert scorable[..n + 1] == scorable[..n] + [tr] && scorable[..n + 1][..n] == scorable[..n];
      groupTRs := JoinGroups(groupTRs, SetupGroups(resolve, tr), tr);
      assert Wanted(resolve, scorable[..n + 1])
          == Wanted(resolve, scorable[..n]) + set key | key in SetupGroups(resolve, tr);
    }
    assert scorable[..|scorable|] == scorable;
    keys := groupTRs.Keys;
  }

  lemma JoinOne(before: seq<Requirement>, joined: map<string, seq<Requirement>>,
                groups: seq<string>, g: string, tr: Requirement, key: string)
    requires At(joined, key) == before + Copies(groups, key, tr)
    ensures At(joined[g := At(joined, g) + [tr]], key) == before + Copies(groups + [g], key, tr)
  {
    CopiesSnoc(groups, g, key, tr);
    if g == key {
      assert before + Copies(groups, key, tr) + [tr] == before + (Copies(groups, key, tr) + [tr]);
    }
  }

  method JoinGroups(before: map<string, seq<Requirement>>, groups: seq<string>, tr: Requirement)
    returns (groupTRs: map<string, seq<Requirement>>)
    ensures groupTRs.Keys == before.Keys + set key | key in groups
    ensures forall key :: At(groupTRs, key) == At(before, key) + Copies(groups, key, tr)
  {
    groupTRs := before;
    for m := 0 to |groups|
      invariant groupTRs.Keys == before.Keys + set key | key in groups[..m]
      invariant forall key :: At(groupTRs, key) == At(before, key) + Copies(groups[..m], key, tr)
    {
      assert groups[..m + 1] == groups[..m] + [groups[m]];
      forall key
        ensures At(groupTRs[groups[m] := At(groupTRs, groups[m]) + [tr]], key)
             == At(before, key) + Copies(groups[..m] + [groups[m]], key, tr)
      {
        JoinOne(At(before, key), groupTRs, groups[..m], groups[m], tr, key);
      }
      groupTRs := groupTRs[groups[m] := At(groupTRs, groups[m]) + [tr]];
    }
    assert groups[..|groups|] == groups;
  }

  function Ids(trs: seq<Requirement>): set<string>
  {
    set tr | tr in trs :: tr.id
  }

  function OtherIds(drop: set<string>): Requirement -> bool
  {
    (tr: Requirement) => tr.id !in drop
  }

  method WithoutTRs(trs: seq<Requirement>, remove: seq<Requirement>) returns (out: seq<Requirement>)
    ensures out == Filter(OtherIds(Ids(remove)), trs)
  {
    var drop: set<string> := {};
    for n := 0 to |remove|
      invariant drop == Ids(remove[..n])
    {
      assert remove[..n + 1] == remove[..n] + [remove[n]];
      drop := drop + {remove[n].id};
    }
    assert remove[..|remove|] == remove;
    out := [];
    for n := 0 to |trs|
      invariant out == Filter(OtherIds(drop), trs[..n])
    {
      assert trs[..n + 1] == trs[..n] + [trs[n]];
      FilterSnoc(OtherIds(drop), trs[..n], trs[n]);
      if trs[n].id !in drop {
        out := out + [trs[n]];
      }
    }
    assert trs[..|trs|] == trs;
  }

  lemma ScopesLieBehind(resolve: Resolver, trs: seq<Requirement>, run: seq<string>, groups: seq<string>, n: nat)
    requires n < |run| + |groups|
    ensures (RunScopes(run, trs) + GroupScopes(resolve, groups, trs))[n]
         == if n < |run| then Scoped("run/" + run[n], trs)
            else Scoped("group/" + groups[n - |run|], InGroup(resolve, groups[n - |run|], trs))
  {
  }

  /** Every setup's scope is the whole list or one group's. */
  lemma ScopeOf(resolve: Resolver, providers: Providers, trs: seq<Requirement>, out: seq<Scoped>, n: nat)
    returns (key: Option<string>)
    requires Arrangement(resolve, providers, trs, out) && n < |out|
    ensures key.None? ==> out[n].trs == trs
    ensures key.Some? ==> key.value in providers.group &&
                          out[n] == Scoped("group/" + key.value, InGroup(resolve, key.value, trs))
  {
    var run: seq<string>, groups: seq<string> :| Arranged(resolve, providers, trs, run, groups, out);
    ScopesLieBehind(resolve, trs, run, groups, n);
    if n < |run| {
      key := None;
    } else {
      key := Some(groups[n - |run|]);
      ListedKey(Wanted(resolve, trs) * providers.group, groups, n - |run|);
    }
  }

  lemma ListedKey(keys: set<string>, listing: seq<string>, n: nat)
    requires S.Ascending(Less, keys, listing) && n < |listing|
    ensures listing[n] in keys
  {
    assert listing[n] in listing;
  }

  /** A scope holds only given requirements, and misses one only if its tool does not name the setup's group. */
  lemma ScopeMembers(resolve: Resolver, providers: Providers, trs: seq<Requirement>, out: seq<Scoped>,
                     n: nat, tr: Requirement)
    requires Arrangement(resolve, providers, trs, out) && n < |out|
    ensures tr in out[n].trs ==> tr in trs
    ensures tr in trs && !(tr in out[n].trs) ==>
              exists key :: key in providers.group && out[n].name == "group/" + key && key !in SetupGroups(resolve, tr)
  {
    var key := ScopeOf(resolve, providers, trs, out, n);
    if key.Some? {
      InGroupMembers(resolve, key.value, trs, tr);
    }
  }

  /** The setups in the order they are tried: every run-scope provider by key with the whole list, then by key every
      group that has a provider and is named by the tool of a given requirement, with the requirements it is named for. */
  lemma SetupsExactly(resolve: Resolver, providers: Providers, trs: seq<Requirement>, out: seq<Scoped>)
    returns (run: seq<string>, groups: seq<string>)
    requires Arrangement(resolve, providers, trs, out)
    ensures |out| == |run| + |groups| && (trs == [] ==> out == [])
    ensures forall key :: key in run <==> trs != [] && key in providers.run
    ensures forall key :: key in groups <==>
              key in providers.group && exists tr :: tr in trs && key in SetupGroups(resolve, tr)
    ensures forall i, j :: 0 <= i < j < |run| ==> Less(run[i], run[j])
    ensures forall i, j :: 0 <= i < j < |groups| ==> Less(groups[i], groups[j])
    ensures forall n: nat :: n < |run| ==> out[n] == Scoped("run/" + run[n], trs)
    ensures forall n: nat :: |run| <= n < |out| ==>
              && out[n].name == "group/" + groups[n - |run|]
              && forall tr :: tr in out[n].trs <==> tr in trs && groups[n - |run|] in SetupGroups(resolve, tr)
  {
    run, groups :| Arranged(resolve, providers, trs, run, groups, out);
    ScopesExactly(resolve, trs, run, groups, out);
    KeysListed(if trs == [] then {} else providers.run, run);
    KeysListed(Wanted(resolve, trs) * providers.group, groups);
    WantedExactly(resolve, trs);
  }

  lemma ScopesExactly(resolve: Resolver, trs: seq<Requirement>, run: seq<string>, groups: seq<string>, out: seq<Scoped>)
    requires out == RunScopes(run, trs) + GroupScopes(resolve, groups, trs)
    ensures |out| == |run| + |groups|
    ensures forall n: nat :: n < |run| ==> out[n] == Scoped("run/" + run[n], trs)
    ensures forall n: nat :: |run| <= n < |out| ==>
              && out[n].name == "group/" + groups[n - |run|]
              && forall tr :: tr in out[n].trs <==> tr in trs && groups[n - |run|] in SetupGroups(resolve, tr)
  {
    forall n: nat, tr | |run| <= n < |out|
      ensures tr in out[n].trs <==> tr in trs && groups[n - |run|] in SetupGroups(resolve, tr)
    {
      InGroupMembers(resolve, groups[n - |run|], trs, tr);
    }
  }

  lemma KeysListed(keys: set<string>, listing: seq<string>)
    requires S.Ascending(Less, keys, listing)
    ensures forall key :: key in listing <==> key in keys
    ensures forall i, j :: 0 <= i < j < |listing| ==> Less(listing[i], listing[j])
    ensures keys == {} ==> listing == []
  {
    assert |listing| > 0 ==> listing[0] in listing;
  }

  lemma WantedExactly(resolve: Resolver, trs: seq<Requirement>)
    ensures forall key :: key in Wanted(resolve, trs) <==> exists tr :: tr in trs && key in SetupGroups(resolve, tr)
    ensures trs == [] ==> Wanted(resolve, trs) == {}
  {
  }

  /** The same provided groups are named for both. */
  ghost predicate Alike(resolve: Resolver, providers: Providers, a: Requirement, b: Requirement)
  {
    forall key :: key in providers.group ==> (key in SetupGroups(resolve, a) <==> key in SetupGroups(resolve, b))
  }

  /** Requirements whose tools name the same provided groups share every scope. */
  lemma AlikeShareScopes(resolve: Resolver, providers: Providers, trs: seq<Requirement>, out: seq<Scoped>,
                         n: nat, a: Requirement, b: Requirement)
    requires Arrangement(resolve, providers, trs, out) && n < |out|
    requires a in trs && b in trs && Alike(resolve, providers, a, b)
    ensures a in out[n].trs <==> b in out[n].trs
  {
    var key := ScopeOf(resolve, providers, trs, out, n);
    if key.Some? {
      InGroupMembers(resolve, key.value, trs, a);
      InGroupMembers(resolve, key.value, trs, b);
    }
  }
}
