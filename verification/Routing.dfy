/** The routing table: which listener gets a message, and whom an agent may message. */
module Routing {
  import opened Results
  import opened Chains

  datatype Listener = Listener(name: string, isAgent: bool, peers: set<string>, routeKey: string)

  datatype RouteError = NoRoute(key: string)

  /** Lower-casing of the string library. */
  type Lowering = string -> string

  /** Lower-casing puts no dot where there was none. */
  ghost predicate LowerLaw(lower: Lowering) {
    forall s :: DotFree(s) ==> DotFree(lower(s))
  }

  /** The table as a value: listeners by route key, and by name. */
  datatype Table = Table(routes: map<string, seq<Listener>>, byName: map<string, Listener>)

  const NO_ROUTES := Table(map[], map[])

  datatype Registration = Registration(name: string, tag: string, isAgent: bool, peers: set<string>)

  function Key(lower: Lowering, name: string, tag: string): string {
    lower(name) + [DOT] + lower(tag)
  }

  function ListenerOf(lower: Lowering, g: Registration): Listener {
    Listener(g.name, g.isAgent, g.peers, Key(lower, g.name, g.tag))
  }

  function Entries(t: Table, key: string): seq<Listener> {
    if key in t.routes then t.routes[key] else []
  }

  function Registered(t: Table, lower: Lowering, g: Registration): Table {
    var entry := ListenerOf(lower, g);
    Table(t.routes[entry.routeKey := Entries(t, entry.routeKey) + [entry]], t.byName[g.name := entry])
  }

  function Resolve(t: Table, lower: Lowering, to: Option<string>, tag: string): (r: Result<seq<Listener>, RouteError>)
    ensures r.Ok? ==> r.value != []
  {
    var key := if to.Some? then Key(lower, to.value, tag) else lower(tag);
    if Entries(t, key) != [] then Ok(Entries(t, key)) else Err(NoRoute(key))
  }

  /** Unknown senders and listeners that are no agents may message anyone. */
  predicate MayMessage(t: Table, from: string, to: string) {
    from !in t.byName || !t.byName[from].isAgent || to in t.byName[from].peers
  }

  class RoutingTable {
    var routes: map<string, seq<Listener>>
    var byName: map<string, Listener>

    ghost function View(): Table
      reads this
    {
      Table(routes, byName)
    }

    constructor ()
      ensures View() == NO_ROUTES
    {
      routes := map[];
      byName := map[];
    }

    method Register(lower: Lowering, name: string, tag: string, isAgent: bool, peers: seq<string>)
      modifies this
      ensures View() == Registered(old(View()), lower, Registration(name, tag, isAgent, (set p | p in peers)))
    {
      var routeKey := lower(name) + [DOT] + lower(tag);
      var entry := Listener(name, isAgent, (set p | p in peers), routeKey);
      if routeKey !in routes {
        routes := routes[routeKey := []];
      }
      routes := routes[routeKey := routes[routeKey] + [entry]];
      byName := byName[name := entry];
    }
  }

  // ---- What a table built at configuration time answers ----

  /** The table after all registrations, in order. */
  function Built(lower: Lowering, regs: seq<Registration>): Table {
    if regs == [] then NO_ROUTES
    else Registered(Built(lower, regs[..|regs| - 1]), lower, regs[|regs| - 1])
  }

  /** Same name and tag up to case. */
  predicate Matches(lower: Lowering, g: Registration, name: string, tag: string) {
    lower(g.name) == lower(name) && lower(g.tag) == lower(tag)
  }

  function Matching(lower: Lowering, regs: seq<Registration>, name: string, tag: string): seq<Listener> {
    if regs == [] then []
    else
      var g := regs[|regs| - 1];
      Matching(lower, regs[..|regs| - 1], name, tag)
      + (if Matches(lower, g, name, tag) then [ListenerOf(lower, g)] else [])
  }

  ghost predicate NamesDotFree(regs: seq<Registration>) {
    forall i :: 0 <= i < |regs| ==> DotFree(regs[i].name)
  }

  lemma FirstDot(a: string, b: string, c: string, d: string)
    requires DotFree(a) && DotFree(c) && a + [DOT] + b == c + [DOT] + d
    ensures a == c && b == d
  {
    var s := a + [DOT] + b;
    assert s[|a|] == DOT && s[|c|] == DOT;
    assert forall i :: 0 <= i < |a| ==> s[i] == a[i];
    assert forall i :: 0 <= i < |c| ==> s[i] == c[i];
    assert |a| == |c|;
    assert a == s[..|a|] && c == s[..|c|];
    assert b == s[|a| + 1..] && d == s[|c| + 1..];
  }

  lemma KeyTellsApart(lower: Lowering, g: Registration, name: string, tag: string)
    requires LowerLaw(lower) && DotFree(g.name) && DotFree(name)
    ensures Key(lower, g.name, g.tag) == Key(lower, name, tag) <==> Matches(lower, g, name, tag)
  {
    if Key(lower, g.name, g.tag) == Key(lower, name, tag) {
      FirstDot(lower(g.name), lower(g.tag), lower(name), lower(tag));
    }
  }

  lemma {:induction false} BuiltAt(lower: Lowering, regs: seq<Registration>, name: string, tag: string)
    requires LowerLaw(lower) && NamesDotFree(regs) && DotFree(name)
    ensures Entries(Built(lower, regs), Key(lower, name, tag)) == Matching(lower, regs, name, tag)
    decreases |regs|
  {
    hide LowerLaw, Key;
    if regs != [] {
      var n := |regs| - 1;
      assert NamesDotFree(regs[..n]);
      BuiltAt(lower, regs[..n], name, tag);
      KeyTellsApart(lower, regs[n], name, tag);
    }
  }

  /**
   With dot-free names, a message for a name resolves to exactly the listeners registered under
   this name and tag up to case, in order of registration; if there are none, to nothing.
   */
  lemma ResolvesByNameAndTag(lower: Lowering, regs: seq<Registration>, name: string, tag: string)
    requires LowerLaw(lower) && NamesDotFree(regs) && DotFree(name)
    ensures var found := Matching(lower, regs, name, tag);
      Resolve(Built(lower, regs), lower, Some(name), tag)
        == if found == [] then Err(NoRoute(Key(lower, name, tag))) else Ok(found)
  {
    BuiltAt(lower, regs, name, tag);
  }

  lemma {:induction false} EveryKeyHasADot(lower: Lowering, regs: seq<Registration>, key: string)
    requires DotFree(key)
    ensures Entries(Built(lower, regs), key) == []
    decreases |regs|
  {
    if regs != [] {
      EveryKeyHasADot(lower, regs[..|regs| - 1], key);
      var g := regs[|regs| - 1];
      assert Key(lower, g.name, g.tag)[|lower(g.name)|] == DOT;
    }
  }

  /** A message for nobody, with a dot-free tag, has no route. */
  lemma NobodyHasNoRoute(lower: Lowering, regs: seq<Registration>, tag: string)
    requires LowerLaw(lower) && DotFree(tag)
    ensures Resolve(Built(lower, regs), lower, None, tag) == Err(NoRoute(lower(tag)))
  {
    EveryKeyHasADot(lower, regs, lower(tag));
  }

  /** But a tag with a listener's name and a dot in front is read as a message for this listener. */
  lemma DottedTagNamesListener(t: Table, lower: Lowering, name: string, tag: string)
    requires lower(name + [DOT] + tag) == lower(name) + [DOT] + lower(tag)
    ensures Resolve(t, lower, None, name + [DOT] + tag) == Resolve(t, lower, Some(name), tag)
  {
  }

  /** `i` is the last registration of `name`. */
  ghost predicate LastOf(regs: seq<Registration>, name: string, i: nat) {
    i < |regs| && regs[i].name == name && forall j :: i < j < |regs| ==> regs[j].name != name
  }

  /** After several registrations of a name the last one counts: whose peers, and whether it is an agent. */
  lemma {:induction false} LastRegistrationCounts(lower: Lowering, regs: seq<Registration>,
                                                  name: string, i: nat, to: string)
    requires LastOf(regs, name, i)
    ensures MayMessage(Built(lower, regs), name, to) <==> !regs[i].isAgent || to in regs[i].peers
    decreases |regs|
  {
    hide Entries, Key;
    var n := |regs| - 1;
    if i < n {
      assert forall j :: 0 <= j < n ==> regs[..n][j] == regs[j];
      LastRegistrationCounts(lower, regs[..n], name, i, to);
    }
  }

  /** Nobody restricts a name that was never registered. */
  lemma {:induction false} UnregisteredMayMessage(lower: Lowering, regs: seq<Registration>, name: string, to: string)
    requires forall i :: 0 <= i < |regs| ==> regs[i].name != name
    ensures MayMessage(Built(lower, regs), name, to)
    decreases |regs|
  {
    if regs != [] {
      UnregisteredMayMessage(lower, regs[..|regs| - 1], name, to);
    }
  }

  // ---- What routing and peer checks need of a table ----

  /** Route keys start with their listeners' names, and these are registered by name. */
  ghost predicate Consistent(t: Table, lower: Lowering) {
    forall key, i :: key in t.routes && 0 <= i < |t.routes[key]| ==>
      t.routes[key][i].name in t.byName && lower(t.routes[key][i].name) + [DOT] <= key
  }

  /** No two names are the same up to case. */
  ghost predicate DistinctNames(t: Table, lower: Lowering) {
    forall a, b :: a in t.byName && b in t.byName && lower(a) == lower(b) ==> a == b
  }

  ghost predicate DotFreeNames(t: Table) {
    forall name :: name in t.byName ==> DotFree(name)
  }

  lemma {:induction false} BuiltConsistent(lower: Lowering, regs: seq<Registration>)
    ensures Consistent(Built(lower, regs), lower)
    decreases |regs|
  {
    if regs != [] {
      var n := |regs| - 1;
      BuiltConsistent(lower, regs[..n]);
      var t := Built(lower, regs[..n]);
      var entry := ListenerOf(lower, regs[n]);
      var t' := Built(lower, regs);
      forall key, i | key in t'.routes && 0 <= i < |t'.routes[key]|
        ensures t'.routes[key][i].name in t'.byName && lower(t'.routes[key][i].name) + [DOT] <= key
      {
        if key == entry.routeKey && i == |Entries(t, key)| {
          assert t'.routes[key][i] == entry;
        } else {
          assert key in t.routes && t'.routes[key][i] == t.routes[key][i];
        }
      }
    }
  }

  /** A message for a registered name can only be resolved to the listener of this name. */
  lemma ResolvesToItself(t: Table, lower: Lowering, name: string, tag: string)
    requires LowerLaw(lower) && Consistent(t, lower) && DistinctNames(t, lower) && DotFreeNames(t)
    requires name in t.byName
    ensures var r := Resolve(t, lower, Some(name), tag);
      r.Ok? ==> forall i :: 0 <= i < |r.value| ==> r.value[i].name == name
  {
    var key := Key(lower, name, tag);
    if key in t.routes {
      forall i | 0 <= i < |t.routes[key]| ensures t.routes[key][i].name == name {
        var other := t.routes[key][i].name;
        var front := lower(other) + [DOT];
        assert key == front + key[|front|..];
        FirstDot(lower(other), key[|front|..], lower(name), lower(tag));
      }
    }
  }
}
