/** The share of the operator's routing table one node is sent.  Rules scoped to inbounds
    elsewhere are dropped, the rest narrowed to the inbounds here; groups and outbounds
    no kept rule can select are left out, because an outbound carries credentials.  What
    the node does with a flow must be what the full table does with it. */
module RoutingSlice {

  import opened Texts
  import opened Wrappers

  /** A rule's other conditions (domain, ip, port, ...) stay abstract. */
  datatype Rule<C> = Rule(name: string, cond: C, inboundTags: seq<string>, outboundTag: string)

  datatype Group = Group(tag: string, members: seq<string>, fallbackTag: string)

  /** A proxy definition: everything but the tag is settings and credentials. */
  datatype Outbound<D> = Outbound(tag: string, definition: D)

  datatype Inbound = Inbound(tag: string, port: int)

  /** What one routing decision sees of a connection. */
  datatype Flow<A> = Flow(inbound: string, attributes: A)

  datatype Table<C, D> = Table(outs: seq<Outbound<D>>, rules: seq<Rule<C>>, groups: seq<Group>)

  // ---------- The tag of an unnamed inbound ----------

  /** The tag the config will carry: the operator's, or one made from the port. */
  function TagOf(sp: Inbound): string {
    if sp.tag != "" then sp.tag else "in-" + Itoa(sp.port)
  }

  function OnNode(specs: seq<Option<Inbound>>): set<string> {
    set i | 0 <= i < |specs| && specs[i].Some? :: TagOf(specs[i].value)
  }

  // ---------- The slice, as a function ----------

  function KeepTags(tags: seq<string>, here: set<string>): (r: seq<string>)
    ensures forall t :: t in r <==> t in tags && t in here
  {
    if tags == [] then []
    else KeepTags(tags[..|tags| - 1], here) + (if tags[|tags| - 1] in here then [tags[|tags| - 1]] else [])
  }

  /** A rule as the node gets it, or nothing when none of its inbounds are here. */
  function Narrow<C>(r: Rule<C>, here: set<string>): Option<Rule<C>> {
    if r.inboundTags == [] then Some(r)
    else if KeepTags(r.inboundTags, here) == [] then None
    else Some(r.(inboundTags := KeepTags(r.inboundTags, here)))
  }

  function KeepRules<C>(rules: seq<Rule<C>>, here: set<string>): seq<Rule<C>> {
    if rules == [] then []
    else
      var n := |rules| - 1;
      KeepRules(rules[..n], here) + match Narrow(rules[n], here) case Some(r) => [r] case None => []
  }

  /** The tags some kept rule sends traffic to. */
  function Targets<C>(rules: seq<Rule<C>>): set<string> {
    set i | 0 <= i < |rules| && rules[i].outboundTag != "" :: rules[i].outboundTag
  }

  function KeepGroups(groups: seq<Group>, need: set<string>): (r: seq<Group>)
    ensures forall g :: g in r <==> g in groups && g.tag in need
  {
    if groups == [] then []
    else
      var n := |groups| - 1;
      KeepGroups(groups[..n], need) + if groups[n].tag in need then [groups[n]] else []
  }

  /** The tags a group sends traffic to: its members and what it falls back to. */
  function Exits(groups: seq<Group>): set<string> {
    (set i, j | 0 <= i < |groups| && 0 <= j < |groups[i].members| :: groups[i].members[j])
    + (set i | 0 <= i < |groups| && groups[i].fallbackTag != "" :: groups[i].fallbackTag)
  }

  function KeepOuts<D(!new)>(outs: seq<Outbound<D>>, need: set<string>): (r: seq<Outbound<D>>)
    ensures forall o :: o in r <==> o in outs && o.tag in need
  {
    if outs == [] then []
    else
      var n := |outs| - 1;
      KeepOuts(outs[..n], need) + if outs[n].tag in need then [outs[n]] else []
  }

  function Slice<C, D(!new)>(t: Table<C, D>, here: set<string>): Table<C, D> {
    var kept := KeepRules(t.rules, here);
    if kept == [] then Table([], [], [])
    else
      var groups := KeepGroups(t.groups, Targets(kept));
      Table(KeepOuts(t.outs, Targets(kept) + Exits(groups)), kept, groups)
  }

  // ---------- The program ----------

  method CollectOnNode(specs: seq<Option<Inbound>>) returns (here: set<string>)
    ensures here == OnNode(specs)
  {
    here := {};
    for i := 0 to |specs|
      invariant here == OnNode(specs[..i])
    {
      assert specs[..i + 1][..i] == specs[..i];
      if specs[i].Some? {
        if specs[i].value.tag != "" {
          here := here + {specs[i].value.tag};
        } else {
          here := here + {"in-" + Itoa(specs[i].value.port)};
        }
      }
      assert forall j :: 0 <= j < i ==> specs[..i][j] == specs[..i + 1][j];
    }
    assert specs[..|specs|] == specs;
  }

  method NarrowTags(tags: seq<string>, here: set<string>) returns (scoped: seq<string>)
    ensures scoped == KeepTags(tags, here)
  {
    scoped := [];
    for j := 0 to |tags|
      invariant scoped == KeepTags(tags[..j], here)
    {
      assert tags[..j + 1][..j] == tags[..j];
      if tags[j] in here {
        scoped := scoped + [tags[j]];
      }
    }
    assert tags[..|tags|] == tags;
  }

  method NarrowRules<C>(rules: seq<Rule<C>>, here: set<string>) returns (kept: seq<Rule<C>>)
    ensures kept == KeepRules(rules, here)
  {
    hide KeepTags;
    kept := [];
    for i := 0 to |rules|
      invariant kept == KeepRules(rules[..i], here)
    {
      assert rules[..i + 1][..i] == rules[..i];
      var r := rules[i];
      if |r.inboundTags| == 0 {
        kept := kept + [r];
        continue;
      }
      var scoped := NarrowTags(r.inboundTags, here);
      if |scoped| == 0 {
        continue;
      }
      kept := kept + [r.(inboundTags := scoped)];
    }
    assert rules[..|rules|] == rules;
  }

  method RuleTargets<C>(rules: seq<Rule<C>>) returns (need: set<string>)
    ensures need == Targets(rules)
  {
    need := {};
    for i := 0 to |rules|
      invariant need == set k | 0 <= k < i && rules[k].outboundTag != "" :: rules[k].outboundTag
    {
      if rules[i].outboundTag != "" {
        need := need + {rules[i].outboundTag};
      }
    }
  }

  method KeepReferencedGroups<C>(groups: seq<Group>, rules: seq<Rule<C>>) returns (kept: seq<Group>)
    ensures kept == KeepGroups(groups, Targets(rules))
  {
    var need := RuleTargets(rules);
    kept := [];
    for i := 0 to |groups|
      invariant kept == KeepGroups(groups[..i], need)
    {
      assert groups[..i + 1][..i] == groups[..i];
      if groups[i].tag in need {
        kept := kept + [groups[i]];
      }
    }
    assert groups[..|groups|] == groups;
  }

  method GroupExits(groups: seq<Group>) returns (need: set<string>)
    ensures need == Exits(groups)
  {
    need := {};
    for i := 0 to |groups|
      invariant need == Exits(groups[..i])
    {
      var g := groups[i];
      for j := 0 to |g.members|
        invariant need == Exits(groups[..i]) + set k | 0 <= k < j :: g.members[k]
      {
        need := need + {g.members[j]};
      }
      if g.fallbackTag != "" {
        need := need + {g.fallbackTag};
      }
      ExitsMore(groups, i);
    }
    assert groups[..|groups|] == groups;
  }

  lemma ExitsMore(groups: seq<Group>, i: nat)
    requires i < |groups|
    ensures Exits(groups[..i + 1]) == Exits(groups[..i]) + (set k | 0 <= k < |groups[i].members| :: groups[i].members[k])
      + (if groups[i].fallbackTag != "" then {groups[i].fallbackTag} else {})
  {
    var a, b := groups[..i], groups[..i + 1];
    assert forall k :: 0 <= k < i ==> a[k] == b[k];
    assert b[i] == groups[i];
  }

  method KeepReferencedOutbounds<C, D(!new)>(outs: seq<Outbound<D>>, rules: seq<Rule<C>>, groups: seq<Group>) returns (kept: seq<Outbound<D>>)
    ensures kept == KeepOuts(outs, Targets(rules) + Exits(groups))
  {
    var byRule := RuleTargets(rules);
    var byGroup := GroupExits(groups);
    var need := byRule + byGroup;
    kept := [];
    if need == {} {
      NothingNeeded(outs);
      return;
    }
    for i := 0 to |outs|
      invariant kept == KeepOuts(outs[..i], need)
    {
      assert outs[..i + 1][..i] == outs[..i];
      if outs[i].tag in need {
        kept := kept + [outs[i]];
      }
    }
    assert outs[..|outs|] == outs;
  }

  lemma NothingNeeded<D(!new)>(outs: seq<Outbound<D>>)
    ensures KeepOuts(outs, {}) == []
  {
  }

  /** `nodeRoutingSpecs`: the table for the node that serves `specs`. */
  method NodeRoutingSpecs<C, D(!new)>(t: Table<C, D>, specs: seq<Option<Inbound>>) returns (r: Table<C, D>)
    ensures r == Slice(t, OnNode(specs))
  {
    if |t.rules| == 0 {
      return Table([], [], []);
    }
    var here := CollectOnNode(specs);
    var kept := NarrowRules(t.rules, here);
    if |kept| == 0 {
      return Table([], [], []);
    }
    var groups := KeepReferencedGroups(t.groups, kept);
    var outs := KeepReferencedOutbounds(t.outs, kept, groups);
    r := Table(outs, kept, groups);
  }

  // ---------- What a table does with a flow ----------

  /** An empty scope means every inbound. */
  predicate Matches<C, A>(r: Rule<C>, f: Flow<A>, holds: (C, A) -> bool) {
    (r.inboundTags == [] || f.inbound in r.inboundTags) && holds(r.cond, f.attributes)
  }

  /** The first rule that matches. */
  function Decide<C, A>(rules: seq<Rule<C>>, f: Flow<A>, holds: (C, A) -> bool): Option<Rule<C>> {
    if rules == [] then None
    else
      var n := |rules| - 1;
      if Decide(rules[..n], f, holds).Some? then Decide(rules[..n], f, holds)
      else if Matches(rules[n], f, holds) then Some(rules[n])
      else None
  }

  /** `Decide` is first match: the rule it picks matches and no rule before it does. */
  lemma {:induction false} DecideIsFirst<C, A>(rules: seq<Rule<C>>, f: Flow<A>, holds: (C, A) -> bool)
    ensures Decide(rules, f, holds).None? <==> forall i :: 0 <= i < |rules| ==> !Matches(rules[i], f, holds)
    ensures Decide(rules, f, holds).Some? ==>
      exists i :: (&& 0 <= i < |rules|
                   && rules[i] == Decide(rules, f, holds).value && Matches(rules[i], f, holds)
                   && forall j :: 0 <= j < i ==> !Matches(rules[j], f, holds))
    decreases |rules|
  {
    if rules != [] {
      DecideIsFirst(rules[..|rules| - 1], f, holds);
    }
  }

  /** Narrowing keeps a rule exactly when it could match a flow that enters here, and
      never turns a scoped rule into a fleet-wide one. */
  lemma NarrowKeepsMatch<C, A>(r: Rule<C>, here: set<string>, f: Flow<A>, holds: (C, A) -> bool)
    requires f.inbound in here
    ensures Matches(r, f, holds) ==> Narrow(r, here).Some?
    ensures Narrow(r, here).Some? ==>
      && (Matches(Narrow(r, here).value, f, holds) <==> Matches(r, f, holds))
      && (Narrow(r, here).value.inboundTags == [] <==> r.inboundTags == [])
  {
  }

  lemma DecideAppend<C, A>(rules: seq<Rule<C>>, r: Rule<C>, f: Flow<A>, holds: (C, A) -> bool)
    ensures Decide(rules + [r], f, holds)
      == if Decide(rules, f, holds).Some? then Decide(rules, f, holds)
         else if Matches(r, f, holds) then Some(r) else None
  {
    assert (rules + [r])[..|rules|] == rules;
  }

  /** First match over the node's rules picks the image of the rule the full table picks,
      for every flow that enters through an inbound of the node. */
  lemma {:induction false} SliceKeepsDecision<C, A>(rules: seq<Rule<C>>, here: set<string>, f: Flow<A>, holds: (C, A) -> bool)
    requires f.inbound in here
    ensures Decide(KeepRules(rules, here), f, holds)
      == match Decide(rules, f, holds) case Some(r) => Narrow(r, here) case None => None
    decreases |rules|
  {
    hide KeepTags, Narrow, Matches;
    if rules != [] {
      var n := |rules| - 1;
      var kept := KeepRules(rules[..n], here);
      SliceKeepsDecision(rules[..n], here, f, holds);
      DecidedMatches(rules[..n], f, holds);
      if Decide(rules[..n], f, holds).Some? {
        NarrowKeepsMatch(Decide(rules[..n], f, holds).value, here, f, holds);
      }
      NarrowKeepsMatch(rules[n], here, f, holds);
      match Narrow(rules[n], here)
      case Some(r) => DecideAppend(kept, r, f, holds);
      case None => assert KeepRules(rules, here) == kept + [] == kept;
    }
  }

  lemma {:induction false} DecidedMatches<C, A>(rules: seq<Rule<C>>, f: Flow<A>, holds: (C, A) -> bool)
    ensures Decide(rules, f, holds).Some? ==> Matches(Decide(rules, f, holds).value, f, holds)
    decreases |rules|
  {
    if rules != [] {
      DecidedMatches(rules[..|rules| - 1], f, holds);
    }
  }

  // ---------- Where a tag leads ----------

  const BUILT_IN := {"direct", "block"}

  /** The policy a group without one is rendered with. */
  const ALL_DOWN := "block"

  /** What one exit tag stands for: a built-in, an operator's outbound, or nothing. */
  datatype Exit<D> = BuiltIn(name: string) | Proxy(out: Outbound<D>) | Missing

  datatype Target<D> = Balancer(group: Group, members: seq<Exit<D>>, fallback: Exit<D>) | Single(exit: Exit<D>)

  function FindOut<D>(outs: seq<Outbound<D>>, tag: string): Option<Outbound<D>> {
    if outs == [] then None
    else
      var n := |outs| - 1;
      if FindOut(outs[..n], tag).Some? then FindOut(outs[..n], tag)
      else if outs[n].tag == tag then Some(outs[n]) else None
  }

  function FindGroup(groups: seq<Group>, tag: string): Option<Group> {
    if groups == [] then None
    else
      var n := |groups| - 1;
      if FindGroup(groups[..n], tag).Some? then FindGroup(groups[..n], tag)
      else if groups[n].tag == tag then Some(groups[n]) else None
  }

  function ExitOf<D>(outs: seq<Outbound<D>>, tag: string): Exit<D> {
    if tag in BUILT_IN then BuiltIn(tag)
    else match FindOut(outs, tag) case Some(o) => Proxy(o) case None => Missing
  }

  /** A rule's target: the group of that name first, since that is how it is rendered. */
  function Resolve<C, D>(t: Table<C, D>, tag: string): Target<D> {
    match FindGroup(t.groups, tag)
    case Some(g) =>
      Balancer(g, seq(|g.members|, i requires 0 <= i < |g.members| => ExitOf(t.outs, g.members[i])),
               ExitOf(t.outs, if g.fallbackTag == "" then ALL_DOWN else g.fallbackTag))
    case None => Single(ExitOf(t.outs, tag))
  }

  lemma {:induction false} KeepOutsFinds<D(!new)>(outs: seq<Outbound<D>>, need: set<string>, tag: string)
    requires tag in need
    ensures FindOut(KeepOuts(outs, need), tag) == FindOut(outs, tag)
    decreases |outs|
  {
    if outs != [] {
      var n := |outs| - 1;
      KeepOutsFinds(outs[..n], need, tag);
      var kept := KeepOuts(outs[..n], need);
      if outs[n].tag in need {
        assert (kept + [outs[n]])[..|kept|] == kept;
      } else {
        assert KeepOuts(outs, need) == kept;
      }
    }
  }

  lemma {:induction false} KeepGroupsFinds(groups: seq<Group>, need: set<string>, tag: string)
    requires tag in need
    ensures FindGroup(KeepGroups(groups, need), tag) == FindGroup(groups, tag)
    decreases |groups|
  {
    if groups != [] {
      var n := |groups| - 1;
      KeepGroupsFinds(groups[..n], need, tag);
      var kept := KeepGroups(groups[..n], need);
      if groups[n].tag in need {
        assert (kept + [groups[n]])[..|kept|] == kept;
      } else {
        assert KeepGroups(groups, need) == kept;
      }
    }
  }

  lemma {:induction false} FindGroupIn(groups: seq<Group>, tag: string)
    ensures FindGroup(groups, tag).Some? ==> FindGroup(groups, tag).value in groups && FindGroup(groups, tag).value.tag == tag
    decreases |groups|
  {
    if groups != [] {
      FindGroupIn(groups[..|groups| - 1], tag);
    }
  }

  /** Every rule the node gets leads where it leads in the full table: to the same
      group, with every member and its fallback present, or to the same outbound. */
  lemma SliceKeepsTarget<C, D(!new)>(t: Table<C, D>, here: set<string>, r: Rule<C>)
    requires r in Slice(t, here).rules && r.outboundTag != ""
    ensures Resolve(Slice(t, here), r.outboundTag) == Resolve(t, r.outboundTag)
  {
    hide KeepRules, KeepOuts, KeepGroups, FindOut, FindGroup, Exits;
    var kept := KeepRules(t.rules, here);
    var s, tag := Slice(t, here), r.outboundTag;
    assert tag in Targets(kept);
    KeepGroupsFinds(t.groups, Targets(kept), tag);
    FindGroupIn(s.groups, tag);
    match FindGroup(s.groups, tag)
    case None =>
      KeepOutsFinds(t.outs, Targets(kept) + Exits(s.groups), tag);
    case Some(g) =>
      GroupExitsNeeded(s.groups, g);
      forall i | 0 <= i < |g.members|
        ensures ExitOf(s.outs, g.members[i]) == ExitOf(t.outs, g.members[i])
      {
        KeepOutsFinds(t.outs, Targets(kept) + Exits(s.groups), g.members[i]);
      }
      if g.fallbackTag != "" {
        KeepOutsFinds(t.outs, Targets(kept) + Exits(s.groups), g.fallbackTag);
      }
  }

  lemma GroupExitsNeeded(groups: seq<Group>, g: Group)
    requires g in groups
    ensures forall i :: 0 <= i < |g.members| ==> g.members[i] in Exits(groups)
    ensures g.fallbackTag != "" ==> g.fallbackTag in Exits(groups)
  {
    var k :| 0 <= k < |groups| && groups[k] == g;
    forall i | 0 <= i < |g.members|
      ensures g.members[i] in Exits(groups)
    {
      assert groups[k].members[i] == g.members[i];
    }
  }

  /** The whole of it, for one flow: decision and destination. */
  lemma SliceKeepsMeaning<C, D(!new), A>(t: Table<C, D>, here: set<string>, f: Flow<A>, holds: (C, A) -> bool)
    requires f.inbound in here
    requires forall i :: 0 <= i < |t.rules| ==> t.rules[i].outboundTag != ""
    ensures var s := Slice(t, here);
      match Decide(t.rules, f, holds)
      case None => Decide(s.rules, f, holds).None?
      case Some(r) =>
        && Decide(s.rules, f, holds) == Narrow(r, here)
        && Narrow(r, here).Some?
        && Resolve(s, Narrow(r, here).value.outboundTag) == Resolve(t, r.outboundTag)
  {
    SliceKeepsDecision(t.rules, here, f, holds);
    DecideIsFirst(t.rules, f, holds);
    DecideIsFirst(KeepRules(t.rules, here), f, holds);
    if Decide(t.rules, f, holds).Some? {
      var r := Decide(t.rules, f, holds).value;
      NarrowKeepsMatch(r, here, f, holds);
      SliceKeepsTarget(t, here, Narrow(r, here).value);
    }
  }

  // ---------- Nothing travels without a reason ----------

  lemma {:induction false} KeepRulesScoped<C(!new)>(rules: seq<Rule<C>>, here: set<string>)
    ensures forall r :: r in KeepRules(rules, here) ==>
      && (forall t :: t in r.inboundTags ==> t in here)
      && exists o :: o in rules && Narrow(o, here) == Some(r) && (o.inboundTags == [] <==> r.inboundTags == [])
    decreases |rules|
  {
    if rules != [] {
      var n := |rules| - 1;
      KeepRulesScoped(rules[..n], here);
      forall r | r in KeepRules(rules, here)
        ensures (forall t :: t in r.inboundTags ==> t in here)
        ensures exists o :: o in rules && Narrow(o, here) == Some(r) && (o.inboundTags == [] <==> r.inboundTags == [])
      {
        if r in KeepRules(rules[..n], here) {
          var o :| o in rules[..n] && Narrow(o, here) == Some(r) && (o.inboundTags == [] <==> r.inboundTags == []);
          assert o in rules;
        } else {
          assert Narrow(rules[n], here) == Some(r);
        }
      }
    }
  }

  /** The node learns no inbound of another node, gets no group no rule of its own can
      select, and no outbound that neither a rule nor such a group names. */
  lemma NothingUnreferenced<C(!new), D(!new)>(t: Table<C, D>, here: set<string>)
    ensures var s := Slice(t, here);
      && (forall r :: r in s.rules ==> forall i :: i in r.inboundTags ==> i in here)
      && (forall g :: g in s.groups ==> g in t.groups && exists r :: r in s.rules && r.outboundTag == g.tag)
      && (forall o :: o in s.outs ==>
            && o in t.outs
            && ((exists r :: r in s.rules && r.outboundTag == o.tag)
                || (exists g :: g in s.groups && (o.tag in g.members || o.tag == g.fallbackTag))))
  {
    hide KeepRules, KeepOuts, KeepGroups, Exits;
    var s, kept := Slice(t, here), KeepRules(t.rules, here);
    KeepRulesScoped(t.rules, here);
    forall g | g in s.groups
      ensures exists r :: r in s.rules && r.outboundTag == g.tag
    {
      var i :| 0 <= i < |kept| && kept[i].outboundTag != "" && kept[i].outboundTag == g.tag;
      assert kept[i] in s.rules;
    }
    forall o | o in s.outs
      ensures (exists r :: r in s.rules && r.outboundTag == o.tag)
              || exists g :: g in s.groups && (o.tag in g.members || o.tag == g.fallbackTag)
    {
      if o.tag in Targets(kept) {
        var i :| 0 <= i < |kept| && kept[i].outboundTag != "" && kept[i].outboundTag == o.tag;
        assert kept[i] in s.rules;
      } else {
        ExitsIff(s.groups, o.tag);
      }
    }
  }

  // ---------- Members select by prefix ----------

  /** A balancer picks among the outbounds whose tag STARTS with a member's tag. */
  predicate Selects(g: Group, tag: string) {
    exists i :: 0 <= i < |g.members| && g.members[i] <= tag
  }

  function Candidates<D>(outs: seq<Outbound<D>>, g: Group): set<string> {
    set i | 0 <= i < |outs| && Selects(g, outs[i].tag) :: outs[i].tag
  }

  /** The rule is fleet-wide or about an inbound here. */
  ghost predicate Applies<C(!new)>(r: Rule<C>, here: set<string>) {
    r.inboundTags == [] || exists t :: t in r.inboundTags && t in here
  }

  /** A rule that applies here targets this tag. */
  ghost predicate Targeted<C(!new), D(!new)>(t: Table<C, D>, here: set<string>, tag: string) {
    tag != "" && exists r :: r in t.rules && Applies(r, here) && r.outboundTag == tag
  }

  /** The full table spells this tag out for the node: as the target of a rule that applies
      here, or as a member or the fallback of a group such a rule targets. */
  ghost predicate Named<C(!new), D(!new)>(t: Table<C, D>, here: set<string>, tag: string) {
    || Targeted(t, here, tag)
    || exists g :: g in t.groups && Targeted(t, here, g.tag) && (tag in g.members || (tag != "" && tag == g.fallbackTag))
  }

  lemma NarrowIff<C(!new)>(r: Rule<C>, here: set<string>)
    ensures Narrow(r, here).Some? <==> Applies(r, here)
    ensures Narrow(r, here).Some? ==> Narrow(r, here).value.outboundTag == r.outboundTag
  {
    var kept := KeepTags(r.inboundTags, here);
    if kept != [] {
      assert kept[0] in kept;
    }
  }

  lemma {:induction false} KeptIff<C(!new)>(rules: seq<Rule<C>>, here: set<string>, tag: string)
    ensures tag in Targets(KeepRules(rules, here)) <==>
      tag != "" && exists r :: r in rules && Applies(r, here) && r.outboundTag == tag
    decreases |rules|
  {
    hide Narrow, Applies;
    if rules != [] {
      var n := |rules| - 1;
      var front, kept := rules[..n], KeepRules(rules[..n], here);
      KeptIff(front, here, tag);
      NarrowIff(rules[n], here);
      assert forall r :: r in rules <==> r in front || r == rules[n];
      TargetsPush(kept, Narrow(rules[n], here), tag);
    }
  }

  lemma TargetsPush<C>(rules: seq<Rule<C>>, more: Option<Rule<C>>, tag: string)
    ensures tag in Targets(rules + match more case Some(r) => [r] case None => []) <==>
      tag in Targets(rules) || (more.Some? && tag != "" && more.value.outboundTag == tag)
  {
    if more.Some? {
      var all := rules + [more.value];
      assert all[|rules|] == more.value;
      assert forall i :: 0 <= i < |rules| ==> all[i] == rules[i];
      assert rules + (match more case Some(r) => [r] case None => []) == all;
    } else {
      assert rules + (match more case Some(r) => [r] case None => []) == rules;
    }
  }

  lemma ExitsIff(groups: seq<Group>, tag: string)
    ensures tag in Exits(groups) <==>
      exists g :: g in groups && (tag in g.members || (tag != "" && tag == g.fallbackTag))
  {
    if g :| g in groups && (tag in g.members || (tag != "" && tag == g.fallbackTag)) {
      GroupExitsNeeded(groups, g);
    }
    if tag in Exits(groups) {
      if i, j :| 0 <= i < |groups| && 0 <= j < |groups[i].members| && groups[i].members[j] == tag {
        assert groups[i] in groups && tag in groups[i].members;
      } else {
        var i :| 0 <= i < |groups| && groups[i].fallbackTag != "" && groups[i].fallbackTag == tag;
        assert groups[i] in groups;
      }
    }
  }

  /** What a node is sent, read off the full table. */
  lemma ShippedIff<C(!new), D(!new)>(t: Table<C, D>, here: set<string>, o: Outbound<D>)
    requires o in t.outs
    ensures o in Slice(t, here).outs <==> Named(t, here, o.tag)
  {
    hide KeepRules, KeepOuts, KeepGroups, Exits, Applies, Targets;
    var kept := KeepRules(t.rules, here);
    var groups := KeepGroups(t.groups, Targets(kept));
    KeptIff(t.rules, here, o.tag);
    ExitsIff(groups, o.tag);
    forall g | g in t.groups ensures g in groups <==> Targeted(t, here, g.tag) {
      KeptIff(t.rules, here, g.tag);
    }
    if kept == [] {
      NothingKept(t.rules, here);
    }
  }

  lemma {:induction false} NothingKept<C(!new)>(rules: seq<Rule<C>>, here: set<string>)
    requires KeepRules(rules, here) == []
    ensures forall r :: r in rules ==> !Applies(r, here)
    decreases |rules|
  {
    hide Narrow, Applies;
    if rules != [] {
      var n := |rules| - 1;
      NarrowIff(rules[n], here);
      NothingKept(rules[..n], here);
      assert forall r :: r in rules <==> r in rules[..n] || r == rules[n];
    }
  }

  /** A group balances on the node over what it balances over on the panel if and only if
      the full table spells out for the node every outbound the group selects by prefix. */
  lemma CandidatesIff<C(!new), D(!new)>(t: Table<C, D>, here: set<string>, g: Group)
    ensures Candidates(Slice(t, here).outs, g) <= Candidates(t.outs, g)
    ensures Candidates(Slice(t, here).outs, g) == Candidates(t.outs, g) <==>
      forall o :: o in t.outs && Selects(g, o.tag) ==> Named(t, here, o.tag)
  {
    hide Selects, Named;
    var s := Slice(t, here);
    SliceOuts(t, here);
    hide Slice;
    forall tag | tag in Candidates(s.outs, g) ensures tag in Candidates(t.outs, g) {
      var o := FromCandidates(s.outs, g, tag);
      InCandidates(t.outs, o, g);
    }
    forall o | o in t.outs && Selects(g, o.tag) ensures o.tag in Candidates(t.outs, g) {
      InCandidates(t.outs, o, g);
    }
    forall o | o in t.outs && Selects(g, o.tag) ensures o.tag in Candidates(s.outs, g) <==> Named(t, here, o.tag) {
      ShippedIff(t, here, o);
      if o in s.outs {
        InCandidates(s.outs, o, g);
      } else if o.tag in Candidates(s.outs, g) {
        var p := FromCandidates(s.outs, g, o.tag);
        ShippedIff(t, here, p);
      }
    }
    forall tag | tag in Candidates(t.outs, g) ensures exists o :: o in t.outs && o.tag == tag && Selects(g, o.tag) {
      var o := FromCandidates(t.outs, g, tag);
    }
  }

  lemma SliceOuts<C, D(!new)>(t: Table<C, D>, here: set<string>)
    ensures forall o :: o in Slice(t, here).outs ==> o in t.outs
  {
  }

  lemma FromCandidates<D>(outs: seq<Outbound<D>>, g: Group, tag: string) returns (o: Outbound<D>)
    requires tag in Candidates(outs, g)
    ensures o in outs && o.tag == tag && Selects(g, tag)
  {
    var i :| 0 <= i < |outs| && Selects(g, outs[i].tag) && outs[i].tag == tag;
    o := outs[i];
  }

  lemma InCandidates<D>(outs: seq<Outbound<D>>, o: Outbound<D>, g: Group)
    requires o in outs && Selects(g, o.tag)
    ensures o.tag in Candidates(outs, g)
  {
    var i :| 0 <= i < |outs| && outs[i] == o;
    assert outs[i].tag in Candidates(outs, g);
  }

  /** Where the core really sends what a rule targets: a balancer over every outbound its
      group selects, with a fallback, or one exit. */
  datatype Spread<D> = Among(group: Group, tags: set<string>, fallback: Exit<D>) | Straight(exit: Exit<D>)

  function SpreadOf<C, D>(t: Table<C, D>, tag: string): Spread<D> {
    match FindGroup(t.groups, tag)
    case Some(g) => Among(g, Candidates(t.outs, g), ExitOf(t.outs, if g.fallbackTag == "" then ALL_DOWN else g.fallbackTag))
    case None => Straight(ExitOf(t.outs, tag))
  }

  /** Nothing the targeted group selects is missing. */
  ghost predicate SpelledOut<C(!new), D(!new)>(t: Table<C, D>, here: set<string>, tag: string) {
    match FindGroup(t.groups, tag)
    case None => true
    case Some(g) => forall o :: o in t.outs && Selects(g, o.tag) ==> Named(t, here, o.tag)
  }

  lemma SpreadIff<C(!new), D(!new)>(t: Table<C, D>, here: set<string>, r: Rule<C>)
    requires r in Slice(t, here).rules && r.outboundTag != ""
    ensures SpreadOf(Slice(t, here), r.outboundTag) == SpreadOf(t, r.outboundTag) <==> SpelledOut(t, here, r.outboundTag)
  {
    hide KeepRules, KeepOuts, KeepGroups, FindOut, FindGroup, Exits, Candidates, Named, Selects, Slice, ExitOf;
    SliceKeepsTarget(t, here, r);
    match FindGroup(t.groups, r.outboundTag)
    case None =>
    case Some(g) => CandidatesIff(t, here, g);
  }

  /** Decision and destination with the core's own reading of members: for every flow
      entering here the slice decides as the full table does, and it spreads the flow over
      the same outbounds if and only if the table spells out, for the node, every one its
      target selects. */
  lemma SliceKeepsSpreadIff<C(!new), D(!new), A>(t: Table<C, D>, here: set<string>, f: Flow<A>, holds: (C, A) -> bool)
    requires f.inbound in here
    requires forall i :: 0 <= i < |t.rules| ==> t.rules[i].outboundTag != ""
    ensures var s := Slice(t, here);
      match Decide(t.rules, f, holds)
      case None => Decide(s.rules, f, holds).None?
      case Some(r) =>
        && Decide(s.rules, f, holds) == Narrow(r, here)
        && Narrow(r, here).Some?
        && (SpreadOf(s, Narrow(r, here).value.outboundTag) == SpreadOf(t, r.outboundTag) <==> SpelledOut(t, here, r.outboundTag))
  {
    SliceKeepsMeaning(t, here, f, holds);
    DecideIsFirst(t.rules, f, holds);
    DecideIsFirst(Slice(t, here).rules, f, holds);
    hide SpelledOut, SpreadOf, Resolve, Slice, Decide, Matches;
    if Decide(t.rules, f, holds).Some? {
      var r := Decide(t.rules, f, holds).value;
      NarrowIff(r, here);
      SpreadIff(t, here, Narrow(r, here).value);
    }
  }

  /** And it happens: "relay" selects "relay-eu" on the panel and not on the node. */
  const POOL := Group("pool", ["relay"], "block")

  lemma PrefixMemberIsLost(relay: Outbound<int>, eu: Outbound<int>, r: Rule<int>)
    requires relay.tag == "relay" && eu.tag == "relay-eu"
    requires r.inboundTags == [] && r.outboundTag == "pool"
    ensures var t := Table([relay, eu], [r], [POOL]);
      && Slice(t, {"in-443"}) == Table([relay], [r], [POOL])
      && "relay-eu" in Candidates(t.outs, POOL)
      && "relay-eu" !in Candidates([relay], POOL)
  {
    var outs := [relay, eu];
    SliceOne(r, {"in-443"});
    assert Exits([POOL]) == {"relay", "block"} by {
      assert [POOL][0].members[0] == "relay";
    }
    KeepFirst(relay, eu, {"pool"} + {"relay", "block"});
    assert POOL.members[0] <= outs[1].tag;
  }

  lemma SliceOne(r: Rule<int>, here: set<string>)
    requires r.inboundTags == [] && r.outboundTag == "pool"
    ensures KeepRules([r], here) == [r] && Targets([r]) == {"pool"} && KeepGroups([POOL], {"pool"}) == [POOL]
  {
    assert [r][..0] == [] && [POOL][..0] == [];
    assert [r][0] == r;
  }

  lemma KeepFirst(a: Outbound<int>, b: Outbound<int>, need: set<string>)
    requires a.tag in need && b.tag !in need
    ensures KeepOuts([a, b], need) == [a]
  {
    assert [a, b][..1] == [a] && [a][..0] == [];
    assert KeepOuts([a], need) == [a];
  }
}
