/** The slice against the config the node will run: the tags its inbounds are rendered with,
    the rules as a flow entering through one of them meets them, and the answer. */
module RoutingNode {

  import opened RoutingSlice
  import opened Texts
  import opened Wrappers

  // ---------- The renderer's side ----------

  /** The tag an inbound has in the rendered config: the operator's, or one made from its
      port where the operator gave none. */
  ghost predicate Rendered(sp: Inbound, tag: string) {
    if |sp.tag| > 0 then tag == sp.tag else |tag| >= 3 && tag[..3] == "in-" && tag[3..] == Itoa(sp.port)
  }

  /** What the renderer does to its copy of an inbound. */
  method AssignTag(sp: Inbound) returns (n: Inbound)
    ensures Rendered(sp, n.tag) && n == sp.(tag := n.tag)
  {
    n := sp;
    if n.tag == "" {
      n := n.(tag := "in-" + Itoa(n.port));
    }
  }

  /** Some inbound of the node is rendered with this tag. */
  ghost predicate Carried(specs: seq<Option<Inbound>>, tag: string) {
    exists i :: 0 <= i < |specs| && specs[i].Some? && Rendered(specs[i].value, tag)
  }

  /** The panel works out the node's tags as the renderer will. */
  lemma OnNodeIff(specs: seq<Option<Inbound>>, tag: string)
    ensures tag in OnNode(specs) <==> Carried(specs, tag)
  {
    forall i | 0 <= i < |specs| && specs[i].Some?
      ensures TagOf(specs[i].value) == tag <==> Rendered(specs[i].value, tag)
    {
      RenderedIff(specs[i].value, tag);
    }
    hide TagOf, Rendered;
  }

  lemma RenderedIff(sp: Inbound, tag: string)
    ensures TagOf(sp) == tag <==> Rendered(sp, tag)
  {
    if sp.tag == "" && Rendered(sp, tag) {
      assert tag == tag[..3] + tag[3..];
    }
  }

  // ---------- A flow through the node ----------

  /** Rule `i` is the one a flow is decided by: it is about the flow's inbound, or about
      every inbound, its condition holds, and no rule before it is such. */
  ghost predicate FirstAt<C(!new), A>(rules: seq<Rule<C>>, f: Flow<A>, holds: (C, A) -> bool, i: nat) {
    && i < |rules| && Meets(rules[i], f, holds)
    && forall j :: 0 <= j < i ==> !Meets(rules[j], f, holds)
  }

  ghost predicate Meets<C(!new), A>(r: Rule<C>, f: Flow<A>, holds: (C, A) -> bool) {
    (|r.inboundTags| == 0 || exists k :: 0 <= k < |r.inboundTags| && r.inboundTags[k] == f.inbound) && holds(r.cond, f.attributes)
  }

  lemma DecidedAt<C(!new), A>(rules: seq<Rule<C>>, f: Flow<A>, holds: (C, A) -> bool, i: nat)
    requires FirstAt(rules, f, holds, i)
    ensures Decide(rules, f, holds) == Some(rules[i])
  {
    DecideIsFirst(rules, f, holds);
    MeetsIff(rules[i], f, holds);
    if Decide(rules, f, holds).Some? {
      var j :| 0 <= j < |rules| && rules[j] == Decide(rules, f, holds).value && Matches(rules[j], f, holds)
        && forall k :: 0 <= k < j ==> !Matches(rules[k], f, holds);
      MeetsIff(rules[j], f, holds);
      assert j == i;
    }
  }

  lemma MeetsIff<C(!new), A>(r: Rule<C>, f: Flow<A>, holds: (C, A) -> bool)
    ensures Meets(r, f, holds) <==> Matches(r, f, holds)
  {
  }

  lemma AtDecided<C(!new), A>(rules: seq<Rule<C>>, f: Flow<A>, holds: (C, A) -> bool) returns (i: nat)
    requires Decide(rules, f, holds).Some?
    ensures FirstAt(rules, f, holds, i) && rules[i] == Decide(rules, f, holds).value
  {
    DecideIsFirst(rules, f, holds);
    i :| 0 <= i < |rules| && rules[i] == Decide(rules, f, holds).value && Matches(rules[i], f, holds)
      && forall k :: 0 <= k < i ==> !Matches(rules[k], f, holds);
    MeetsIff(rules[i], f, holds);
    forall j | 0 <= j < i ensures !Meets(rules[j], f, holds) {
      MeetsIff(rules[j], f, holds);
    }
  }

  /** Two rules that say the same of whatever enters here: name, condition and target. */
  ghost predicate SameRule<C(!new)>(a: Rule<C>, b: Rule<C>) {
    a.name == b.name && a.cond == b.cond && a.outboundTag == b.outboundTag
  }

  /** The slice for a node, and a flow that enters through any inbound of it, under the tag
      that inbound is rendered with: a rule of the full table decides the flow if and only
      if one of the slice does, and then they are the same rule and lead to the same place. */
  lemma NodeDecides<C(!new), D(!new), A>(t: Table<C, D>, specs: seq<Option<Inbound>>, k: nat, f: Flow<A>, holds: (C, A) -> bool)
    requires k < |specs| && specs[k].Some? && Rendered(specs[k].value, f.inbound)
    requires forall i :: 0 <= i < |t.rules| ==> t.rules[i].outboundTag != ""
    ensures var s := Slice(t, OnNode(specs));
      && (forall i: nat :: FirstAt(t.rules, f, holds, i) ==>
            && Resolve(s, t.rules[i].outboundTag) == Resolve(t, t.rules[i].outboundTag)
            && exists j: nat :: FirstAt(s.rules, f, holds, j) && SameRule(s.rules[j], t.rules[i]))
      && (forall j: nat :: FirstAt(s.rules, f, holds, j) ==> exists i: nat :: FirstAt(t.rules, f, holds, i))
  {
    var here, s := OnNode(specs), Slice(t, OnNode(specs));
    OnNodeIff(specs, f.inbound);
    assert Carried(specs, f.inbound);
    hide OnNode, Slice, Resolve, FirstAt, Rendered, Carried;
    SliceKeepsMeaning(t, here, f, holds);
    forall i: nat | FirstAt(t.rules, f, holds, i)
      ensures Resolve(s, t.rules[i].outboundTag) == Resolve(t, t.rules[i].outboundTag)
      ensures exists j: nat :: FirstAt(s.rules, f, holds, j) && SameRule(s.rules[j], t.rules[i])
    {
      DecidedAt(t.rules, f, holds, i);
      NarrowIsSame(t.rules[i], here);
      var j := AtDecided(s.rules, f, holds);
    }
    forall j: nat | FirstAt(s.rules, f, holds, j) ensures exists i: nat :: FirstAt(t.rules, f, holds, i) {
      DecidedAt(s.rules, f, holds, j);
      if Decide(t.rules, f, holds).Some? {
        var i := AtDecided(t.rules, f, holds);
      }
    }
  }

  lemma NarrowIsSame<C(!new)>(r: Rule<C>, here: set<string>)
    ensures Narrow(r, here).Some? ==> SameRule(Narrow(r, here).value, r)
  {
  }

  /** Every inbound a shipped rule mentions is one of the node's. */
  lemma NodeNames<C(!new), D(!new)>(t: Table<C, D>, specs: seq<Option<Inbound>>, r: Rule<C>, tag: string)
    requires r in Slice(t, OnNode(specs)).rules && tag in r.inboundTags
    ensures Carried(specs, tag)
  {
    NothingUnreferenced(t, OnNode(specs));
    OnNodeIff(specs, tag);
  }

  // ---------- Names ----------

  /** A tag names the first outbound that has it. */
  lemma {:induction false} OutIsFirst<D>(outs: seq<Outbound<D>>, tag: string)
    ensures FindOut(outs, tag).None? <==> forall i :: 0 <= i < |outs| ==> outs[i].tag != tag
    ensures FindOut(outs, tag).Some? ==>
      exists i :: 0 <= i < |outs| && outs[i] == FindOut(outs, tag).value && outs[i].tag == tag && forall j :: 0 <= j < i ==> outs[j].tag != tag
    decreases |outs|
  {
    if outs != [] {
      OutIsFirst(outs[..|outs| - 1], tag);
    }
  }

  /** Or the first group, when it is a rule's target. */
  lemma {:induction false} GroupIsFirst(groups: seq<Group>, tag: string)
    ensures FindGroup(groups, tag).None? <==> forall i :: 0 <= i < |groups| ==> groups[i].tag != tag
    ensures FindGroup(groups, tag).Some? ==>
      exists i :: 0 <= i < |groups| && groups[i] == FindGroup(groups, tag).value && groups[i].tag == tag && forall j :: 0 <= j < i ==> groups[j].tag != tag
    decreases |groups|
  {
    if groups != [] {
      GroupIsFirst(groups[..|groups| - 1], tag);
    }
  }

  /** But for the two exits every config has, and those nothing defines. */
  lemma ExitIs<D>(outs: seq<Outbound<D>>, tag: string)
    ensures tag == "direct" || tag == "block" ==> ExitOf(outs, tag) == BuiltIn(tag)
    ensures tag != "direct" && tag != "block" ==>
      (ExitOf(outs, tag) == Missing <==> forall i :: 0 <= i < |outs| ==> outs[i].tag != tag)
    ensures tag != "direct" && tag != "block" && ExitOf(outs, tag) != Missing ==>
      exists i :: 0 <= i < |outs| && ExitOf(outs, tag) == Proxy(outs[i]) && outs[i].tag == tag && forall j :: 0 <= j < i ==> outs[j].tag != tag
  {
    OutIsFirst(outs, tag);
    hide FindOut;
  }

  /** Where a rule's target leads: to a group of that name, over all its members and with its
      own fallback or else "block"; or, without one, to the exit of that name. */
  lemma TargetIs<C, D>(t: Table<C, D>, tag: string)
    ensures FindGroup(t.groups, tag).None? ==> Resolve(t, tag) == Single(ExitOf(t.outs, tag))
    ensures FindGroup(t.groups, tag).Some? ==>
      var g := FindGroup(t.groups, tag).value;
      && Resolve(t, tag).Balancer? && Resolve(t, tag).group == g && |Resolve(t, tag).members| == |g.members|
      && (forall i :: 0 <= i < |g.members| ==> Resolve(t, tag).members[i] == ExitOf(t.outs, g.members[i]))
      && Resolve(t, tag).fallback == if |g.fallbackTag| == 0 then BuiltIn("block") else ExitOf(t.outs, g.fallbackTag)
  {
    hide FindGroup, FindOut;
  }

  // ---------- Order ----------

  lemma Regroup<T>(a: seq<T>, b: seq<T>, c: seq<T>)
    ensures a + b + c == a + (b + c)
  {
  }

  lemma LastApart<T>(a: seq<T>, b: seq<T>)
    requires b != []
    ensures a + b == a + b[..|b| - 1] + [b[|b| - 1]] && b == b[..|b| - 1] + [b[|b| - 1]]
  {
  }

  lemma TagsPush(a: seq<string>, t: string, here: set<string>)
    ensures KeepTags(a + [t], here) == KeepTags(a, here) + if t in here then [t] else []
  {
    assert (a + [t])[..|a|] == a;
  }

  /** What is kept is kept in order, as often as it was there: lists are filtered piece by
      piece. */
  lemma {:induction false} TagsPiecewise(a: seq<string>, b: seq<string>, here: set<string>)
    ensures KeepTags([], here) == []
    ensures KeepTags(a + b, here) == KeepTags(a, here) + KeepTags(b, here)
    decreases |b|
  {
    assert KeepTags([], here) == [];
    hide KeepTags;
    if b == [] {
      assert a + b == a && KeepTags(a, here) + [] == KeepTags(a, here);
    } else {
      var front, last := b[..|b| - 1], b[|b| - 1];
      TagsPiecewise(a, front, here);
      LastApart(a, b);
      TagsPush(a + front, last, here);
      TagsPush(front, last, here);
      Regroup(KeepTags(a, here), KeepTags(front, here), if last in here then [last] else []);
    }
  }

  function Kept<C>(r: Rule<C>, here: set<string>): seq<Rule<C>> {
    match Narrow(r, here) case Some(n) => [n] case None => []
  }

  lemma RulesPush<C(!new)>(a: seq<Rule<C>>, r: Rule<C>, here: set<string>)
    ensures KeepRules(a + [r], here) == KeepRules(a, here) + Kept(r, here)
  {
    assert (a + [r])[..|a|] == a;
  }

  lemma {:induction false} RulesPiecewise<C(!new)>(a: seq<Rule<C>>, b: seq<Rule<C>>, here: set<string>)
    ensures KeepRules(a + b, here) == KeepRules(a, here) + KeepRules(b, here)
    decreases |b|
  {
    assert KeepRules<C>([], here) == [];
    hide KeepRules, Kept;
    if b == [] {
      assert a + b == a && KeepRules(a, here) + [] == KeepRules(a, here);
    } else {
      var front, last := b[..|b| - 1], b[|b| - 1];
      RulesPiecewise(a, front, here);
      LastApart(a, b);
      RulesPush(a + front, last, here);
      RulesPush(front, last, here);
      Regroup(KeepRules(a, here), KeepRules(front, here), Kept(last, here));
    }
  }

  /** One rule: kept as it is without a scope, left out when its scope is elsewhere, and
      otherwise narrowed to the part of its scope that is here. */
  lemma OneRule<C(!new)>(r: Rule<C>, here: set<string>)
    ensures var kept := KeepRules([r], here);
      && (|r.inboundTags| == 0 ==> kept == [r])
      && (|r.inboundTags| > 0 && (forall t :: t in r.inboundTags ==> t !in here) ==> kept == [])
      && ((exists t :: t in r.inboundTags && t in here) ==> |kept| == 1 && SameRule(kept[0], r) && kept[0].inboundTags == KeepTags(r.inboundTags, here))
  {
    assert [r][..0] == [];
    var scoped := KeepTags(r.inboundTags, here);
    if scoped != [] {
      assert scoped[0] in scoped;
    }
  }

  lemma GroupsPush(a: seq<Group>, g: Group, need: set<string>)
    ensures KeepGroups(a + [g], need) == KeepGroups(a, need) + if g.tag in need then [g] else []
  {
    assert (a + [g])[..|a|] == a;
  }

  lemma {:induction false} GroupsPiecewise(a: seq<Group>, b: seq<Group>, need: set<string>)
    ensures KeepGroups([], need) == []
    ensures KeepGroups(a + b, need) == KeepGroups(a, need) + KeepGroups(b, need)
    decreases |b|
  {
    assert KeepGroups([], need) == [];
    hide KeepGroups;
    if b == [] {
      assert a + b == a && KeepGroups(a, need) + [] == KeepGroups(a, need);
    } else {
      var front, last := b[..|b| - 1], b[|b| - 1];
      GroupsPiecewise(a, front, need);
      LastApart(a, b);
      GroupsPush(a + front, last, need);
      GroupsPush(front, last, need);
      Regroup(KeepGroups(a, need), KeepGroups(front, need), if last.tag in need then [last] else []);
    }
  }

  lemma OutsPush<D(!new)>(a: seq<Outbound<D>>, o: Outbound<D>, need: set<string>)
    ensures KeepOuts(a + [o], need) == KeepOuts(a, need) + if o.tag in need then [o] else []
  {
    assert (a + [o])[..|a|] == a;
  }

  lemma {:induction false} OutsPiecewise<D(!new)>(a: seq<Outbound<D>>, b: seq<Outbound<D>>, need: set<string>)
    ensures KeepOuts<D>([], need) == []
    ensures KeepOuts(a + b, need) == KeepOuts(a, need) + KeepOuts(b, need)
    decreases |b|
  {
    assert KeepOuts<D>([], need) == [];
    hide KeepOuts;
    if b == [] {
      assert a + b == a && KeepOuts(a, need) + [] == KeepOuts(a, need);
    } else {
      var front, last := b[..|b| - 1], b[|b| - 1];
      OutsPiecewise(a, front, need);
      LastApart(a, b);
      OutsPush(a + front, last, need);
      OutsPush(front, last, need);
      Regroup(KeepOuts(a, need), KeepOuts(front, need), if last.tag in need then [last] else []);
    }
  }
}
