/** The SRV result objects: arrays deleted from in place, lists appended to, and the cached result that
    neither of this touches. */
module SrvTargets {
  import opened Wrappers
  import opened Srv

  // ---- Grouping by priority ----

  /** An SRV record and what its domain resolved to: nothing, or at least one target. */
  datatype Record = Record(priority: nat, weight: nat, resolved: Option<seq<Target>>)

  /** The entries of one priority, in the order of the records. */
  function Slot(rs: seq<Record>, p: nat): seq<Entry> {
    if rs == [] then []
    else
      var r := rs[|rs| - 1];
      Slot(rs[..|rs| - 1], p)
        + if r.priority == p && r.resolved.Some? then [Entry(r.weight, r.resolved.value)] else []
  }

  /** The non-empty groups of priorities lo to hi - 1, and those priorities. */
  function Groups(rs: seq<Record>, lo: nat, hi: nat): seq<seq<Entry>>
    requires lo <= hi
    decreases hi - lo
  {
    if lo == hi then [] else (if Slot(rs, lo) == [] then [] else [Slot(rs, lo)]) + Groups(rs, lo + 1, hi)
  }

  function Priorities(rs: seq<Record>, lo: nat, hi: nat): seq<nat>
    requires lo <= hi
    decreases hi - lo
  {
    if lo == hi then [] else (if Slot(rs, lo) == [] then [] else [lo]) + Priorities(rs, lo + 1, hi)
  }

  /** Groups are whole priorities, in strictly ascending order, and none is empty. */
  lemma {:induction false} GroupsAscending(rs: seq<Record>, lo: nat, hi: nat)
    requires lo <= hi
    ensures var gs, ps := Groups(rs, lo, hi), Priorities(rs, lo, hi);
      && |gs| == |ps|
      && (forall g :: 0 <= g < |gs| ==> gs[g] == Slot(rs, ps[g]) && gs[g] != [] && lo <= ps[g] < hi)
      && (forall g, h :: 0 <= g < h < |ps| ==> ps[g] < ps[h])
    decreases hi - lo
  {
    if lo < hi {
      GroupsAscending(rs, lo + 1, hi);
      if Slot(rs, lo) != [] {
        var gs, ps := Groups(rs, lo + 1, hi), Priorities(rs, lo + 1, hi);
        assert forall g :: 0 < g <= |gs| ==> ([Slot(rs, lo)] + gs)[g] == gs[g - 1] && ([lo] + ps)[g] == ps[g - 1];
      }
    }
  }

  /** All resolved targets, record by record. */
  function ResolvedTargets(rs: seq<Record>): seq<Target> {
    if rs == [] then []
    else
      var r := rs[|rs| - 1];
      ResolvedTargets(rs[..|rs| - 1]) + if r.resolved.Some? then r.resolved.value else []
  }

  predicate Below(rs: seq<Record>, hi: nat) { forall r :: r in rs ==> r.priority < hi }

  function Gain(r: Record, t: Target): nat { if r.resolved.Some? then multiset(r.resolved.value)[t] else 0 }

  function GroupsCount(rs: seq<Record>, lo: nat, hi: nat, t: Target): nat
    requires lo <= hi
  {
    multiset(AllTargets(Groups(rs, lo, hi)))[t]
  }

  lemma GroupsCountStep(rs: seq<Record>, lo: nat, hi: nat, t: Target)
    requires lo < hi
    ensures GroupsCount(rs, lo, hi, t) == Count(Slot(rs, lo), t) + GroupsCount(rs, lo + 1, hi, t)
  {
    var s, rest := Slot(rs, lo), Groups(rs, lo + 1, hi);
    if s == [] {
      assert Groups(rs, lo, hi) == rest;
    } else {
      assert ([s] + rest)[1..] == rest;
      assert multiset(Flat(s) + AllTargets(rest)) == multiset(Flat(s)) + multiset(AllTargets(rest));
    }
  }

  lemma {:induction false} FlatSnoc(es: seq<Entry>, e: Entry, t: Target)
    ensures Count(es + [e], t) == Count(es, t) + multiset(e.targets)[t]
    decreases |es|
  {
    CountStep(es + [e], t);
    if es == [] {
      assert es + [e] == [e] && [e][1..] == [];
    } else {
      CountStep(es, t);
      assert (es + [e])[1..] == es[1..] + [e];
      FlatSnoc(es[1..], e, t);
    }
  }

  lemma SlotGain(rs: seq<Record>, p: nat, t: Target)
    requires rs != []
    ensures var r := rs[|rs| - 1];
      Count(Slot(rs, p), t) == Count(Slot(rs[..|rs| - 1], p), t) + if r.priority == p then Gain(r, t) else 0
  {
    var r, s := rs[|rs| - 1], Slot(rs[..|rs| - 1], p);
    if r.priority == p && r.resolved.Some? {
      FlatSnoc(s, Entry(r.weight, r.resolved.value), t);
    } else {
      assert Slot(rs, p) == s;
    }
  }

  lemma GroupsCountEmpty(rs: seq<Record>, lo: nat, t: Target)
    ensures GroupsCount(rs, lo, lo, t) == 0
  {}

  predicate LastOf(rs: seq<Record>, front: seq<Record>, r: Record) {
    rs != [] && front == rs[..|rs| - 1] && r == rs[|rs| - 1]
  }

  lemma SlotGainOf(rs: seq<Record>, front: seq<Record>, r: Record, p: nat, t: Target)
    requires LastOf(rs, front, r)
    ensures Count(Slot(rs, p), t) == Count(Slot(front, p), t) + if r.priority == p then Gain(r, t) else 0
  {
    SlotGain(rs, p, t);
  }

  lemma {:induction false} GroupsGain(rs: seq<Record>, front: seq<Record>, r: Record, lo: nat, hi: nat, t: Target)
    requires LastOf(rs, front, r) && lo <= hi
    ensures GroupsCount(rs, lo, hi, t)
         == GroupsCount(front, lo, hi, t) + if lo <= r.priority < hi then Gain(r, t) else 0
    decreases hi - lo
  {
    hide Count, Slot, Gain, LastOf, GroupsCount;
    if lo == hi {
      GroupsCountEmpty(rs, lo, t);
      GroupsCountEmpty(front, lo, t);
    } else {
      GroupsCountStep(rs, lo, hi, t);
      GroupsCountStep(front, lo, hi, t);
      SlotGainOf(rs, front, r, lo, t);
      GroupsGain(rs, front, r, lo + 1, hi, t);
    }
  }

  lemma {:induction false} NoRecords(lo: nat, hi: nat)
    requires lo <= hi
    ensures Groups([], lo, hi) == []
    decreases hi - lo
  {
    if lo < hi { NoRecords(lo + 1, hi); }
  }

  lemma {:induction false} GroupingCount(rs: seq<Record>, hi: nat, t: Target)
    requires Below(rs, hi)
    ensures GroupsCount(rs, 0, hi, t) == multiset(ResolvedTargets(rs))[t]
    decreases |rs|
  {
    if rs == [] {
      NoRecords(0, hi);
    } else {
      var r, front := rs[|rs| - 1], rs[..|rs| - 1];
      assert r in rs;
      GroupingCount(front, hi, t);
      GroupsGain(rs, front, r, 0, hi, t);
      var more := if r.resolved.Some? then r.resolved.value else [];
      assert multiset(ResolvedTargets(front) + more) == multiset(ResolvedTargets(front)) + multiset(more);
    }
  }

  /** Grouping neither loses nor repeats a target. */
  lemma GroupingKeepsTargets(rs: seq<Record>, hi: nat)
    requires Below(rs, hi)
    ensures multiset(AllTargets(Groups(rs, 0, hi))) == multiset(ResolvedTargets(rs))
  {
    var m, n := multiset(AllTargets(Groups(rs, 0, hi))), multiset(ResolvedTargets(rs));
    forall t ensures m[t] == n[t] { GroupingCount(rs, hi, t); }
    assert m == n;
  }

  /** From the records to the list that is tried: every resolved target once, whatever is drawn. */
  lemma ResolvedThenRandomized(rs: seq<Record>, hi: nat, chs: seq<Chance>)
    requires Below(rs, hi) && ChancesFor(Groups(rs, 0, hi), chs)
    ensures multiset(Targets(Randomized(Groups(rs, 0, hi), chs))) == multiset(ResolvedTargets(rs))
  {
    GroupingKeepsTargets(rs, hi);
    EveryTargetOnce(Groups(rs, 0, hi), chs);
  }

  lemma {:induction false} GroupsSnoc(rs: seq<Record>, lo: nat, hi: nat)
    requires lo <= hi
    ensures Groups(rs, lo, hi + 1) == Groups(rs, lo, hi) + if Slot(rs, hi) == [] then [] else [Slot(rs, hi)]
    decreases hi - lo
  {
    if lo < hi { GroupsSnoc(rs, lo + 1, hi); }
  }

  datatype Result = Nothing | Plain(targets: seq<Target>) | Grouped(groups: seq<seq<Entry>>)

  predicate SlotsHold(slots: seq<Option<seq<Entry>>>, rs: seq<Record>) {
    && Below(rs, |slots|)
    && forall p :: 0 <= p < |slots| ==> Slot(rs, p) == if slots[p].Some? then slots[p].value else []
  }

  lemma {:induction false} SlotAbove(rs: seq<Record>, p: nat)
    requires Below(rs, p)
    ensures Slot(rs, p) == []
    decreases |rs|
  {
    if rs != [] {
      assert rs[|rs| - 1] in rs;
      SlotAbove(rs[..|rs| - 1], p);
    }
  }

  lemma SlotsGrow(slots: seq<Option<seq<Entry>>>, rs: seq<Record>)
    requires SlotsHold(slots, rs)
    ensures SlotsHold(slots + [None], rs)
  {
    SlotAbove(rs, |slots|);
  }

  lemma SlotsPush(slots: seq<Option<seq<Entry>>>, slots': seq<Option<seq<Entry>>>, rs: seq<Record>, r: Record)
    requires SlotsHold(slots, rs) && r.priority < |slots|
    requires var old' := if slots[r.priority].Some? then slots[r.priority].value else [];
      slots' == slots[r.priority := Some(old' + if r.resolved.Some? then [Entry(r.weight, r.resolved.value)] else [])]
    ensures SlotsHold(slots', rs + [r])
  {
    assert (rs + [r])[..|rs|] == rs;
    forall x | x in rs + [r] ensures x.priority < |slots'| {
      if x != r { assert x in rs; }
    }
  }

  lemma SlotsPushed(slots: seq<Option<seq<Entry>>>, slots': seq<Option<seq<Entry>>>, srvs: seq<Record>, k: nat)
    requires k < |srvs| && SlotsHold(slots, srvs[..k]) && srvs[k].priority < |slots|
    requires var r := srvs[k];
      var was := if slots[r.priority].Some? then slots[r.priority].value else [];
      slots' == slots[r.priority := Some(if r.resolved.Some? then was + [Entry(r.weight, r.resolved.value)] else was)]
    ensures SlotsHold(slots', srvs[..k + 1])
  {
    var r := srvs[k];
    var was := if slots[r.priority].Some? then slots[r.priority].value else [];
    assert was + [] == was;
    SlotsPush(slots, slots', srvs[..k], r);
    assert srvs[..k + 1] == srvs[..k] + [r];
  }

  /** `srv_targets`: the array indexed by priority, nil where no record has it. */
  method FillSlots(srvs: seq<Record>) returns (slots: seq<Option<seq<Entry>>>)
    ensures SlotsHold(slots, srvs)
  {
    hide SlotsHold;
    slots := [];
    NoSlots();
    assert srvs[..0] == [];
    for k := 0 to |srvs|
      invariant SlotsHold(slots, srvs[..k])
    {
      var srv := srvs[k];
      while |slots| <= srv.priority
        invariant SlotsHold(slots, srvs[..k])
        decreases srv.priority - |slots|
      {
        SlotsGrow(slots, srvs[..k]);
        slots := slots + [None];
      }
      ghost var before := slots;
      if slots[srv.priority].None? { slots := slots[srv.priority := Some([])]; }
      if srv.resolved.Some? {
        slots := slots[srv.priority := Some(slots[srv.priority].value + [Entry(srv.weight, srv.resolved.value)])];
      }
      SlotsPushed(before, slots, srvs, k);
    }
    assert srvs[..|srvs|] == srvs;
  }

  lemma NoSlots()
    ensures SlotsHold([], [])
  {}

  /** `select! {|e| e and e.size > 0}` */
  method SelectGroups(slots: seq<Option<seq<Entry>>>, ghost srvs: seq<Record>) returns (groups: seq<seq<Entry>>)
    requires SlotsHold(slots, srvs)
    ensures groups == Groups(srvs, 0, |slots|)
  {
    hide Slot, Groups, Below;
    groups := [];
    NoGroups(srvs);
    for p := 0 to |slots|
      invariant groups == Groups(srvs, 0, p)
    {
      GroupsSnoc(srvs, 0, p);
      if slots[p].Some? && |slots[p].value| > 0 { groups := groups + [slots[p].value]; }
    }
  }

  lemma NoGroups(rs: seq<Record>)
    ensures Groups(rs, 0, 0) == []
  {}

  /** The part of `resolve_SRV` behind the address lookups. */
  method GroupRecords(srvs: seq<Record>) returns (r: Result, hi: nat)
    ensures Below(srvs, hi)
    ensures var gs := Groups(srvs, 0, hi);
      r == if gs == [] then Nothing
           else if |gs| == 1 && |gs[0]| == 1 then Plain(gs[0][0].targets)
           else Grouped(gs)
  {
    hide Slot, Groups;
    var slots := FillSlots(srvs);
    hi := |slots|;
    var groups: seq<seq<Entry>> := SelectGroups(slots, srvs);
    if |groups| == 0 {
      r := Nothing;
    } else if |groups| == 1 && |groups[0]| == 1 {
      r := Plain(groups[0][0].targets);
    } else {
      r := Grouped(groups);
    }
  }

  // ---- Randomizing ----

  /** An array of entries. */
  class EntryArray {
    var entries: seq<Entry>

    constructor (entries: seq<Entry>)
      ensures this.entries == entries
    {
      this.entries := entries;
    }

    method DeleteAt(i: nat)
      requires i < |entries|
      modifies this
      ensures entries == Remove(old(entries), i)
    {
      entries := entries[..i] + entries[i + 1..];
    }
  }

  /** `SrvRandomizedTargets` */
  class TargetList {
    var items: seq<Item>

    constructor ()
      ensures items == []
    {
      items := [];
    }

    method AppendEach(targets: seq<Target>)
      modifies this
      ensures items == old(items) + Ones(targets)
    {
      for k := 0 to |targets|
        invariant items == old(items) + Ones(targets[..k])
      {
        items := items + [One(targets[k])];
        assert Ones(targets[..k + 1]) == Ones(targets[..k]) + [One(targets[k])];
      }
      assert targets[..|targets|] == targets;
    }

    method AppendWholes(es: seq<Entry>)
      modifies this
      ensures items == old(items) + Wholes(es)
    {
      for k := 0 to |es|
        invariant items == old(items) + Wholes(es[..k])
      {
        items := items + [Whole(es[k].targets)];
        WholesStep(es, k);
      }
      assert es[..|es|] == es;
    }
  }

  lemma WholesStep(es: seq<Entry>, k: nat)
    requires k < |es|
    ensures Wholes(es[..k + 1]) == Wholes(es[..k]) + [Whole(es[k].targets)]
  {}

  lemma PickFrom(es: seq<Entry>, i: nat, rnd: nat)
    requires i < |es|
    ensures Pick(es[i..], rnd) == if rnd < es[i].weight then 0 else 1 + Pick(es[i + 1..], rnd - es[i].weight)
  {
    assert es[i..][1..] == es[i + 1..];
  }

  /** The sum that is handed to `rand`. */
  method TotalWeight(entries: EntryArray) returns (total: nat)
    ensures total == Total(entries.entries)
  {
    var k := 0;
    total := 0;
    while k < |entries.entries|
      invariant 0 <= k <= |entries.entries| && total + Total(entries.entries[k..]) == Total(entries.entries)
    {
      assert entries.entries[k..][1..] == entries.entries[k + 1..];
      total, k := total + entries.entries[k].weight, k + 1;
    }
  }

  /** The loop that looks for the entry a drawn number falls on. */
  method TakeDrawn(entries: EntryArray, ordered: TargetList, drawn: nat)
    requires Pick(entries.entries, drawn) < |entries.entries| && entries.entries != []
    modifies entries, ordered
    ensures var es, i := old(entries.entries), Pick(old(entries.entries), drawn);
      entries.entries == Remove(es, i) && ordered.items == old(ordered.items) + Ones(es[i].targets)
  {
    hide Pick, Ones;
    ghost var es := entries.entries;
    var rnd: nat, i: nat := drawn, 0;
    assert es[0..] == es;
    while i < |entries.entries|
      invariant 0 <= i <= |es| && entries.entries == es && ordered.items == old(ordered.items)
      invariant Pick(es, drawn) == i + Pick(es[i..], rnd)
      decreases |entries.entries| - i
    {
      var entry := entries.entries[i];
      PickFrom(es, i, rnd);
      if rnd < entry.weight {
        ordered.AppendEach(entry.targets);
        entries.DeleteAt(i);
        return;
      }
      rnd, i := rnd - entry.weight, i + 1;
    }
    assert false;
  }

  lemma OnesConcat(a: seq<Target>, b: seq<Target>)
    ensures Ones(a + b) == Ones(a) + Ones(b)
  {}

  lemma FlatHead(e: Entry, es: seq<Entry>)
    ensures Flat([e] + es) == e.targets + Flat(es)
  {
    assert ([e] + es)[1..] == es;
  }

  lemma OrderStep(es: seq<Entry>, draws: seq<nat>)
    requires es != [] && Draws(es, draws)
    ensures var i := Pick(es, draws[0]);
      && Draws(Remove(es, i), draws[1..]) && draws[0] < Total(es)
      && Ones(Flat(Order(es, draws))) == Ones(es[i].targets) + Ones(Flat(Order(Remove(es, i), draws[1..])))
  {
    hide Flat, Ones;
    var i := Pick(es, draws[0]);
    PickFound(es, draws[0]);
    var rest := Order(Remove(es, i), draws[1..]);
    FlatHead(es[i], rest);
    OnesConcat(es[i].targets, Flat(rest));
  }

  /** `randomize_entries`: draws are the results of `rand`. The array is emptied, the list appended to. */
  method RandomizeEntries(entries: EntryArray, ordered: TargetList, draws: seq<nat>)
    requires Draws(entries.entries, draws)
    modifies entries, ordered
    ensures entries.entries == []
    ensures ordered.items == old(ordered.items) + Ones(Flat(Order(old(entries.entries), draws)))
    decreases |entries.entries|
  {
    hide Order, Ones, Flat, Total;
    var totalWeight := TotalWeight(entries);
    if |entries.entries| == 0 {
      NothingOrdered(draws);
      return;
    }
    OrderStep(entries.entries, draws);
    assert draws[0] < totalWeight;
    TakeDrawn(entries, ordered, draws[0]);
    RandomizeEntries(entries, ordered, draws[1..]);
  }

  lemma NothingOrdered(draws: seq<nat>)
    requires Draws([], draws)
    ensures Ones(Flat(Order([], draws))) == []
  {}

  function Contents(groups: seq<EntryArray>): (r: seq<seq<Entry>>)
    reads groups
    ensures |r| == |groups| && forall g :: 0 <= g < |groups| ==> r[g] == groups[g].entries
  {
    if groups == [] then [] else [groups[0].entries] + Contents(groups[1..])
  }

  lemma {:induction false} RandomizedSnoc(gs: seq<seq<Entry>>, chs: seq<Chance>, k: nat)
    requires ChancesFor(gs, chs) && k < |gs|
    ensures ChancesFor(gs[..k], chs[..k]) && ChancesFor(gs[..k + 1], chs[..k + 1]) && ChanceFor(gs[k], chs[k])
    ensures Randomized(gs[..k + 1], chs[..k + 1]) == Randomized(gs[..k], chs[..k]) + Block(gs[k], chs[k])
  {
    GroupsInOrder(gs[..k + 1], chs[..k + 1], k);
    assert gs[..k + 1][..k] == gs[..k] && chs[..k + 1][..k] == chs[..k];
    assert gs[..k + 1][k + 1..] == [];
  }

  /** `SrvTargets#randomize`. Nothing is modified: the entries a group is selected into are copies, so a
      result kept in the DNS cache stays as it was resolved. */
  method Randomize(groups: seq<EntryArray>, chs: seq<Chance>) returns (ordered: TargetList)
    requires ChancesFor(Contents(groups), chs)
    ensures fresh(ordered) && ordered.items == Randomized(Contents(groups), chs)
    ensures Contents(groups) == old(Contents(groups))
  {
    hide Randomized, Block, ChanceFor, ChancesFor, Contents;
    ordered := new TargetList();
    ghost var gs := Contents(groups);
    NothingRandomized(gs, chs);
    for k := 0 to |groups|
      invariant fresh(ordered) && Contents(groups) == gs
      invariant ChancesFor(gs[..k], chs[..k]) && ordered.items == Randomized(gs[..k], chs[..k])
    {
      RandomizedSnoc(gs, chs, k);
      RandomizeGroup(groups[k], chs[k], ordered);
    }
    assert gs[..|gs|] == gs && chs[..|gs|] == chs;
  }

  lemma NothingRandomized(gs: seq<seq<Entry>>, chs: seq<Chance>)
    requires ChancesFor(gs, chs)
    ensures |chs| == |gs| && ChancesFor(gs[..0], chs[..0]) && Randomized(gs[..0], chs[..0]) == []
  {}

  /** The body of the loop over the groups. */
  method RandomizeGroup(entries: EntryArray, ch: Chance, ordered: TargetList)
    requires ChanceFor(entries.entries, ch)
    modifies ordered
    ensures ordered.items == old(ordered.items) + Block(entries.entries, ch)
  {
    hide Order, Flat, Draws, Ones, WithWeight, Weightless;
    var es := entries.entries;
    if |es| == 1 {
      ordered.AppendEach(es[0].targets);
    } else {
      var selected := new EntryArray(WithWeight(es));
      RandomizeEntries(selected, ordered, ch.draws);
      ordered.AppendWholes(ch.shuffled);
    }
  }

  // ---- Several resolutions joined ----

  /** An element of `MultiTargets` and what is drawn when it is randomized. */
  datatype Element = Direct(target: Target) | Srv(groups: seq<seq<Entry>>, chs: seq<Chance>)

  predicate Drawable(ms: seq<Element>) {
    forall i :: 0 <= i < |ms| ==> ms[i].Srv? ==> ChancesFor(ms[i].groups, ms[i].chs)
  }

  function Flattened(ms: seq<Element>): seq<Item>
    requires Drawable(ms)
  {
    if ms == [] then []
    else (match ms[0] case Direct(t) => [One(t)] case Srv(gs, chs) => Randomized(gs, chs)) + Flattened(ms[1..])
  }

  function Within(ms: seq<Element>): seq<Target> {
    if ms == [] then []
    else (match ms[0] case Direct(t) => [t] case Srv(gs, _) => AllTargets(gs)) + Within(ms[1..])
  }

  /** `MultiTargets#flatten` keeps every target, each SRV result being randomized where it stands. */
  lemma {:induction false} FlattenKeepsTargets(ms: seq<Element>)
    requires Drawable(ms)
    ensures multiset(Targets(Flattened(ms))) == multiset(Within(ms))
    decreases |ms|
  {
    if ms != [] {
      FlattenKeepsTargets(ms[1..]);
      match ms[0]
      case Direct(t) =>
        TargetsConcat([One(t)], Flattened(ms[1..]));
        assert [One(t)][1..] == [] && Targets([One(t)]) == [t] + [];
      case Srv(gs, chs) =>
        TargetsConcat(Randomized(gs, chs), Flattened(ms[1..]));
        EveryTargetOnce(gs, chs);
    }
  }
}
