/** Selection among SRV targets (RFC 2782): grouping by priority and randomizing by weight, as
    lib/oversip/sip/rfc3263.rb does it. */
module Srv {

  type Target = string

  /** `SrvWeightTarget`: a weight and the addresses its domain resolved to. */
  datatype Entry = Entry(weight: nat, targets: seq<Target>)

  /** What ends up in the list: a target, or a list of targets pushed as one element. */
  datatype Item = One(target: Target) | Whole(targets: seq<Target>)

  function Total(es: seq<Entry>): nat { if es == [] then 0 else es[0].weight + Total(es[1..]) }

  function Remove(es: seq<Entry>, i: nat): (r: seq<Entry>)
    requires i < |es|
    ensures |r| == |es| - 1
  {
    es[..i] + es[i + 1..]
  }

  // ---- The draw ----

  /** The entry a drawn number falls on; beyond the last one when it falls on none. */
  function Pick(es: seq<Entry>, rnd: nat): (i: nat)
    ensures i <= |es|
  {
    if es == [] then 0
    else if rnd < es[0].weight then 0
    else 1 + Pick(es[1..], rnd - es[0].weight)
  }

  function Before(es: seq<Entry>, i: nat): nat
    requires i <= |es|
  {
    if i == 0 then 0 else es[0].weight + Before(es[1..], i - 1)
  }

  /** Entry i owns the numbers from the sum of the weights before it, as many as its weight. */
  lemma {:induction false} PickOwns(es: seq<Entry>, rnd: nat, i: nat)
    requires i < |es|
    ensures Pick(es, rnd) == i <==> Before(es, i) <= rnd < Before(es, i) + es[i].weight
    ensures Before(es, i) + es[i].weight <= Total(es)
    decreases i
  {
    if i > 0 {
      if rnd >= es[0].weight {
        PickOwns(es[1..], rnd - es[0].weight, i - 1);
      } else {
        PickOwns(es[1..], 0, i - 1);
      }
    } else {
      assert Before(es, 0) == 0;
    }
  }

  lemma {:induction false} PickFound(es: seq<Entry>, rnd: nat)
    ensures Pick(es, rnd) < |es| <==> rnd < Total(es)
    decreases |es|
  {
    if es != [] && rnd >= es[0].weight {
      PickFound(es[1..], rnd - es[0].weight);
    }
  }

  /** The numbers of `rand(total)` that select entry i. */
  function DrawsFor(es: seq<Entry>, i: nat): set<nat> {
    set rnd: nat | rnd < Total(es) && Pick(es, rnd) == i
  }

  lemma {:induction false} IntervalSize(from: nat, n: nat, s: set<nat>)
    requires forall x: nat :: x in s <==> from <= x < from + n
    ensures |s| == n
    decreases n
  {
    if n > 0 {
      var last := from + n - 1;
      IntervalSize(from, n - 1, s - {last});
    } else {
      assert s == {};
    }
  }

  /** Exact weighting: of the numbers that may be drawn, entry i is selected by exactly weight_i. */
  lemma ExactWeighting(es: seq<Entry>, i: nat)
    requires i < |es|
    ensures |DrawsFor(es, i)| == es[i].weight
    ensures forall rnd: nat :: rnd < Total(es) ==> Pick(es, rnd) < |es|
  {
    forall rnd: nat ensures rnd in DrawsFor(es, i) <==> Before(es, i) <= rnd < Before(es, i) + es[i].weight {
      PickOwns(es, rnd, i);
    }
    IntervalSize(Before(es, i), es[i].weight, DrawsFor(es, i));
    forall rnd: nat | rnd < Total(es) ensures Pick(es, rnd) < |es| { PickFound(es, rnd); }
  }

  // ---- A group ----

  predicate Positive(es: seq<Entry>) { forall i :: 0 <= i < |es| ==> es[i].weight > 0 }

  /** The results `rand` may give over the recursion on es. */
  predicate Draws(es: seq<Entry>, draws: seq<nat>)
    decreases |es|
  {
    if es == [] then draws == []
    else draws != [] && Pick(es, draws[0]) < |es| && Draws(Remove(es, Pick(es, draws[0])), draws[1..])
  }

  /** The entries in the order in which they are selected. */
  function Order(es: seq<Entry>, draws: seq<nat>): seq<Entry>
    requires Draws(es, draws)
    decreases |es|
  {
    if es == [] then [] else
      var i := Pick(es, draws[0]);
      [es[i]] + Order(Remove(es, i), draws[1..])
  }

  lemma RemoveCounts(es: seq<Entry>, i: nat)
    requires i < |es|
    ensures multiset(Remove(es, i)) + multiset{es[i]} == multiset(es)
  {
    assert es == es[..i] + [es[i]] + es[i + 1..];
  }

  lemma TailCounts(a: seq<Entry>, b: seq<Entry>, i: nat)
    requires a != [] && multiset(a) == multiset(b) && i < |b| && b[i] == a[0]
    ensures multiset(a[1..]) == multiset(Remove(b, i))
  {
    RemoveCounts(b, i);
    assert a == [a[0]] + a[1..];
    assert multiset(a[1..]) == multiset(a) - multiset{a[0]};
    assert multiset(Remove(b, i)) == multiset(b) - multiset{b[i]};
  }

  lemma {:induction false} OrderPermutes(es: seq<Entry>, draws: seq<nat>)
    requires Draws(es, draws)
    ensures multiset(Order(es, draws)) == multiset(es)
    decreases |es|
  {
    if es != [] {
      var i := Pick(es, draws[0]);
      RemoveCounts(es, i);
      OrderPermutes(Remove(es, i), draws[1..]);
    }
  }

  /** Every order is the outcome of some draws: no entry with a positive weight is ever shut out. */
  lemma {:induction false} EveryOrderPossible(es: seq<Entry>, order: seq<Entry>) returns (draws: seq<nat>)
    requires Positive(es) && multiset(order) == multiset(es)
    ensures Draws(es, draws) && Order(es, draws) == order
    decreases |es|
  {
    if es == [] {
      assert |multiset(order)| == |order| && |multiset(es)| == 0;
      draws := [];
    } else {
      assert order != [] by { assert es[0] in multiset(es); }
      assert order[0] in multiset(order);
      var i :| 0 <= i < |es| && es[i] == order[0];
      PickOwns(es, Before(es, i), i);
      TailCounts(order, es, i);
      var rest := EveryOrderPossible(Remove(es, i), order[1..]);
      draws := [Before(es, i)] + rest;
      assert draws[1..] == rest;
    }
  }

  function Flat(es: seq<Entry>): seq<Target> {
    if es == [] then [] else es[0].targets + Flat(es[1..])
  }

  function Ones(ts: seq<Target>): (r: seq<Item>)
    ensures |r| == |ts|
  {
    seq(|ts|, i requires 0 <= i < |ts| => One(ts[i]))
  }

  function Wholes(es: seq<Entry>): (r: seq<Item>)
    ensures |r| == |es|
  {
    seq(|es|, i requires 0 <= i < |es| => Whole(es[i].targets))
  }

  function WithWeight(es: seq<Entry>): seq<Entry> {
    if es == [] then [] else (if es[0].weight > 0 then [es[0]] else []) + WithWeight(es[1..])
  }

  function Weightless(es: seq<Entry>): seq<Entry> {
    if es == [] then [] else (if es[0].weight > 0 then [] else [es[0]]) + Weightless(es[1..])
  }

  /** The outcomes of `rand` and `shuffle` for one group. */
  datatype Chance = Chance(draws: seq<nat>, shuffled: seq<Entry>)

  predicate ChanceFor(es: seq<Entry>, ch: Chance) {
    |es| != 1 ==> Draws(WithWeight(es), ch.draws) && multiset(ch.shuffled) == multiset(Weightless(es))
  }

  function Block(es: seq<Entry>, ch: Chance): seq<Item>
    requires ChanceFor(es, ch)
  {
    if |es| == 1 then Ones(es[0].targets)
    else Ones(Flat(Order(WithWeight(es), ch.draws))) + Wholes(ch.shuffled)
  }

  predicate ChancesFor(groups: seq<seq<Entry>>, chs: seq<Chance>) {
    |chs| == |groups| && forall g :: 0 <= g < |groups| ==> ChanceFor(groups[g], chs[g])
  }

  function Randomized(groups: seq<seq<Entry>>, chs: seq<Chance>): seq<Item>
    requires ChancesFor(groups, chs)
  {
    if groups == [] then [] else Block(groups[0], chs[0]) + Randomized(groups[1..], chs[1..])
  }

  // ---- Every target once ----

  /** The targets of a list, a list pushed whole read as its elements. */
  function Targets(items: seq<Item>): seq<Target> {
    if items == [] then []
    else (match items[0] case One(t) => [t] case Whole(ts) => ts) + Targets(items[1..])
  }

  lemma {:induction false} TargetsConcat(a: seq<Item>, b: seq<Item>)
    ensures Targets(a + b) == Targets(a) + Targets(b)
    decreases |a|
  {
    if a == [] {
      assert a + b == b;
    } else {
      assert (a + b)[1..] == a[1..] + b;
      TargetsConcat(a[1..], b);
    }
  }

  lemma {:induction false} TargetsOfOnes(ts: seq<Target>)
    ensures Targets(Ones(ts)) == ts
    decreases |ts|
  {
    if ts != [] {
      assert Ones(ts)[1..] == Ones(ts[1..]);
      TargetsOfOnes(ts[1..]);
    }
  }

  lemma {:induction false} TargetsOfWholes(es: seq<Entry>)
    ensures Targets(Wholes(es)) == Flat(es)
    decreases |es|
  {
    if es != [] {
      assert Wholes(es)[1..] == Wholes(es[1..]);
      TargetsOfWholes(es[1..]);
    }
  }

  lemma FlatCons(e: Entry, es: seq<Entry>)
    ensures multiset(Flat([e] + es)) == multiset(e.targets) + multiset(Flat(es))
  {
    assert ([e] + es)[1..] == es;
  }

  lemma {:induction false} FlatRemove(es: seq<Entry>, i: nat)
    requires i < |es|
    ensures multiset(Flat(es)) == multiset(Flat(Remove(es, i))) + multiset(es[i].targets)
    decreases i
  {
    hide Flat;
    FlatCons(es[0], es[1..]);
    assert [es[0]] + es[1..] == es;
    if i == 0 {
      assert Remove(es, 0) == es[1..];
    } else {
      FlatRemove(es[1..], i - 1);
      FlatCons(es[0], Remove(es[1..], i - 1));
      assert Remove(es, i) == [es[0]] + Remove(es[1..], i - 1);
    }
  }

  /** The targets of entries depend on their order only up to order. */
  lemma {:induction false} FlatPermutes(a: seq<Entry>, b: seq<Entry>)
    requires multiset(a) == multiset(b)
    ensures multiset(Flat(a)) == multiset(Flat(b))
    decreases |a|
  {
    if a == [] {
      assert |multiset(b)| == 0;
    } else {
      assert a[0] in multiset(b);
      var i :| 0 <= i < |b| && b[i] == a[0];
      TailCounts(a, b, i);
      FlatPermutes(a[1..], Remove(b, i));
      FlatRemove(b, i);
    }
  }

  function Count(es: seq<Entry>, t: Target): nat { multiset(Flat(es))[t] }

  lemma CountStep(es: seq<Entry>, t: Target)
    requires es != []
    ensures Count(es, t) == multiset(es[0].targets)[t] + Count(es[1..], t)
  {
    FlatCons(es[0], es[1..]);
    assert [es[0]] + es[1..] == es;
  }

  lemma CountSplit(es: seq<Entry>, t: Target)
    requires es != []
    ensures var n := multiset(es[0].targets)[t];
      && Count(WithWeight(es), t) == Count(WithWeight(es[1..]), t) + (if es[0].weight > 0 then n else 0)
      && Count(Weightless(es), t) == Count(Weightless(es[1..]), t) + (if es[0].weight > 0 then 0 else n)
  {
    hide Flat;
    if es[0].weight > 0 {
      FlatCons(es[0], WithWeight(es[1..]));
      assert Weightless(es) == Weightless(es[1..]);
    } else {
      FlatCons(es[0], Weightless(es[1..]));
      assert WithWeight(es) == WithWeight(es[1..]);
    }
  }

  lemma {:induction false} SplitCount(es: seq<Entry>, t: Target)
    ensures Count(WithWeight(es), t) + Count(Weightless(es), t) == Count(es, t)
    decreases |es|
  {
    if es != [] {
      hide Count, WithWeight, Weightless;
      SplitCount(es[1..], t);
      CountStep(es, t);
      CountSplit(es, t);
    }
  }

  lemma SplitCounts(es: seq<Entry>)
    ensures multiset(Flat(WithWeight(es))) + multiset(Flat(Weightless(es))) == multiset(Flat(es))
  {
    hide Flat, WithWeight, Weightless;
    var m, n := multiset(Flat(WithWeight(es))) + multiset(Flat(Weightless(es))), multiset(Flat(es));
    forall t ensures m[t] == n[t] { SplitCount(es, t); }
    assert m == n;
  }

  lemma BlockTargets(es: seq<Entry>, ch: Chance)
    requires ChanceFor(es, ch)
    ensures multiset(Targets(Block(es, ch))) == multiset(Flat(es))
  {
    if |es| == 1 {
      TargetsOfOnes(es[0].targets);
      assert Flat(es) == es[0].targets + Flat(es[1..]) == es[0].targets;
    } else {
      var order := Order(WithWeight(es), ch.draws);
      TargetsConcat(Ones(Flat(order)), Wholes(ch.shuffled));
      TargetsOfOnes(Flat(order));
      TargetsOfWholes(ch.shuffled);
      OrderPermutes(WithWeight(es), ch.draws);
      FlatPermutes(order, WithWeight(es));
      FlatPermutes(ch.shuffled, Weightless(es));
      SplitCounts(es);
    }
  }

  function AllTargets(groups: seq<seq<Entry>>): seq<Target> {
    if groups == [] then [] else Flat(groups[0]) + AllTargets(groups[1..])
  }

  /** Whatever is drawn: every resolved target comes out exactly once. */
  lemma {:induction false} EveryTargetOnce(groups: seq<seq<Entry>>, chs: seq<Chance>)
    requires ChancesFor(groups, chs)
    ensures multiset(Targets(Randomized(groups, chs))) == multiset(AllTargets(groups))
    decreases |groups|
  {
    if groups != [] {
      BlockTargets(groups[0], chs[0]);
      EveryTargetOnce(groups[1..], chs[1..]);
      TargetsConcat(Block(groups[0], chs[0]), Randomized(groups[1..], chs[1..]));
    }
  }

  /** The same cached result always yields a permutation of the same targets. */
  lemma SameTargetsEveryTime(groups: seq<seq<Entry>>, chs: seq<Chance>, chs': seq<Chance>)
    requires ChancesFor(groups, chs) && ChancesFor(groups, chs')
    ensures multiset(Targets(Randomized(groups, chs))) == multiset(Targets(Randomized(groups, chs')))
  {
    EveryTargetOnce(groups, chs);
    EveryTargetOnce(groups, chs');
  }

  /** Groups come one after the other, each as a whole. */
  lemma {:induction false} GroupsInOrder(groups: seq<seq<Entry>>, chs: seq<Chance>, g: nat)
    requires ChancesFor(groups, chs) && g < |groups|
    ensures Randomized(groups, chs)
         == Randomized(groups[..g], chs[..g]) + (Block(groups[g], chs[g]) + Randomized(groups[g + 1..], chs[g + 1..]))
    decreases g
  {
    hide Block;
    if g == 0 {
      assert groups[..0] == [] && Randomized(groups[..0], chs[..0]) == [];
    } else {
      var gs, cs := groups[1..], chs[1..];
      GroupsInOrder(gs, cs, g - 1);
      TakeTail(groups, g);
      TakeTail(chs, g);
    }
  }

  lemma TakeTail<T>(s: seq<T>, g: nat)
    requires 0 < g < |s|
    ensures s[..g][0] == s[0] && s[..g][1..] == s[1..][..g - 1] && s[1..][g..] == s[g + 1..] && s[1..][g - 1] == s[g]
  {}

  /** In a group of several entries, those with a positive weight come before those without. */
  lemma PositiveBeforeZero(es: seq<Entry>, ch: Chance)
    requires ChanceFor(es, ch) && |es| != 1
    ensures var k := |Flat(WithWeight(es))|;
      && k <= |Block(es, ch)|
      && multiset(Targets(Block(es, ch)[..k])) == multiset(Flat(WithWeight(es)))
      && multiset(Targets(Block(es, ch)[k..])) == multiset(Flat(Weightless(es)))
  {
    var order := Order(WithWeight(es), ch.draws);
    OrderPermutes(WithWeight(es), ch.draws);
    FlatPermutes(order, WithWeight(es));
    FlatPermutes(ch.shuffled, Weightless(es));
    assert |multiset(Flat(order))| == |Flat(order)|;
    assert |multiset(Flat(WithWeight(es)))| == |Flat(WithWeight(es))|;
    var k := |Flat(order)|;
    assert Block(es, ch)[..k] == Ones(Flat(order)) && Block(es, ch)[k..] == Wholes(ch.shuffled);
    TargetsOfOnes(Flat(order));
    TargetsOfWholes(ch.shuffled);
  }

  // ---- When the list is flat ----

  predicate AllOne(items: seq<Item>) { forall i :: 0 <= i < |items| ==> items[i].One? }

  predicate HasWeightless(es: seq<Entry>) { exists i :: 0 <= i < |es| && es[i].weight == 0 }

  lemma {:induction false} WeightlessIff(es: seq<Entry>)
    ensures Weightless(es) != [] <==> HasWeightless(es)
    decreases |es|
  {
    if es != [] {
      WeightlessIff(es[1..]);
      if es[0].weight > 0 {
        if HasWeightless(es) {
          var i :| 0 <= i < |es| && es[i].weight == 0;
          assert es[1..][i - 1].weight == 0;
        }
        if HasWeightless(es[1..]) {
          var i :| 0 <= i < |es[1..]| && es[1..][i].weight == 0;
          assert es[i + 1].weight == 0;
        }
      }
    }
  }

  lemma BlockFlatIff(es: seq<Entry>, ch: Chance)
    requires ChanceFor(es, ch)
    ensures AllOne(Block(es, ch)) <==> |es| == 1 || !HasWeightless(es)
  {
    if |es| != 1 {
      WeightlessIff(es);
      assert |multiset(ch.shuffled)| == |ch.shuffled| && |multiset(Weightless(es))| == |Weightless(es)|;
      var k := |Flat(Order(WithWeight(es), ch.draws))|;
      if ch.shuffled != [] {
        assert Block(es, ch)[k].Whole?;
      }
    }
  }

  lemma AllOneConcat(a: seq<Item>, b: seq<Item>)
    ensures AllOne(a + b) <==> AllOne(a) && AllOne(b)
  {
    if AllOne(a + b) {
      forall i | 0 <= i < |a| ensures a[i].One? { assert (a + b)[i].One?; }
      forall i | 0 <= i < |b| ensures b[i].One? { assert (a + b)[|a| + i].One?; }
    }
  }

  /** The list holds nothing but targets exactly when no group of several entries has one of weight zero. */
  lemma {:induction false} FlatIffNoWeightless(groups: seq<seq<Entry>>, chs: seq<Chance>)
    requires ChancesFor(groups, chs)
    ensures AllOne(Randomized(groups, chs))
       <==> forall g :: 0 <= g < |groups| ==> |groups[g]| == 1 || !HasWeightless(groups[g])
    decreases |groups|
  {
    if groups != [] {
      var rest := groups[1..];
      BlockFlatIff(groups[0], chs[0]);
      FlatIffNoWeightless(rest, chs[1..]);
      AllOneConcat(Block(groups[0], chs[0]), Randomized(rest, chs[1..]));
      assert forall g :: 0 < g < |groups| ==> groups[g] == rest[g - 1];
      assert forall g :: 0 <= g < |rest| ==> rest[g] == groups[g + 1];
    }
  }
}
