/** Serial failover over the targets of an RFC 3263 resolution (lib/oversip/sip/client.rb). */
module Failover {
  import opened Wrappers

  type Target = string

  /** A received response, its status code apart. */
  datatype Response = Response(code: nat, rest: string)

  /** What `try_next_target` is called with: why the target before failed. */
  datatype Why = Why(status: nat, reason: string, full: Option<Response>)

  const NO_REASON := Why(0, "", None)
  const ABORTED_WHY := Why(403, "Destination Aborted", None)

  /** The blacklist, and what the user's `on_target` callbacks do, while one call runs. */
  datatype Env = Env(blacklist: map<Target, Why>, aborts: set<Target>)

  datatype Visit = Used(target: Target) | Skipped(target: Target) | Aborted(target: Target)

  /** The three kinds of resolution results come down to a target or a list of targets. */
  datatype Resolution = One(target: Target) | Many(targets: seq<Target>)

  /** `@target` and `@targets` are never both set. visits records the targets looked at since. */
  datatype Client = Client(goals: Option<Resolution>, num: nat, aborted: bool, visits: seq<Visit>)

  datatype Outcome = Launch(target: Target) | NoMore(why: Why)

  /** `rfc3263_succeeded` before its call of `try_next_target`. */
  function Resolved(c: Client, r: Resolution): Client { c.(goals := Some(r), num := 0, visits := []) }

  function All(r: Resolution): seq<Target> {
    match r case One(t) => [t] case Many(ts) => ts
  }

  function Left(c: Client): nat {
    if c.goals.Some? && c.num < |All(c.goals.value)| then |All(c.goals.value)| - c.num else 0
  }

  function TryNext(env: Env, c: Client, why: Why): (Client, Outcome)
    decreases Left(c), 0
  {
    if c.goals.Some? && c.goals.value.One? && c.num == 0 then
      UseTarget(env, c.(num := 1), c.goals.value.target)
    else if c.goals.Some? && c.goals.value.Many? && c.num < |c.goals.value.targets| then
      UseTarget(env, c.(num := c.num + 1), c.goals.value.targets[c.num])
    else (c, NoMore(why))
  }

  function UseTarget(env: Env, c: Client, t: Target): (Client, Outcome)
    decreases Left(c), 1
  {
    if t in env.blacklist then
      TryNext(env, c.(visits := c.visits + [Skipped(t)]), env.blacklist[t])
    else if c.aborted || t in env.aborts then
      TryNext(env, c.(aborted := false, goals := None, visits := c.visits + [Aborted(t)]), ABORTED_WHY)
    else (c.(visits := c.visits + [Used(t)]), Launch(t))
  }

  // ---- What the recursion amounts to ----

  /** The targets still to be tried. */
  function Remaining(c: Client): seq<Target> {
    if c.goals.Some? && c.num < |All(c.goals.value)| then All(c.goals.value)[c.num..] else []
  }

  lemma Advance(c: Client, vs: seq<Visit>)
    requires Remaining(c) != []
    ensures var c1 := c.(num := c.num + 1, visits := vs);
      Remaining(c1) == Remaining(c)[1..] && Left(c1) < Left(c)
    ensures forall env, why :: TryNext(env, c, why) == UseTarget(env, c.(num := c.num + 1), Remaining(c)[0])
  {}

  lemma NothingRemains(env: Env, c: Client, why: Why)
    requires Remaining(c) == []
    ensures TryNext(env, c, why) == (c, NoMore(why))
  {}

  function Names(vs: seq<Visit>): seq<Target> {
    if vs == [] then [] else Names(vs[..|vs| - 1]) + [vs[|vs| - 1].target]
  }

  lemma NamesSnoc(vs: seq<Visit>, v: Visit)
    ensures Names(vs + [v]) == Names(vs) + [v.target]
  {
    assert (vs + [v])[..|vs|] == vs;
  }

  predicate AbortedLast(c: Client) { c.visits != [] && c.visits[|c.visits| - 1].Aborted? }

  /** The targets visited, in order, and those remaining make up the resolved list; after an abort nothing remains. */
  predicate InOrder(c: Client, all: seq<Target>) {
    || Names(c.visits) + Remaining(c) == all
    || (AbortedLast(c) && Names(c.visits) <= all && Remaining(c) == [])
  }

  /** The visits a call adds: blacklisted targets skipped, then at most one that is used or aborts routing. */
  predicate Added(env: Env, c: Client, c': Client, o: Outcome) {
    var n := |c.visits|;
    && c.visits <= c'.visits
    && ((c'.goals == c.goals && c'.aborted == c.aborted) || o == NoMore(ABORTED_WHY))
    && (forall i :: n <= i < |c'.visits| - 1 ==> c'.visits[i].Skipped? && c'.visits[i].target in env.blacklist)
    && (o.Launch? ==>
          && |c'.visits| > n && c'.visits[|c'.visits| - 1] == Used(o.target)
          && o.target !in env.blacklist && o.target !in env.aborts && !c.aborted)
    && (o.NoMore? && |c'.visits| > n ==>
          var v := c'.visits[|c'.visits| - 1];
          if v.Aborted? then
            && v.target !in env.blacklist && (c.aborted || v.target in env.aborts) && o.why == ABORTED_WHY
            && c'.goals == None && !c'.aborted
          else v.Skipped? && v.target in env.blacklist && o.why == env.blacklist[v.target])
  }

  /** One call of `try_next_target`, its recursion through `use_target` included: it goes on in the resolved
      order, skips blacklisted targets only, stops at the first usable one, and reports no more targets only
      if none remains or routing was aborted. */
  lemma {:induction false} TryNextInOrder(env: Env, c: Client, why: Why, all: seq<Target>)
    requires InOrder(c, all)
    ensures var (c', o) := TryNext(env, c, why);
      && InOrder(c', all) && Added(env, c, c', o)
      && (o.NoMore? ==> Remaining(c') == [] && (Names(c'.visits) == all || AbortedLast(c')))
      && (o.NoMore? && c'.visits == c.visits ==> o.why == why)
    decreases Left(c)
  {
    hide TryNext, Names, InOrder, Added, Remaining, Left;
    if Remaining(c) == [] {
      NothingRemains(env, c, why);
      NothingAdded(env, c, why, all);
    } else {
      var t, c1 := Remaining(c)[0], c.(num := c.num + 1);
      Advance(c, c.visits + [Skipped(t)]);
      assert TryNext(env, c, why) == UseTarget(env, c1, t);
      if t in env.blacklist {
        var c2 := c1.(visits := c1.visits + [Skipped(t)]);
        VisitKeeps(c, Skipped(t), all);
        TryNextInOrder(env, c2, env.blacklist[t], all);
        var (c', o) := TryNext(env, c2, env.blacklist[t]);
        SkipAdded(env, c, c2, c', o, t);
      } else if c.aborted || t in env.aborts {
        AbortKeeps(env, c, t, all);
        NothingRemains(env, c1.(aborted := false, goals := None, visits := c1.visits + [Aborted(t)]), ABORTED_WHY);
      } else {
        VisitKeeps(c, Used(t), all);
        UseAdded(env, c, t);
      }
    }
  }

  lemma NothingAdded(env: Env, c: Client, why: Why, all: seq<Target>)
    requires InOrder(c, all) && Remaining(c) == []
    ensures Added(env, c, c, NoMore(why)) && (Names(c.visits) == all || AbortedLast(c))
  {}

  lemma VisitKeeps(c: Client, v: Visit, all: seq<Target>)
    requires InOrder(c, all) && Remaining(c) != [] && v.target == Remaining(c)[0]
    ensures InOrder(c.(num := c.num + 1, visits := c.visits + [v]), all)
  {
    NamesSnoc(c.visits, v);
    Advance(c, c.visits + [v]);
  }

  lemma SkipAdded(env: Env, c: Client, c2: Client, c': Client, o: Outcome, t: Target)
    requires Added(env, c2, c', o) && t in env.blacklist
    requires c2.visits == c.visits + [Skipped(t)] && c2.aborted == c.aborted && c2.goals == c.goals
    requires o.NoMore? && c'.visits == c2.visits ==> o.why == env.blacklist[t]
    ensures Added(env, c, c', o) && c'.visits != c.visits
  {
    assert c2.visits[|c.visits|] == Skipped(t);
  }

  lemma AbortKeeps(env: Env, c: Client, t: Target, all: seq<Target>)
    requires InOrder(c, all) && Remaining(c) != [] && t == Remaining(c)[0]
    requires t !in env.blacklist && (c.aborted || t in env.aborts)
    ensures var c' := c.(num := c.num + 1, aborted := false, goals := None, visits := c.visits + [Aborted(t)]);
      InOrder(c', all) && AbortedLast(c') && Remaining(c') == [] && Added(env, c, c', NoMore(ABORTED_WHY))
  {
    NamesSnoc(c.visits, Aborted(t));
  }

  lemma UseAdded(env: Env, c: Client, t: Target)
    requires t !in env.blacklist && t !in env.aborts && !c.aborted
    ensures Added(env, c, c.(num := c.num + 1, visits := c.visits + [Used(t)]), Launch(t))
  {}

  // ---- The object ----

  class FailoverClient {
    var goals: Option<Resolution>
    var num: nat
    var aborted: bool
    var visits: seq<Visit>

    ghost function View(): Client
      reads this
    {
      Client(goals, num, aborted, visits)
    }

    constructor ()
      ensures View() == Client(None, 0, false, [])
    {
      goals, num, aborted, visits := None, 0, false, [];
    }

    method RFC3263Succeeded(env: Env, r: Resolution) returns (o: Outcome)
      modifies this
      ensures (View(), o) == TryNext(env, Resolved(old(View()), r), NO_REASON)
    {
      num := 0;
      goals := Some(r);
      visits := [];
      o := TryNextTarget(env, NO_REASON);
    }

    method TryNextTarget(env: Env, why: Why) returns (o: Outcome)
      modifies this
      ensures (View(), o) == TryNext(env, old(View()), why)
      decreases Left(View()), 0
    {
      if goals.Some? && goals.value.One? && num == 0 {
        num := 1;
        o := UseTargetNow(env, goals.value.target);
      } else if goals.Some? && goals.value.Many? && num < |goals.value.targets| {
        var current := goals.value.targets[num];
        num := num + 1;
        o := UseTargetNow(env, current);
      } else {
        o := NoMore(why);
      }
    }

    method UseTargetNow(env: Env, t: Target) returns (o: Outcome)
      modifies this
      ensures (View(), o) == UseTarget(env, old(View()), t)
      decreases Left(View()), 1
    {
      if t in env.blacklist {
        visits := visits + [Skipped(t)];
        o := TryNextTarget(env, env.blacklist[t]);
        return;
      }
      if aborted || t in env.aborts {
        aborted := false;
        goals := None;
        visits := visits + [Aborted(t)];
        o := TryNextTarget(env, ABORTED_WHY);
        return;
      }
      visits := visits + [Used(t)];
      o := Launch(t);
    }
  }
}
