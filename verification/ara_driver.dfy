/**
  The driver of the synchronous reasoning agents: the agents one at a time,
  each with its sequential phase of 15 lookups and then one gathered phase
  per concurrency level.
 */
module AraDriver {
  import opened Values
  import opened Calls
  import opened Stats
  import opened Registry
  import opened Phases
  import opened AggregatorPhases

  /** The lookup made at a site: one POST, reduced to its outcome. */
  function AraCall(net: Site -> Reply): Site -> CallResult {
    (s: Site) => Execute(net(s))
  }

  /** The plans of the agents, in list order. */
  function Plans(eps: seq<string>, call: Site -> CallResult): seq<Plan> {
    seq(|eps|, x requires 0 <= x < |eps| => PlanOf(eps[x], call))
  }

  /** The writes of several plans run one after another. */
  function AllWrites(plans: seq<Plan>): seq<Write>
    decreases |plans|
  {
    if |plans| == 0 then [] else PlanWrites(plans[0]) + AllWrites(plans[1..])
  }

  /** Every write `main` makes: the agents in order, each agent's runs
      complete before the next agent starts. */
  function Main(eps: seq<string>, net: Site -> Reply): seq<Write> {
    AllWrites(Plans(eps, AraCall(net)))
  }

  /** The agents the plans run at, in order. */
  function EndpointsOf(plans: seq<Plan>): seq<string> {
    seq(|plans|, x requires 0 <= x < |plans| => plans[x].endpoint)
  }

  /** The position of `e` in the agent list. */
  function Position(eps: seq<string>, e: string): (p: nat)
    requires e in eps
    ensures p < |eps| && eps[p] == e
    ensures forall y :: 0 <= y < p ==> eps[y] != e
  {
    if eps[0] == e then 0 else 1 + Position(eps[1..], e)
  }

  /** The log is serialized by agent: every write belongs to a listed agent,
      a write never follows one of a later agent, and within an agent a
      sequential write never follows a concurrent one. */
  predicate Serial(log: seq<Write>, eps: seq<string>) {
    && (forall a :: 0 <= a < |log| ==> log[a].endpoint in eps)
    && (forall a, b :: 0 <= a < b < |log| && log[a].endpoint in eps && log[b].endpoint in eps ==>
         Position(eps, log[a].endpoint) < Position(eps, log[b].endpoint)
         || (log[a].endpoint == log[b].endpoint && (log[a].mode == Concurrent ==> log[b].mode == Concurrent)))
  }

  predicate AllShaped(plans: seq<Plan>) {
    forall x :: 0 <= x < |plans| ==> Shaped(plans[x])
  }

  lemma RestShaped(plans: seq<Plan>)
    requires |plans| > 0 && AllShaped(plans)
    ensures AllShaped(plans[1..]) && Shaped(plans[0])
    ensures EndpointsOf(plans[1..]) == EndpointsOf(plans)[1..]
    ensures Distinct(EndpointsOf(plans)) ==> Distinct(EndpointsOf(plans[1..]))
  {
    var rest := plans[1..];
    forall x | 0 <= x < |rest| ensures Shaped(rest[x]) {
      assert rest[x] == plans[x + 1];
    }
  }

  /** One agent's writes: all under `ep`, and no sequential write after a
      concurrent one. */
  predicate AgentLog(log: seq<Write>, ep: string) {
    && (forall a :: 0 <= a < |log| ==> log[a].endpoint == ep)
    && (forall a, b :: 0 <= a < b < |log| && log[a].mode == Concurrent ==> log[b].mode == Concurrent)
  }

  lemma PlanIsAgentLog(p: Plan)
    requires Shaped(p)
    ensures AgentLog(PlanWrites(p), p.endpoint)
  {
    PlanShape(p);
  }

  /** One agent's writes followed by a serialized log of later agents form a
      serialized log. */
  lemma SerialCons(head: seq<Write>, ep: string, tail: seq<Write>, rest: seq<string>)
    requires AgentLog(head, ep) && Serial(tail, rest) && ep !in rest
    ensures Serial(head + tail, [ep] + rest)
  {
    var eps, log, n := [ep] + rest, head + tail, |head|;
    assert eps[1..] == rest;
    forall e | e in rest ensures Position(eps, e) == 1 + Position(rest, e) {
    }
    forall a | 0 <= a < |log| ensures log[a].endpoint in eps {
      if a >= n {
        assert log[a] == tail[a - n];
      }
    }
    forall a, b | 0 <= a < b < |log| && log[a].endpoint in eps && log[b].endpoint in eps
      ensures Position(eps, log[a].endpoint) < Position(eps, log[b].endpoint)
        || (log[a].endpoint == log[b].endpoint && (log[a].mode == Concurrent ==> log[b].mode == Concurrent))
    {
      if b < n {
        assert log[a] == head[a] && log[b] == head[b];
      } else if a < n {
        assert log[a] == head[a] && log[b] == tail[b - n];
      } else {
        assert log[a] == tail[a - n] && log[b] == tail[b - n];
      }
    }
  }

  /** Shaped plans run in order leave a serialized log. */
  lemma {:induction false} AllWritesSerial(plans: seq<Plan>)
    requires AllShaped(plans) && Distinct(EndpointsOf(plans))
    ensures Serial(AllWrites(plans), EndpointsOf(plans))
    decreases |plans|
  {
    if |plans| > 0 {
      var eps := EndpointsOf(plans);
      RestShaped(plans);
      AllWritesSerial(plans[1..]);
      PlanIsAgentLog(plans[0]);
      assert eps[0] !in eps[1..] by {
        forall y | 1 <= y < |eps| ensures eps[y] != eps[0] {
        }
      }
      assert eps == [eps[0]] + eps[1..];
      SerialCons(PlanWrites(plans[0]), eps[0], AllWrites(plans[1..]), eps[1..]);
    }
  }

  /** Shaped plans at distinct agents, run in order, each leave their own
      sequential entry and level slots; every endpoint no plan runs at keeps
      its entry. */
  lemma {:induction false} AllWritesEffect(reg: Registry, plans: seq<Plan>)
    requires AllShaped(plans) && Distinct(EndpointsOf(plans))
    ensures var r := ApplyAll(reg, AllWrites(plans));
      && (forall x :: 0 <= x < |plans| ==> EntryAt(r, Sequential, plans[x].endpoint) == Some(Whole(plans[x].stats)))
      && (forall x, l :: 0 <= x < |plans| && 0 <= l < |plans[x].levels| ==>
            SlotAt(r, Concurrent, plans[x].endpoint, plans[x].levels[l].key) == Some(Filled(plans[x].levels[l].stats)))
      && (forall m, e :: e !in EndpointsOf(plans) ==> EntryAt(r, m, e) == EntryAt(reg, m, e))
    decreases |plans|
  {
    if |plans| > 0 {
      var p, rest := plans[0], plans[1..];
      var mid := ApplyAll(reg, PlanWrites(p));
      var r := ApplyAll(reg, AllWrites(plans));
      ApplyAllAppend(reg, PlanWrites(p), AllWrites(rest));
      assert r == ApplyAll(mid, AllWrites(rest));
      RestShaped(plans);
      PlanEffect(reg, p);
      AllWritesEffect(mid, rest);
      var eps := EndpointsOf(plans);
      assert p.endpoint !in EndpointsOf(rest) by {
        forall y | 0 <= y < |rest| ensures EndpointsOf(rest)[y] != p.endpoint {
          assert EndpointsOf(rest)[y] == eps[y + 1] && p.endpoint == eps[0];
        }
      }
      forall x | 0 <= x < |plans|
        ensures EntryAt(r, Sequential, plans[x].endpoint) == Some(Whole(plans[x].stats))
        ensures forall l :: 0 <= l < |plans[x].levels| ==>
          SlotAt(r, Concurrent, plans[x].endpoint, plans[x].levels[l].key) == Some(Filled(plans[x].levels[l].stats))
      {
        if x > 0 {
          assert plans[x] == rest[x - 1];
        }
      }
      forall m, e | e !in eps ensures EntryAt(r, m, e) == EntryAt(reg, m, e) {
        assert e !in EndpointsOf(rest);
        assert e != p.endpoint by {
          assert eps[0] == p.endpoint;
        }
      }
    }
  }

  /** The agent plans run at the listed agents and are shaped. */
  lemma PlansShaped(eps: seq<string>, call: Site -> CallResult)
    ensures EndpointsOf(Plans(eps, call)) == eps
    ensures AllShaped(Plans(eps, call))
  {
    var plans := Plans(eps, call);
    forall x | 0 <= x < |eps| ensures plans[x].endpoint == eps[x] && Shaped(plans[x]) {
      PlanOfShaped(eps[x], call);
    }
  }

  /** Agents are processed strictly in order: each agent's sequential phase
      precedes its concurrent phases, and all of them precede the next
      agent's. */
  lemma MainIsSerial(eps: seq<string>, net: Site -> Reply)
    requires Distinct(eps)
    ensures Serial(Main(eps, net), eps)
  {
    PlansShaped(eps, AraCall(net));
    AllWritesSerial(Plans(eps, AraCall(net)));
  }

  /** The document the run leaves, from any starting document: for every
      agent, its sequential entry is the statistics of its 15 sequential
      lookups and each level's key holds the statistics of that level's
      gathered lookups. */
  lemma MainEffect(reg: Registry, eps: seq<string>, net: Site -> Reply)
    requires Distinct(eps)
    ensures var r := ApplyAll(reg, Main(eps, net));
      && (forall x :: 0 <= x < |eps| ==>
            EntryAt(r, Sequential, eps[x]) == Some(Whole(PlanOf(eps[x], AraCall(net)).stats)))
      && (forall x, n :: 0 <= x < |eps| && n in Levels ==>
            SlotAt(r, Concurrent, eps[x], IntKey(n)) == Some(Filled(LevelPhase(eps[x], n, AraCall(net)).stats)))
  {
    var call := AraCall(net);
    var plans := Plans(eps, call);
    PlansShaped(eps, call);
    AllWritesEffect(reg, plans);
    var r := ApplyAll(reg, Main(eps, net));
    forall x, n | 0 <= x < |eps| && n in Levels
      ensures SlotAt(r, Concurrent, eps[x], IntKey(n)) == Some(Filled(LevelPhase(eps[x], n, call).stats))
    {
      PlanOfShaped(eps[x], call);
      var l :| 0 <= l < |Levels| && Levels[l] == n;
      assert plans[x].levels[l].key == IntKey(n);
    }
  }

  /** Every endpoint that is not a listed agent keeps its entry. */
  lemma MainElsewhere(reg: Registry, eps: seq<string>, net: Site -> Reply)
    requires Distinct(eps)
    ensures forall m, e :: e !in eps ==> EntryAt(ApplyAll(reg, Main(eps, net)), m, e) == EntryAt(reg, m, e)
  {
    PlansShaped(eps, AraCall(net));
    AllWritesEffect(reg, Plans(eps, AraCall(net)));
  }
}
