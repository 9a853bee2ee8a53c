/**
  The per-endpoint query sweep: every provider runs its own stored query,
  trimmed to `b` identifiers per node, `n` times for each (n, b) pair,
  first one call after another and then gathered. The providers all run at
  once, so their writes to the shared document interleave.
 */
module KpQueryDriver {
  import opened Values
  import opened Calls
  import opened Stats
  import opened Registry
  import opened Phases
  import opened QueryTrim

  /** A provider of the sweep: its infores name and its stored query. Its URL
      is part of the network. */
  datatype Provider = Provider(infores: string, query: Query)

  /** The network: the reply to the message sent at a site. */
  type Network = (Site, Query) -> Reply

  /** One lookup. The message is built from a copy of the stored query inside
      the `try`, so a query that cannot be trimmed is caught like any other
      fault: no request is sent, the status stays "timeout" and no result is
      counted. Otherwise the trimmed message is posted and its reply read as
      in every other lookup. */
  function QueryLookup(q: Query, k: int, net: Network, s: Site): (r: CallResult)
    ensures r.batch == None
    ensures !Trimmable(q) ==> r.status == Timeout && r.numResults == 0
    ensures Trimmable(q) ==>
      var reply := net(s, GenerateMessage(q, k).value);
      && (r.status == Timeout <==> reply.NoResponse?)
      && (reply.Response? ==> r.status == HttpCode(reply.code))
      && r.numResults == (if Delivered(reply) then ResultCount(reply.body.message) else 0)
  {
    match GenerateMessage(q, k)
    case None => CallResult(Timeout, 0, None)
    case Some(m) => Execute(net(s, m))
  }

  /** The (calls, batch) pairs of the sequential runs. */
  const SequentialPairs: seq<(nat, nat)> := [(900, 1), (180, 10), (90, 100), (30, 1000)]

  /** The (calls, batch) pairs of the concurrent runs. */
  const ConcurrentPairs: seq<(nat, nat)> :=
    [(10, 1), (100, 1), (1000, 1), (10, 10), (100, 10), (1000, 10), (10, 1000), (100, 1000), (1000, 1000)]

  /** The pairs run under `mode`. */
  function ModePairs(mode: Mode): seq<(nat, nat)> {
    if mode == Sequential then SequentialPairs else ConcurrentPairs
  }

  /** The key a pair is stored under. */
  function PairSlot(pair: (nat, nat)): Key {
    StrKey(PairKey(pair.0, pair.1))
  }

  /** The site of call `i` of the `pair` run of `ep`. */
  function PairSite(mode: Mode, ep: string, pair: (nat, nat), i: nat): Site {
    Site(mode, ep, Some(PairSlot(pair)), i)
  }

  /** Call `i` of the `pair` run of provider `p`. */
  function PairCall(p: Provider, mode: Mode, pair: (nat, nat), net: Network): nat -> CallResult {
    (i: nat) => QueryLookup(p.query, pair.1, net, PairSite(mode, p.infores, pair, i))
  }

  /** The `pair` run of `p`: `pair.0` lookups with `pair.1` identifiers, one
      after another or gathered. */
  function PairPhase(p: Provider, mode: Mode, pair: (nat, nat), net: Network): Phase {
    var call := PairCall(p, mode, pair, net);
    var rs := if mode == Sequential then OneByOne(pair.0, call) else Gather(pair.0, call);
    Phase(mode, p.infores, PairSlot(pair), Summarize(rs))
  }

  /** The runs of `p` for every pair of `pairs`, in order. */
  function ModePhases(p: Provider, mode: Mode, pairs: seq<(nat, nat)>, net: Network): seq<Phase> {
    seq(|pairs|, j requires 0 <= j < |pairs| => PairPhase(p, mode, pairs[j], net))
  }

  /** `run_tests`: the sequential runs, then (after the cool-off) the
      concurrent runs. */
  function TestPhases(p: Provider, net: Network): seq<Phase> {
    ModePhases(p, Sequential, SequentialPairs, net) + ModePhases(p, Concurrent, ConcurrentPairs, net)
  }

  /** The infores names of the providers. */
  function Names(providers: seq<Provider>): seq<string> {
    seq(|providers|, x requires 0 <= x < |providers| => providers[x].infores)
  }

  /** The runs of every provider, one list per provider. */
  function AllPhases(providers: seq<Provider>, net: Network): seq<seq<Phase>> {
    seq(|providers|, x requires 0 <= x < |providers| => TestPhases(providers[x], net))
  }

  /** The writes of each phase list, one log per list. */
  function PhaseLogs(pls: seq<seq<Phase>>): seq<seq<Write>> {
    seq(|pls|, x requires 0 <= x < |pls| => Writes(pls[x]))
  }

  /** One log per provider: the writes of its tests. */
  function Logs(providers: seq<Provider>, net: Network): seq<seq<Write>> {
    PhaseLogs(AllPhases(providers, net))
  }

  /** `main` gathers every provider's tests: the document receives some
      interleaving of the providers' logs. */
  ghost predicate IsRun(z: seq<Write>, providers: seq<Provider>, net: Network) {
    Interleaves(z, Logs(providers, net))
  }

  // ---- one provider ----

  /** The phases `ps` are the runs of `pairs` under `mode` at `ep`, in order. */
  predicate Keyed(ps: seq<Phase>, mode: Mode, ep: string, pairs: seq<(nat, nat)>) {
    && |ps| == |pairs|
    && forall j :: 0 <= j < |ps| ==>
         ps[j].mode == mode && ps[j].endpoint == ep && ps[j].key == PairSlot(pairs[j])
  }

  /** No pair is run twice under one mode. */
  lemma PairsDistinct()
    ensures Distinct(SequentialPairs) && Distinct(ConcurrentPairs)
  {
  }

  /** Two different pairs are stored under different keys. */
  lemma PairSlotInjective(a: (nat, nat), b: (nat, nat))
    requires a != b
    ensures PairSlot(a) != PairSlot(b)
  {
    if PairKey(a.0, a.1) == PairKey(b.0, b.1) {
      PairKeyInjective(a.0, a.1, b.0, b.1);
    }
  }

  lemma ModePhasesKeyed(p: Provider, mode: Mode, pairs: seq<(nat, nat)>, net: Network)
    ensures Keyed(ModePhases(p, mode, pairs, net), mode, p.infores, pairs)
  {
  }

  /** The sequential runs and then the concurrent runs, each over distinct
      pairs, are all made at `ep` and land in distinct slots. */
  lemma KeyedSlots(sp: seq<Phase>, cp: seq<Phase>, ep: string, spairs: seq<(nat, nat)>, cpairs: seq<(nat, nat)>)
    requires Keyed(sp, Sequential, ep, spairs) && Keyed(cp, Concurrent, ep, cpairs)
    requires Distinct(spairs) && Distinct(cpairs)
    ensures DistinctSlots(sp + cp)
    ensures forall x :: 0 <= x < |sp + cp| ==> (sp + cp)[x].endpoint == ep
  {
    var ps := sp + cp;
    forall x, y | 0 <= x < y < |ps|
      ensures ps[x].mode != ps[y].mode || ps[x].endpoint != ps[y].endpoint || ps[x].key != ps[y].key
    {
      if y < |sp| {
        PairSlotInjective(spairs[x], spairs[y]);
      } else if |sp| <= x {
        PairSlotInjective(cpairs[x - |sp|], cpairs[y - |sp|]);
      }
    }
  }

  /** A provider's thirteen runs are all made under its own name and land in
      thirteen distinct slots. */
  lemma TestSlots(p: Provider, net: Network)
    ensures DistinctSlots(TestPhases(p, net))
    ensures forall x :: 0 <= x < |TestPhases(p, net)| ==> TestPhases(p, net)[x].endpoint == p.infores
  {
    ModePhasesKeyed(p, Sequential, SequentialPairs, net);
    ModePhasesKeyed(p, Concurrent, ConcurrentPairs, net);
    PairsDistinct();
    KeyedSlots(ModePhases(p, Sequential, SequentialPairs, net), ModePhases(p, Concurrent, ConcurrentPairs, net),
               p.infores, SequentialPairs, ConcurrentPairs);
  }

  /** The `pair` run holds exactly `pair.0` results, in call (or launch)
      order, each the lookup at its own site with `pair.1` identifiers. */
  lemma PairPhaseResults(p: Provider, mode: Mode, pair: (nat, nat), net: Network)
    ensures |PairPhase(p, mode, pair, net).stats.results| == pair.0
    ensures forall i :: 0 <= i < pair.0 ==>
      PairPhase(p, mode, pair, net).stats.results[i] == QueryLookup(p.query, pair.1, net, PairSite(mode, p.infores, pair, i))
  {
  }

  /** A provider whose stored query cannot be trimmed sends nothing: every
      run of it counts all its calls under "timeout" and no result. */
  lemma UntrimmableRuns(p: Provider, mode: Mode, pair: (nat, nat), net: Network)
    requires !Trimmable(p.query) && pair.0 > 0
    ensures PairPhase(p, mode, pair, net).stats.statuses == [Bucket(Timeout, pair.0)]
    ensures PairPhase(p, mode, pair, net).stats.totalResults == 0
  {
    var rs := PairPhase(p, mode, pair, net).stats.results;
    PairPhaseResults(p, mode, pair, net);
    UniformPhase(rs, CallResult(Timeout, 0, None));
  }

  // ---- all providers ----

  /** Phases all made at `ep` write only under `ep`. */
  lemma {:induction false} WritesEndpoints(ps: seq<Phase>, ep: string)
    requires forall x :: 0 <= x < |ps| ==> ps[x].endpoint == ep
    ensures Endpoints(Writes(ps)) <= {ep}
    decreases |ps|
  {
    if |ps| > 0 {
      var w, rest := Writes(ps), Writes(ps[1..]);
      WritesEndpoints(ps[1..], ep);
      assert w == [PhaseWrites(ps[0])[0], PhaseWrites(ps[0])[1]] + rest;
      assert w[1..] == [PhaseWrites(ps[0])[1]] + rest;
      assert w[1..][1..] == rest;
    }
  }

  /** Providers with distinct names have separate logs. */
  lemma LogsSeparate(providers: seq<Provider>, net: Network)
    requires Distinct(Names(providers))
    ensures Separate(Logs(providers, net))
  {
    var logs := Logs(providers, net);
    forall x | 0 <= x < |providers| ensures Endpoints(logs[x]) <= {providers[x].infores} {
      TestSlots(providers[x], net);
      WritesEndpoints(TestPhases(providers[x], net), providers[x].infores);
    }
    forall i, j | 0 <= i < j < |logs| ensures Endpoints(logs[i]) !! Endpoints(logs[j]) {
      assert Names(providers)[i] != Names(providers)[j];
    }
  }

  /** However the providers' writes interleave, the document ends as if the
      providers had run one after another. */
  lemma MainIsSerial(reg: Registry, providers: seq<Provider>, net: Network, z: seq<Write>)
    requires Distinct(Names(providers)) && IsRun(z, providers, net)
    ensures ApplyAll(reg, z) == ApplyAll(reg, Flatten(Logs(providers, net)))
  {
    LogsSeparate(providers, net);
    InterleavingIsSerial(reg, z, Logs(providers, net));
  }

  /** The phase lists of several endpoints, each at its own endpoint and in
      distinct slots. */
  predicate Placed(pls: seq<seq<Phase>>, eps: seq<string>) {
    && |pls| == |eps|
    && forall x :: 0 <= x < |pls| ==>
         DistinctSlots(pls[x]) && forall j :: 0 <= j < |pls[x]| ==> pls[x][j].endpoint == eps[x]
  }

  /** Running the phase lists of distinct endpoints one after another leaves
      every phase's statistics in its slot, and every other endpoint as it
      was. */
  lemma {:induction false} SerialEffect(reg: Registry, pls: seq<seq<Phase>>, eps: seq<string>)
    requires Placed(pls, eps) && Distinct(eps)
    ensures var r := ApplyAll(reg, Flatten(PhaseLogs(pls)));
      && (forall x, j :: 0 <= x < |pls| && 0 <= j < |pls[x]| ==>
            SlotAt(r, pls[x][j].mode, eps[x], pls[x][j].key) == Some(Filled(pls[x][j].stats)))
      && (forall m, e :: e !in eps ==> EntryAt(r, m, e) == EntryAt(reg, m, e))
    decreases |pls|
  {
    if |pls| > 0 {
      var ps, rest, ep := pls[0], pls[1..], eps[0];
      var logs := PhaseLogs(pls);
      assert logs[1..] == PhaseLogs(rest);
      var mid := ApplyAll(reg, Writes(ps));
      var r := ApplyAll(reg, Flatten(logs));
      ApplyAllAppend(reg, Writes(ps), Flatten(PhaseLogs(rest)));
      assert r == ApplyAll(mid, Flatten(PhaseLogs(rest)));
      PhasesEffect(reg, ps);
      assert Placed(rest, eps[1..]) by {
        forall x | 0 <= x < |rest| ensures rest[x] == pls[x + 1] && eps[1..][x] == eps[x + 1] {
        }
      }
      assert Distinct(eps[1..]);
      SerialEffect(mid, rest, eps[1..]);
      forall x, j | 0 <= x < |pls| && 0 <= j < |pls[x]|
        ensures SlotAt(r, pls[x][j].mode, eps[x], pls[x][j].key) == Some(Filled(pls[x][j].stats))
      {
        if x > 0 {
          assert pls[x] == rest[x - 1] && eps[x] == eps[1..][x - 1];
        } else {
          assert ep !in eps[1..] by {
            forall y | 0 <= y < |eps[1..]| ensures eps[1..][y] != ep {
              assert eps[1..][y] == eps[y + 1];
            }
          }
        }
      }
      forall m, e | e !in eps ensures EntryAt(r, m, e) == EntryAt(reg, m, e) {
        assert e !in eps[1..];
        assert !Touches(ps, m, e) by {
          forall y | 0 <= y < |ps| ensures ps[y].endpoint != e {
            assert ps[y].endpoint == eps[0];
          }
        }
      }
    }
  }

  /** A provider's runs are its four sequential pairs, in order, then its
      nine concurrent pairs, in order. */
  lemma TestPhasesAre(p: Provider, net: Network)
    ensures |TestPhases(p, net)| == |SequentialPairs| + |ConcurrentPairs|
    ensures forall j :: 0 <= j < |SequentialPairs| ==>
      TestPhases(p, net)[j] == PairPhase(p, Sequential, SequentialPairs[j], net)
    ensures forall j :: 0 <= j < |ConcurrentPairs| ==>
      TestPhases(p, net)[|SequentialPairs| + j] == PairPhase(p, Concurrent, ConcurrentPairs[j], net)
  {
  }

  /** Every provider's runs are made under its own name, in distinct slots. */
  lemma AllPlaced(providers: seq<Provider>, net: Network)
    ensures Placed(AllPhases(providers, net), Names(providers))
  {
    var pls, eps := AllPhases(providers, net), Names(providers);
    forall x | 0 <= x < |pls|
      ensures DistinctSlots(pls[x]) && forall j :: 0 <= j < |pls[x]| ==> pls[x][j].endpoint == eps[x]
    {
      TestSlots(providers[x], net);
    }
  }

  /** The document the sweep leaves, whatever the interleaving: every run of
      every provider leaves its statistics in its own "n_b" slot of its
      table, and every endpoint that is not a provider keeps its entry. */
  lemma MainEffect(reg: Registry, providers: seq<Provider>, net: Network, z: seq<Write>)
    requires Distinct(Names(providers)) && IsRun(z, providers, net)
    ensures var r, pls := ApplyAll(reg, z), AllPhases(providers, net);
      && (forall x, j :: 0 <= x < |pls| && 0 <= j < |pls[x]| ==>
            SlotAt(r, pls[x][j].mode, providers[x].infores, pls[x][j].key) == Some(Filled(pls[x][j].stats)))
      && (forall m, e :: e !in Names(providers) ==> EntryAt(r, m, e) == EntryAt(reg, m, e))
  {
    MainIsSerial(reg, providers, net, z);
    AllPlaced(providers, net);
    SerialEffect(reg, AllPhases(providers, net), Names(providers));
  }

  /** In particular, provider `x`'s slot for pair `j` of either table holds
      the statistics of exactly that run. */
  lemma PairStored(reg: Registry, providers: seq<Provider>, net: Network, z: seq<Write>, x: nat, mode: Mode, j: nat)
    requires Distinct(Names(providers)) && IsRun(z, providers, net)
    requires x < |providers| && j < |ModePairs(mode)|
    ensures SlotAt(ApplyAll(reg, z), mode, providers[x].infores, PairSlot(ModePairs(mode)[j]))
      == Some(Filled(PairPhase(providers[x], mode, ModePairs(mode)[j], net).stats))
  {
    MainEffect(reg, providers, net, z);
    TestPhasesAre(providers[x], net);
    var pls := AllPhases(providers, net);
    var k := if mode == Sequential then j else |SequentialPairs| + j;
    assert pls[x][k] == PairPhase(providers[x], mode, ModePairs(mode)[j], net);
  }
}
