/**
  What every driver does with a phase: run its calls one after another or
  gather them concurrently, fold the results into statistics, and write the
  statistics into the run registry.
 */
module Phases {
  import opened Values
  import opened Stats
  import opened Registry

  /** Where a call is made: the table and endpoint of its phase, the variant
      key of the phase (`None` for the aggregator sequential phases, which
      have no variants), and the call's position within the phase. The
      network is a function of the site. */
  datatype Site = Site(mode: Mode, endpoint: string, variant: Option<Key>, index: nat)

  /** Calls in every aggregator sequential phase (`range(0, 15)`). */
  const SequentialCalls: nat := 15

  /** The concurrency levels of the aggregator drivers. */
  const Levels: seq<nat> := [10, 50, 100, 1000]

  /** A sequential phase: each call starts once the previous one returned,
      and `results.append` keeps them in call order. */
  function OneByOne(n: nat, call: nat -> CallResult): (rs: seq<CallResult>)
    ensures |rs| == n
    ensures forall i :: 0 <= i < n ==> rs[i] == call(i)
  {
    if n == 0 then [] else OneByOne(n - 1, call) + [call(n - 1)]
  }

  /** A concurrent phase: `n` coroutines launched together; `asyncio.gather`
      returns their results in launch order, whatever order they finish in. */
  function Gather(n: nat, call: nat -> CallResult): seq<CallResult> {
    seq(n, i requires 0 <= i < n => call(i))
  }

  /** Gathering keeps launch order: the results of `n` gathered calls are
      exactly those the same calls made one after another would record. */
  lemma GatherKeepsOrder(n: nat, call: nat -> CallResult)
    ensures Gather(n, call) == OneByOne(n, call)
  {
  }

  /** A variant phase that has run: its table, endpoint, key and statistics. */
  datatype Phase = Phase(mode: Mode, endpoint: string, key: Key, stats: PhaseStats)

  /** The two writes of a variant phase: the `{}` placeholder when it starts
      (creating the endpoint's map if absent), then its statistics. */
  function PhaseWrites(p: Phase): seq<Write> {
    [Reserve(p.mode, p.endpoint, p.key), Fill(p.mode, p.endpoint, p.key, p.stats)]
  }

  /** The writes of several variant phases, in the order they ran. */
  function Writes(ps: seq<Phase>): seq<Write>
    decreases |ps|
  {
    if |ps| == 0 then [] else PhaseWrites(ps[0]) + Writes(ps[1..])
  }

  /** Some phase of `ps` is stored under `mode`, `ep` and `key`. */
  predicate Covers(ps: seq<Phase>, mode: Mode, ep: string, key: Key) {
    exists x :: 0 <= x < |ps| && ps[x].mode == mode && ps[x].endpoint == ep && ps[x].key == key
  }

  /** Some phase of `ps` is stored under `mode` and `ep`. */
  predicate Touches(ps: seq<Phase>, mode: Mode, ep: string) {
    exists x :: 0 <= x < |ps| && ps[x].mode == mode && ps[x].endpoint == ep
  }

  /** No two phases of `ps` are stored in the same slot. */
  predicate DistinctSlots(ps: seq<Phase>) {
    forall x, y :: 0 <= x < y < |ps| ==>
      ps[x].mode != ps[y].mode || ps[x].endpoint != ps[y].endpoint || ps[x].key != ps[y].key
  }

  /** Running one variant phase sets exactly its own slot to its statistics:
      every other key of the endpoint and every other endpoint keep their
      values. */
  lemma PhaseEffect(reg: Registry, p: Phase)
    ensures var r := ApplyAll(reg, PhaseWrites(p));
      && SlotAt(r, p.mode, p.endpoint, p.key) == Some(Filled(p.stats))
      && (forall k :: k != p.key ==> SlotAt(r, p.mode, p.endpoint, k) == SlotAt(reg, p.mode, p.endpoint, k))
      && (forall m, e :: (m != p.mode || e != p.endpoint) ==> EntryAt(r, m, e) == EntryAt(reg, m, e))
  {
    ReserveThenFill(reg, p.mode, p.endpoint, p.key, p.stats);
  }

  lemma {:induction false} WritesAppend(ps: seq<Phase>, qs: seq<Phase>)
    ensures Writes(ps + qs) == Writes(ps) + Writes(qs)
    decreases |ps|
  {
    if |ps| == 0 {
      assert ps + qs == qs;
    } else {
      assert (ps + qs)[1..] == ps[1..] + qs;
      WritesAppend(ps[1..], qs);
    }
  }

  /** A slot the first phase is stored under, or no phase at all, is not
      covered by the later phases. */
  lemma NotCoveredByRest(ps: seq<Phase>, mode: Mode, ep: string, key: Key)
    requires |ps| > 0 && DistinctSlots(ps)
    requires !Covers(ps, mode, ep, key) || (ps[0].mode == mode && ps[0].endpoint == ep && ps[0].key == key)
    ensures !Covers(ps[1..], mode, ep, key)
  {
    var rest := ps[1..];
    forall y | 0 <= y < |rest| ensures rest[y].mode != mode || rest[y].endpoint != ep || rest[y].key != key {
      assert rest[y] == ps[y + 1];
    }
  }

  /** Phases stored in distinct slots each leave their own statistics, and
      every slot and entry no phase is stored under keeps its value. */
  lemma {:induction false} PhasesEffect(reg: Registry, ps: seq<Phase>)
    requires DistinctSlots(ps)
    ensures forall x :: 0 <= x < |ps| ==>
      SlotAt(ApplyAll(reg, Writes(ps)), ps[x].mode, ps[x].endpoint, ps[x].key) == Some(Filled(ps[x].stats))
    ensures forall m, e, k :: !Covers(ps, m, e, k) ==>
      SlotAt(ApplyAll(reg, Writes(ps)), m, e, k) == SlotAt(reg, m, e, k)
    ensures forall m, e :: !Touches(ps, m, e) ==>
      EntryAt(ApplyAll(reg, Writes(ps)), m, e) == EntryAt(reg, m, e)
    decreases |ps|
  {
    if |ps| > 0 {
      var p, rest := ps[0], ps[1..];
      var mid := ApplyAll(reg, PhaseWrites(p));
      var r := ApplyAll(reg, Writes(ps));
      ApplyAllAppend(reg, PhaseWrites(p), Writes(rest));
      assert r == ApplyAll(mid, Writes(rest));
      PhaseEffect(reg, p);
      assert DistinctSlots(rest) by {
        forall x, y | 0 <= x < y < |rest|
          ensures rest[x].mode != rest[y].mode || rest[x].endpoint != rest[y].endpoint || rest[x].key != rest[y].key
        {
          assert rest[x] == ps[x + 1] && rest[y] == ps[y + 1];
        }
      }
      PhasesEffect(mid, rest);
      forall x | 0 <= x < |ps|
        ensures SlotAt(r, ps[x].mode, ps[x].endpoint, ps[x].key) == Some(Filled(ps[x].stats))
      {
        if x == 0 {
          NotCoveredByRest(ps, p.mode, p.endpoint, p.key);
        } else {
          assert ps[x] == rest[x - 1];
        }
      }
      forall m, e, k | !Covers(ps, m, e, k) ensures SlotAt(r, m, e, k) == SlotAt(reg, m, e, k) {
        NotCoveredByRest(ps, m, e, k);
        if m == p.mode && e == p.endpoint {
          assert k != p.key by {
            assert ps[0] == p;
          }
        } else {
          assert EntryAt(mid, m, e) == EntryAt(reg, m, e);
        }
      }
      forall m, e | !Touches(ps, m, e) ensures EntryAt(r, m, e) == EntryAt(reg, m, e) {
        assert !Touches(rest, m, e) by {
          forall y | 0 <= y < |rest| ensures rest[y].mode != m || rest[y].endpoint != e {
            assert rest[y] == ps[y + 1];
          }
        }
        assert ps[0] == p;
      }
    }
  }

  /** The two writes of an aggregator sequential phase: open the endpoint's
      entry, then replace it wholesale with the statistics. */
  function WholeWrites(ep: string, stats: PhaseStats): seq<Write> {
    [Open(Sequential, ep), Replace(Sequential, ep, stats)]
  }

  /** The aggregator sequential write leaves the statistics themselves as the
      endpoint's entry, with no variant key, and touches nothing else. */
  lemma WholeEffect(reg: Registry, ep: string, stats: PhaseStats)
    ensures var r := ApplyAll(reg, WholeWrites(ep, stats));
      && EntryAt(r, Sequential, ep) == Some(Whole(stats))
      && (forall m, e :: (m != Sequential || e != ep) ==> EntryAt(r, m, e) == EntryAt(reg, m, e))
  {
    var w1, w2 := Open(Sequential, ep), Replace(Sequential, ep, stats);
    assert [w1, w2][1..] == [w2];
    assert [w2][1..] == [];
    assert ApplyAll(reg, [w1, w2]) == ApplyAll(Apply(reg, w1), [w2]);
    assert ApplyAll(Apply(reg, w1), [w2]) == ApplyAll(Apply(Apply(reg, w1), w2), []);
  }

  /** Write `i` of several phases belongs to phase `i / 2`: it is made under
      that phase's table and endpoint. */
  lemma {:induction false} WritesShape(ps: seq<Phase>)
    ensures |Writes(ps)| == 2 * |ps|
    ensures forall i :: 0 <= i < |Writes(ps)| ==>
      Writes(ps)[i].mode == ps[i / 2].mode && Writes(ps)[i].endpoint == ps[i / 2].endpoint
    decreases |ps|
  {
    if |ps| > 0 {
      WritesShape(ps[1..]);
      var w := Writes(ps);
      forall i | 0 <= i < |w| ensures w[i].mode == ps[i / 2].mode && w[i].endpoint == ps[i / 2].endpoint {
        if i >= 2 {
          assert w[i] == Writes(ps[1..])[i - 2];
          assert (i - 2) / 2 == i / 2 - 1;
        }
      }
    }
  }
}
