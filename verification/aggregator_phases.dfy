/**
  The phase plan the two aggregator drivers share: per endpoint, a
  sequential phase of 15 calls whose statistics replace the endpoint's
  entry, then one gathered phase per concurrency level, each stored under
  its level.
 */
module AggregatorPhases {
  import opened Values
  import opened Stats
  import opened Registry
  import opened Phases

  /** The site of call `i` of the sequential phase at `ep`. */
  function SequentialSite(ep: string, i: nat): Site {
    Site(Sequential, ep, None, i)
  }

  /** The site of call `i` of the level-`n` phase at `ep`. */
  function LevelSite(ep: string, n: nat, i: nat): Site {
    Site(Concurrent, ep, Some(IntKey(n)), i)
  }

  /** The results of the sequential phase at `ep`, in call order. */
  function SequentialResults(ep: string, call: Site -> CallResult): seq<CallResult> {
    OneByOne(SequentialCalls, (i: nat) => call(SequentialSite(ep, i)))
  }

  /** The phase for concurrency level `n` at `ep`: `n` lookups gathered. */
  function LevelPhase(ep: string, n: nat, call: Site -> CallResult): Phase {
    Phase(Concurrent, ep, IntKey(n), Summarize(Gather(n, (i: nat) => call(LevelSite(ep, n, i)))))
  }

  /** The level phases at `ep`, one per level, in the order of `levels`. */
  function LevelPhases(ep: string, levels: seq<nat>, call: Site -> CallResult): seq<Phase> {
    seq(|levels|, x requires 0 <= x < |levels| => LevelPhase(ep, levels[x], call))
  }

  /** One endpoint's part of a run: the statistics of its sequential phase
      and its level phases, in order. */
  datatype Plan = Plan(endpoint: string, stats: PhaseStats, levels: seq<Phase>)

  /** The level phases of a plan are concurrent phases at its endpoint, each
      under its own key. */
  predicate Shaped(p: Plan) {
    && (forall x :: 0 <= x < |p.levels| ==> p.levels[x].mode == Concurrent && p.levels[x].endpoint == p.endpoint)
    && (forall x, y :: 0 <= x < y < |p.levels| ==> p.levels[x].key != p.levels[y].key)
  }

  /** The plan a driver runs at `ep`, making lookups with `call`. */
  function PlanOf(ep: string, call: Site -> CallResult): Plan {
    Plan(ep, Summarize(SequentialResults(ep, call)), LevelPhases(ep, Levels, call))
  }

  /** No concurrency level is listed twice. */
  lemma LevelsDistinct()
    ensures forall x, y :: 0 <= x < y < |Levels| ==> Levels[x] != Levels[y]
  {
  }

  /** The level phases at `ep` are concurrent phases at `ep`, one per level,
      each under its own level. */
  lemma LevelPhasesShape(ep: string, levels: seq<nat>, call: Site -> CallResult)
    ensures |LevelPhases(ep, levels, call)| == |levels|
    ensures forall x :: 0 <= x < |levels| ==>
      LevelPhases(ep, levels, call)[x].mode == Concurrent && LevelPhases(ep, levels, call)[x].endpoint == ep
      && LevelPhases(ep, levels, call)[x].key == IntKey(levels[x])
  {
  }

  /** The plan at `ep` runs there, is shaped, and holds the level phases in
      the order of the levels. */
  lemma PlanOfShaped(ep: string, call: Site -> CallResult)
    ensures PlanOf(ep, call).endpoint == ep && Shaped(PlanOf(ep, call))
    ensures |PlanOf(ep, call).levels| == |Levels|
    ensures forall x :: 0 <= x < |Levels| ==> PlanOf(ep, call).levels[x] == LevelPhase(ep, Levels[x], call)
  {
    LevelPhasesShape(ep, Levels, call);
    LevelsDistinct();
  }

  /** The writes of a plan: open and replace the sequential entry, then the
      two writes of every level phase. */
  function PlanWrites(p: Plan): seq<Write> {
    WholeWrites(p.endpoint, p.stats) + Writes(p.levels)
  }

  /** Everything one endpoint's sequential and concurrent runs write, in
      order. */
  function EndpointWrites(ep: string, call: Site -> CallResult): seq<Write> {
    PlanWrites(PlanOf(ep, call))
  }

  /** A plan's writes are all made under its endpoint; the first two under
      the sequential table, the rest under the concurrent one. */
  lemma PlanShape(p: Plan)
    requires Shaped(p)
    ensures |PlanWrites(p)| == 2 + 2 * |p.levels|
    ensures forall i :: 0 <= i < |PlanWrites(p)| ==>
      PlanWrites(p)[i].endpoint == p.endpoint && (PlanWrites(p)[i].mode == Sequential <==> i < 2)
  {
    WritesShape(p.levels);
    var w := PlanWrites(p);
    forall i | 2 <= i < |w| ensures w[i].endpoint == p.endpoint && w[i].mode == Concurrent {
      assert w[i] == Writes(p.levels)[i - 2];
    }
  }

  /** A plan's writes replace its endpoint's sequential entry with the
      statistics, set each level phase's slot, and leave every other
      endpoint as it was. */
  lemma PlanEffect(reg: Registry, p: Plan)
    requires Shaped(p)
    ensures var r := ApplyAll(reg, PlanWrites(p));
      && EntryAt(r, Sequential, p.endpoint) == Some(Whole(p.stats))
      && (forall x :: 0 <= x < |p.levels| ==> SlotAt(r, Concurrent, p.endpoint, p.levels[x].key) == Some(Filled(p.levels[x].stats)))
      && (forall m, e :: e != p.endpoint ==> EntryAt(r, m, e) == EntryAt(reg, m, e))
  {
    var ep, ps := p.endpoint, p.levels;
    var mid := ApplyAll(reg, WholeWrites(ep, p.stats));
    ApplyAllAppend(reg, WholeWrites(ep, p.stats), Writes(ps));
    var r := ApplyAll(mid, Writes(ps));
    WholeEffect(reg, ep, p.stats);
    PhasesEffect(mid, ps);
    assert !Touches(ps, Sequential, ep);
    forall m, e | e != ep ensures EntryAt(r, m, e) == EntryAt(reg, m, e) {
      assert !Touches(ps, m, e);
    }
  }

  /** What one endpoint's runs leave in the document: its sequential entry
      is the sequential statistics, level `n` holds the statistics of its
      gathered phase, and every other endpoint keeps its entry. */
  lemma EndpointEffect(reg: Registry, ep: string, call: Site -> CallResult)
    ensures var r := ApplyAll(reg, EndpointWrites(ep, call));
      && EntryAt(r, Sequential, ep) == Some(Whole(PlanOf(ep, call).stats))
      && (forall n :: n in Levels ==>
            SlotAt(r, Concurrent, ep, IntKey(n)) == Some(Filled(LevelPhase(ep, n, call).stats)))
      && (forall m, e :: e != ep ==> EntryAt(r, m, e) == EntryAt(reg, m, e))
  {
    PlanOfShaped(ep, call);
    PlanEffect(reg, PlanOf(ep, call));
    forall n | n in Levels
      ensures SlotAt(ApplyAll(reg, EndpointWrites(ep, call)), Concurrent, ep, IntKey(n)) == Some(Filled(LevelPhase(ep, n, call).stats))
    {
      var l :| 0 <= l < |Levels| && Levels[l] == n;
      assert PlanOf(ep, call).levels[l].key == IntKey(n);
    }
  }

  /** The sequential phase holds exactly 15 results, in call order, and a
      level-`n` phase exactly `n`, in launch order. */
  lemma PhaseSizes(ep: string, n: nat, call: Site -> CallResult)
    ensures |PlanOf(ep, call).stats.results| == SequentialCalls
    ensures forall i :: 0 <= i < SequentialCalls ==>
      PlanOf(ep, call).stats.results[i] == call(SequentialSite(ep, i))
    ensures |LevelPhase(ep, n, call).stats.results| == n
    ensures forall i :: 0 <= i < n ==> LevelPhase(ep, n, call).stats.results[i] == call(LevelSite(ep, n, i))
  {
  }
}
