/**
  The batch-size sweep against the knowledge providers: for every batch size,
  a sequential pass over every provider (one synchronous call per batch),
  then a concurrent pass (all batches gathered). A body that embeds
  `message.errors` in the sequential pass ends the process; so does a zero
  batch size, which is divided by before anything else happens.
 */
module KpSweep {
  import opened Values
  import opened Calls
  import opened Stats
  import opened Registry
  import opened Batching
  import opened Phases

  /** The site of call `i` of the phase for batch size `b` at provider `kp`. */
  function At(mode: Mode, kp: string, b: int, i: nat): Site {
    Site(mode, kp, Some(IntKey(b)), i)
  }

  /** What the network answers to the calls of one phase, by call index. */
  function Replies(net: Site -> Reply, mode: Mode, kp: string, b: int): nat -> Reply {
    (i: nat) => net(At(mode, kp, b, i))
  }

  /** A batch lookup's record: the call outcome plus the identifiers it
      carried (`num_curies` is their number). */
  function Carrying(c: CallResult, batch: seq<Curie>): CallResult {
    c.(batch := Some(batch))
  }

  /** The identifiers a record carried, or none. */
  function BatchOf(c: CallResult): seq<Curie> {
    if c.batch.Some? then c.batch.value else []
  }

  /** The batches the calls of a phase carried, in call order. */
  function Carried(rs: seq<CallResult>): seq<seq<Curie>> {
    seq(|rs|, i requires 0 <= i < |rs| => BatchOf(rs[i]))
  }

  /** The first `k` calls of a sequential phase, one synchronous lookup per
      batch; `None` once a call exits the process. */
  function SequentialLookups(batches: seq<seq<Curie>>, replies: nat -> Reply, k: nat): (r: Option<seq<CallResult>>)
    requires k <= |batches|
    ensures r.None? <==> exists i :: 0 <= i < k && EmbedsErrors(replies(i))
    ensures r.Some? ==> |r.value| == k
    ensures r.Some? ==> forall i :: 0 <= i < k ==> r.value[i] == Carrying(Execute(replies(i)), batches[i])
    decreases k
  {
    if k == 0 then Some([])
    else
      match SequentialLookups(batches, replies, k - 1)
      case None => None
      case Some(rs) =>
        match ExecuteStrict(replies(k - 1))
        case Fatal => None
        case Finished(c) => Some(rs + [Carrying(c, batches[k - 1])])
  }

  /** A concurrent phase: every batch launched at once and gathered in launch
      order. The asynchronous lookup makes no embedded-errors test. */
  function ConcurrentLookups(batches: seq<seq<Curie>>, replies: nat -> Reply): seq<CallResult> {
    seq(|batches|, i requires 0 <= i < |batches| => Carrying(Execute(replies(i)), batches[i]))
  }

  /** When no body embeds errors, the synchronous loop and the gathered
      lookups record the same results, batch for batch: the two lookups
      differ only in the embedded-errors exit. */
  lemma LookupsAgree(batches: seq<seq<Curie>>, replies: nat -> Reply)
    requires forall i :: 0 <= i < |batches| ==> !EmbedsErrors(replies(i))
    ensures SequentialLookups(batches, replies, |batches|) == Some(ConcurrentLookups(batches, replies))
  {
    var r := SequentialLookups(batches, replies, |batches|);
    assert r.Some?;
    assert r.value == ConcurrentLookups(batches, replies);
  }

  /** Some call of provider `kp`'s sequential phase for batch size `b`
      embeds errors. */
  predicate Exits(pool: seq<Curie>, b: int, kp: string, net: Site -> Reply)
    requires b != 0
  {
    exists i :: 0 <= i < |Batches(pool, b)| && EmbedsErrors(net(At(Sequential, kp, b, i)))
  }

  /** The statistics of provider `kp`'s sequential phase for batch size `b`,
      or `None` when the phase exits. */
  function SequentialStats(pool: seq<Curie>, b: int, kp: string, net: Site -> Reply): (r: Option<PhaseStats>)
    requires b != 0
    ensures r.None? <==> Exits(pool, b, kp, net)
    ensures r.Some? ==> |r.value.results| == |Batches(pool, b)|
    ensures r.Some? ==> forall i :: 0 <= i < |Batches(pool, b)| ==>
      r.value.results[i] == Carrying(Execute(net(At(Sequential, kp, b, i))), Batches(pool, b)[i])
    ensures r.Some? ==> r.value.totalResults == TotalResults(r.value.results) && WellFormed(r.value.statuses)
    ensures r.Some? ==> forall s :: CountOf(r.value.statuses, s) == multiset(Statuses(r.value.results))[s]
  {
    var batches := Batches(pool, b);
    var replies := Replies(net, Sequential, kp, b);
    assert forall i: nat :: replies(i) == net(At(Sequential, kp, b, i));
    match SequentialLookups(batches, replies, |batches|)
    case None => None
    case Some(rs) => Some(Summarize(rs))
  }

  /** The statistics of provider `kp`'s concurrent phase for batch size `b`. */
  function ConcurrentStats(pool: seq<Curie>, b: int, kp: string, net: Site -> Reply): (r: PhaseStats)
    requires b != 0
    ensures |r.results| == |Batches(pool, b)|
    ensures forall i :: 0 <= i < |Batches(pool, b)| ==>
      r.results[i] == Carrying(Execute(net(At(Concurrent, kp, b, i))), Batches(pool, b)[i])
    ensures r.totalResults == TotalResults(r.results) && WellFormed(r.statuses)
    ensures forall s :: CountOf(r.statuses, s) == multiset(Statuses(r.results))[s]
  {
    var batches := Batches(pool, b);
    Summarize(ConcurrentLookups(batches, Replies(net, Concurrent, kp, b)))
  }

  /** The sequential pass for batch size `b` ends the process: the division
      by zero at the first provider, or a call that exits. */
  predicate PassStops(pool: seq<Curie>, b: int, kps: seq<string>, net: Site -> Reply) {
    |kps| > 0 && (b == 0 || exists x :: 0 <= x < |kps| && Exits(pool, b, kps[x], net))
  }

  /** A run of the sweep: it completed, or it stopped. Either way `phases`
      lists the phases whose statistics reached the document on disk, in
      order: a phase interrupted by the exit was never dumped. */
  datatype Run = Completed(phases: seq<Phase>) | Stopped(phases: seq<Phase>)

  function Prepend(ps: seq<Phase>, r: Run): (s: Run)
    ensures s.Stopped? == r.Stopped? && s.phases == ps + r.phases
  {
    r.(phases := ps + r.phases)
  }

  /** The number of leading outcomes that are present: the position of the
      first `None`, or the length. */
  function FirstNone<T>(os: seq<Option<T>>): (n: nat)
    ensures n <= |os|
    ensures forall x :: 0 <= x < n ==> os[x].Some?
    ensures n < |os| ==> os[n].None?
    decreases |os|
  {
    if |os| == 0 || os[0].None? then 0 else 1 + FirstNone(os[1..])
  }

  /** A sequential pass from the outcomes of its providers' phases, in
      order: the phases up to the first exit. */
  function PassOf(kps: seq<string>, b: int, os: seq<Option<PhaseStats>>): (r: Run)
    requires |os| == |kps|
    ensures r.Completed? <==> forall x :: 0 <= x < |os| ==> os[x].Some?
    ensures r.Completed? ==> |r.phases| == |kps|
    ensures r.Stopped? ==> |r.phases| < |kps| && os[|r.phases|].None?
    ensures forall x :: 0 <= x < |r.phases| ==>
      os[x].Some? && r.phases[x] == Phase(Sequential, kps[x], IntKey(b), os[x].value)
  {
    var n := FirstNone(os);
    var ps := seq(n, x requires 0 <= x < n => Phase(Sequential, kps[x], IntKey(b), os[x].value));
    if n == |kps| then Completed(ps) else Stopped(ps)
  }

  /** The outcome of every provider's sequential phase for batch size `b`. */
  function Outcomes(pool: seq<Curie>, b: int, kps: seq<string>, net: Site -> Reply): (os: seq<Option<PhaseStats>>)
    requires b != 0
    ensures |os| == |kps|
    ensures forall x :: 0 <= x < |kps| ==> (os[x].None? <==> Exits(pool, b, kps[x], net))
  {
    seq(|kps|, x requires 0 <= x < |kps| => SequentialStats(pool, b, kps[x], net))
  }

  /** `run_sequential(b)`: the providers in order, each phase completing
      before the next provider starts; the first exit ends the pass. */
  function SequentialPass(pool: seq<Curie>, b: int, kps: seq<string>, net: Site -> Reply): (r: Run)
    ensures r.Stopped? <==> PassStops(pool, b, kps, net)
    ensures r.Completed? ==> |r.phases| == |kps|
    ensures r.Stopped? ==> |r.phases| < |kps| && (b == 0 || Exits(pool, b, kps[|r.phases|], net))
    ensures forall x :: 0 <= x < |r.phases| ==>
      b != 0 && Outcomes(pool, b, kps, net)[x].Some?
      && r.phases[x] == Phase(Sequential, kps[x], IntKey(b), Outcomes(pool, b, kps, net)[x].value)
  {
    if |kps| == 0 then Completed([])
    else if b == 0 then Stopped([])
    else PassOf(kps, b, Outcomes(pool, b, kps, net))
  }

  /** `run_concurrent(b)`: the providers in order, one gathered phase each. */
  function ConcurrentPass(pool: seq<Curie>, b: int, kps: seq<string>, net: Site -> Reply): seq<Phase>
    requires b != 0 || |kps| == 0
  {
    seq(|kps|, x requires 0 <= x < |kps| => Phase(Concurrent, kps[x], IntKey(b), ConcurrentStats(pool, b, kps[x], net)))
  }

  /** The network of a whole sweep, by pass position: `nets(j)` answers the
      calls of the `j`-th listed batch size. A batch size listed twice is run
      twice, and the service may answer the second run differently. */
  type Nets = nat -> (Site -> Reply)

  /** The same networks, from the pass after the first on. */
  function Later(nets: Nets): Nets {
    (j: nat) => nets(j + 1)
  }

  /** Some sequential pass among those for `sizes` stops. */
  predicate SomePassStops(pool: seq<Curie>, sizes: seq<int>, kps: seq<string>, nets: Nets) {
    exists j :: 0 <= j < |sizes| && PassStops(pool, sizes[j], kps, nets(j))
  }

  lemma SomePassStopsTail(pool: seq<Curie>, sizes: seq<int>, kps: seq<string>, nets: Nets)
    requires |sizes| > 0 && !PassStops(pool, sizes[0], kps, nets(0))
    ensures SomePassStops(pool, sizes, kps, nets) <==> SomePassStops(pool, sizes[1..], kps, Later(nets))
  {
    if SomePassStops(pool, sizes, kps, nets) {
      var j :| 0 <= j < |sizes| && PassStops(pool, sizes[j], kps, nets(j));
      assert j != 0 && sizes[1..][j - 1] == sizes[j];
      assert Later(nets)(j - 1) == nets(j);
    }
    if SomePassStops(pool, sizes[1..], kps, Later(nets)) {
      var j :| 0 <= j < |sizes[1..]| && PassStops(pool, sizes[1..][j], kps, Later(nets)(j));
      assert sizes[j + 1] == sizes[1..][j];
    }
  }

  /** Some phases of every listed batch size, by pass position: `f` of the
      size and of the network of its pass. */
  function ByPosition(sizes: seq<int>, nets: Nets, f: (int, Site -> Reply) -> seq<Phase>): (ls: seq<seq<Phase>>)
    ensures |ls| == |sizes|
  {
    seq(|sizes|, j requires 0 <= j < |sizes| => f(sizes[j], nets(j)))
  }

  lemma ByPositionTail(sizes: seq<int>, nets: Nets, f: (int, Site -> Reply) -> seq<Phase>)
    requires |sizes| > 0
    ensures ByPosition(sizes[1..], Later(nets), f) == ByPosition(sizes, nets, f)[1..]
  {
  }

  /** The sequential-pass phases on disk for every listed batch size, by
      pass position. */
  function SeqLayers(pool: seq<Curie>, sizes: seq<int>, kps: seq<string>, nets: Nets): seq<seq<Phase>> {
    ByPosition(sizes, nets, (b: int, net: Site -> Reply) => SequentialPass(pool, b, kps, net).phases)
  }

  /** The concurrent-pass phases for every listed batch size, by pass
      position: none for a size whose sequential pass stopped. */
  function ConcLayers(pool: seq<Curie>, sizes: seq<int>, kps: seq<string>, nets: Nets): seq<seq<Phase>> {
    ByPosition(sizes, nets, (b: int, net: Site -> Reply) =>
      if SequentialPass(pool, b, kps, net).Completed? then ConcurrentPass(pool, b, kps, net) else [])
  }

  /** The phases of the first `n` pass positions, in run order: for each
      position its sequential phases, then its concurrent ones. */
  function Layers(sps: seq<seq<Phase>>, cps: seq<seq<Phase>>, n: nat): seq<Phase>
    requires n <= |sps| && n <= |cps|
  {
    if n == 0 then [] else Layers(sps, cps, n - 1) + sps[n - 1] + cps[n - 1]
  }

  lemma {:induction false} LayersCons(sps: seq<seq<Phase>>, cps: seq<seq<Phase>>, n: nat)
    requires n < |sps| && n < |cps|
    ensures Layers(sps, cps, n + 1) == sps[0] + cps[0] + Layers(sps[1..], cps[1..], n)
    decreases n
  {
    if n > 0 {
      LayersCons(sps, cps, n - 1);
      assert sps[1..][n - 1] == sps[n] && cps[1..][n - 1] == cps[n];
    }
  }

  /** The position of the first pass that stops, or the number of sizes
      when none does. */
  function FirstStop(pool: seq<Curie>, sizes: seq<int>, kps: seq<string>, nets: Nets): (n: nat)
    ensures n <= |sizes|
    ensures forall j :: 0 <= j < n ==> !PassStops(pool, sizes[j], kps, nets(j))
    ensures n < |sizes| ==> PassStops(pool, sizes[n], kps, nets(n))
    decreases |sizes|
  {
    if |sizes| == 0 || PassStops(pool, sizes[0], kps, nets(0)) then 0
    else
      var m := FirstStop(pool, sizes[1..], kps, Later(nets));
      assert forall j :: 1 <= j <= m ==> sizes[1..][j - 1] == sizes[j] && Later(nets)(j - 1) == nets(j);
      1 + m
  }

  /** `main`: for every batch size, the sequential pass and then the
      concurrent pass. The run stops exactly when some sequential pass
      stops; the concurrent passes never do. */
  function Sweep(pool: seq<Curie>, sizes: seq<int>, kps: seq<string>, nets: Nets): (r: Run)
    ensures r.Stopped? <==> SomePassStops(pool, sizes, kps, nets)
    ensures var n := FirstStop(pool, sizes, kps, nets);
      r.phases == Layers(SeqLayers(pool, sizes, kps, nets), ConcLayers(pool, sizes, kps, nets), n)
                  + (if n < |sizes| then SeqLayers(pool, sizes, kps, nets)[n] else [])
    decreases |sizes|
  {
    if |sizes| == 0 then Completed([])
    else
      var b := sizes[0];
      match SequentialPass(pool, b, kps, nets(0))
      case Stopped(ps) => Stopped(ps)
      case Completed(ps) =>
        var rest := Sweep(pool, sizes[1..], kps, Later(nets));
        SomePassStopsTail(pool, sizes, kps, nets);
        SweepStep(pool, sizes, kps, nets, rest.phases);
        Prepend(ps + ConcurrentPass(pool, b, kps, nets(0)), rest)
  }

  /** A first position's phases in front of the record of the later
      positions form the record of all positions. */
  lemma LayersStep(sps: seq<seq<Phase>>, cps: seq<seq<Phase>>, m: nat, rest: seq<Phase>)
    requires |sps| == |cps| && m < |sps|
    requires rest == Layers(sps[1..], cps[1..], m) + (if m < |sps| - 1 then sps[1..][m] else [])
    ensures sps[0] + cps[0] + rest == Layers(sps, cps, m + 1) + (if m + 1 < |sps| then sps[m + 1] else [])
  {
    LayersCons(sps, cps, m);
  }

  lemma FirstStopTail(pool: seq<Curie>, sizes: seq<int>, kps: seq<string>, nets: Nets)
    requires |sizes| > 0 && !PassStops(pool, sizes[0], kps, nets(0))
    ensures FirstStop(pool, sizes, kps, nets) == 1 + FirstStop(pool, sizes[1..], kps, Later(nets))
  {
  }

  /** A completed first pass followed by the record of the later sizes is
      the record of all sizes. */
  lemma SweepStep(pool: seq<Curie>, sizes: seq<int>, kps: seq<string>, nets: Nets, rest: seq<Phase>)
    requires |sizes| > 0 && SequentialPass(pool, sizes[0], kps, nets(0)).Completed?
    requires var m := FirstStop(pool, sizes[1..], kps, Later(nets));
      rest == Layers(SeqLayers(pool, sizes[1..], kps, Later(nets)), ConcLayers(pool, sizes[1..], kps, Later(nets)), m)
              + (if m < |sizes[1..]| then SeqLayers(pool, sizes[1..], kps, Later(nets))[m] else [])
    ensures var n := FirstStop(pool, sizes, kps, nets);
      SequentialPass(pool, sizes[0], kps, nets(0)).phases + ConcurrentPass(pool, sizes[0], kps, nets(0)) + rest
      == Layers(SeqLayers(pool, sizes, kps, nets), ConcLayers(pool, sizes, kps, nets), n)
         + (if n < |sizes| then SeqLayers(pool, sizes, kps, nets)[n] else [])
  {
    var f := (b: int, net: Site -> Reply) => SequentialPass(pool, b, kps, net).phases;
    var g := (b: int, net: Site -> Reply) =>
      if SequentialPass(pool, b, kps, net).Completed? then ConcurrentPass(pool, b, kps, net) else [];
    var sps, cps := ByPosition(sizes, nets, f), ByPosition(sizes, nets, g);
    ByPositionTail(sizes, nets, f);
    ByPositionTail(sizes, nets, g);
    FirstStopTail(pool, sizes, kps, nets);
    LayersStep(sps, cps, FirstStop(pool, sizes[1..], kps, Later(nets)), rest);
  }

  /** A batch size listed twice is run twice: when the first run's calls
      all succeed and the second run's first call embeds errors, both
      phases of the first run reach the disk and the second run stops the
      process. */
  lemma RepeatedSizeCanStop(pool: seq<Curie>, b: int, kps: seq<string>, nets: Nets)
    requires b > 0 && |pool| > 0 && |kps| > 0
    requires forall s :: !EmbedsErrors(nets(0)(s))
    requires EmbedsErrors(nets(1)(At(Sequential, kps[0], b, 0)))
    ensures Sweep(pool, [b, b], kps, nets).Stopped?
    ensures |Sweep(pool, [b, b], kps, nets).phases| == 2 * |kps|
  {
    BatchCount(pool, b);
    assert Exits(pool, b, kps[0], nets(1));
    assert PassStops(pool, [b, b][1], kps, nets(1));
    assert !PassStops(pool, b, kps, nets(0));
    var first := SequentialPass(pool, b, kps, nets(0));
    assert first.Completed?;
    assert [b, b][1..] == [b];
    var rest := Sweep(pool, [b], kps, Later(nets));
    assert SequentialPass(pool, b, kps, Later(nets)(0)).Stopped?;
    ExitKeepsEarlierPhases(pool, b, kps, nets(1), 0);
  }

  /** For a positive batch size, the sequential and the concurrent phase of a
      provider carry the very same batches in the same order: the
      `ceil(n / b)` windows of the pool, which joined give the pool back. */
  lemma PhasesShareBatches(pool: seq<Curie>, b: int, kp: string, net: Site -> Reply)
    requires b > 0
    ensures Carried(ConcurrentStats(pool, b, kp, net).results) == Batches(pool, b)
    ensures SequentialStats(pool, b, kp, net).Some? ==>
      Carried(SequentialStats(pool, b, kp, net).value.results) == Batches(pool, b)
    ensures |ConcurrentStats(pool, b, kp, net).results| == (|pool| + b - 1) / b
    ensures Concat(Carried(ConcurrentStats(pool, b, kp, net).results)) == pool
  {
    var batches := Batches(pool, b);
    var cs := ConcurrentStats(pool, b, kp, net).results;
    assert |cs| == |batches|;
    forall i | 0 <= i < |cs| ensures Carried(cs)[i] == batches[i] {
      assert cs[i] == Carrying(Execute(net(At(Concurrent, kp, b, i))), batches[i]);
    }
    assert Carried(cs) == batches;
    var s := SequentialStats(pool, b, kp, net);
    if s.Some? {
      assert Carried(s.value.results) == batches;
    }
    BatchCount(pool, b);
    BatchesCover(pool, b);
  }

  /** The phases of one batch size: the sequential pass, then, if it
      completed, the concurrent pass. */
  function SizePhases(pool: seq<Curie>, b: int, kps: seq<string>, net: Site -> Reply): seq<Phase>
    requires b != 0
  {
    var s := SequentialPass(pool, b, kps, net);
    if s.Completed? then s.phases + ConcurrentPass(pool, b, kps, net) else s.phases
  }

  /** A sequential pass and a concurrent pass over the same providers with
      the same key leave each provider's statistics under that key in both
      tables, and touch no other key and no other provider. */
  lemma PassPairEffect(reg: Registry, kps: seq<string>, key: Key, sp: seq<Phase>, cp: seq<Phase>)
    requires Distinct(kps) && |sp| == |kps| == |cp|
    requires forall x :: 0 <= x < |kps| ==> sp[x].mode == Sequential && sp[x].endpoint == kps[x] && sp[x].key == key
    requires forall x :: 0 <= x < |kps| ==> cp[x].mode == Concurrent && cp[x].endpoint == kps[x] && cp[x].key == key
    ensures var r := ApplyAll(reg, Writes(sp + cp));
      && (forall x :: 0 <= x < |kps| ==>
            SlotAt(r, Sequential, kps[x], key) == Some(Filled(sp[x].stats))
            && SlotAt(r, Concurrent, kps[x], key) == Some(Filled(cp[x].stats)))
      && (forall m, e, k :: (k != key || e !in kps) ==> SlotAt(r, m, e, k) == SlotAt(reg, m, e, k))
      && (forall m, e :: e !in kps ==> EntryAt(r, m, e) == EntryAt(reg, m, e))
  {
    var n := |kps|;
    var ps := sp + cp;
    PairShape(kps, key, sp, cp);
    PhasesEffect(reg, ps);
    var r := ApplyAll(reg, Writes(ps));
    forall x | 0 <= x < n
      ensures SlotAt(r, Sequential, kps[x], key) == Some(Filled(sp[x].stats))
      ensures SlotAt(r, Concurrent, kps[x], key) == Some(Filled(cp[x].stats))
    {
      assert ps[x] == sp[x] && ps[x + n] == cp[x];
    }
    forall m, e, k | k != key || e !in kps ensures SlotAt(r, m, e, k) == SlotAt(reg, m, e, k) {
      assert !Covers(ps, m, e, k);
    }
    forall m, e | e !in kps ensures EntryAt(r, m, e) == EntryAt(reg, m, e) {
      assert !Touches(ps, m, e);
    }
  }

  /** The phases of a pass pair all carry `key` and a listed provider, and
      no two share a slot. */
  lemma PairShape(kps: seq<string>, key: Key, sp: seq<Phase>, cp: seq<Phase>)
    requires Distinct(kps) && |sp| == |kps| == |cp|
    requires forall x :: 0 <= x < |kps| ==> sp[x].mode == Sequential && sp[x].endpoint == kps[x] && sp[x].key == key
    requires forall x :: 0 <= x < |kps| ==> cp[x].mode == Concurrent && cp[x].endpoint == kps[x] && cp[x].key == key
    ensures forall x :: 0 <= x < |sp + cp| ==> (sp + cp)[x].key == key && (sp + cp)[x].endpoint in kps
    ensures DistinctSlots(sp + cp)
  {
    var n := |kps|;
    var ps := sp + cp;
    forall x | 0 <= x < |ps| ensures ps[x].key == key && ps[x].endpoint in kps {
      if x >= n {
        assert ps[x] == cp[x - n];
      }
    }
    forall x, y | 0 <= x < y < |ps|
      ensures ps[x].mode != ps[y].mode || ps[x].endpoint != ps[y].endpoint || ps[x].key != ps[y].key
    {
      if y < n {
        assert kps[x] != kps[y];
      } else if n <= x {
        assert ps[x] == cp[x - n] && ps[y] == cp[y - n];
        assert kps[x - n] != kps[y - n];
      } else {
        assert ps[y] == cp[y - n];
      }
    }
  }

  /** What the two passes for batch size `b` leave in the document when the
      sequential pass completes: under both tables, key `b` of every provider
      holds that provider's phase statistics, and every other key and
      provider keeps its value. */
  lemma SizeEffect(reg: Registry, pool: seq<Curie>, b: int, kps: seq<string>, net: Site -> Reply)
    requires b != 0 && Distinct(kps)
    requires SequentialPass(pool, b, kps, net).Completed?
    ensures var r := ApplyAll(reg, Writes(SizePhases(pool, b, kps, net)));
      && (forall x :: 0 <= x < |kps| ==>
            SlotAt(r, Sequential, kps[x], IntKey(b)) == Some(Filled(SequentialStats(pool, b, kps[x], net).value))
            && SlotAt(r, Concurrent, kps[x], IntKey(b)) == Some(Filled(ConcurrentStats(pool, b, kps[x], net))))
      && (forall m, e, k :: (k != IntKey(b) || e !in kps) ==> SlotAt(r, m, e, k) == SlotAt(reg, m, e, k))
      && (forall m, e :: e !in kps ==> EntryAt(r, m, e) == EntryAt(reg, m, e))
  {
    var sp := SequentialPass(pool, b, kps, net).phases;
    var cp := ConcurrentPass(pool, b, kps, net);
    PassPairEffect(reg, kps, IntKey(b), sp, cp);
    var os := Outcomes(pool, b, kps, net);
    assert forall x :: 0 <= x < |kps| ==> os[x] == SequentialStats(pool, b, kps[x], net);
  }

  /** The sequential pass stops at the first provider that exits: the
      phases of every provider before it are on disk, and nothing after. */
  lemma ExitKeepsEarlierPhases(pool: seq<Curie>, b: int, kps: seq<string>, net: Site -> Reply, x: nat)
    requires b != 0 && x < |kps| && Exits(pool, b, kps[x], net)
    requires forall y :: 0 <= y < x ==> !Exits(pool, b, kps[y], net)
    ensures SequentialPass(pool, b, kps, net).Stopped?
    ensures |SequentialPass(pool, b, kps, net).phases| == x
  {
    var r := SequentialPass(pool, b, kps, net);
    var os := Outcomes(pool, b, kps, net);
    assert os[x].None?;
  }
}
