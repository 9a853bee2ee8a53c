/**
  The run registry: the `output` document every driver grows, of shape
  `{sequential: {endpoint: ...}, concurrent: {endpoint: ...}}`, and the writes
  the drivers make to it. The Result Sink dumps the whole document after every
  phase, so the document on disk after a phase is the registry built by the
  writes made so far.
 */
module Registry {
  import opened Values
  import opened Stats

  datatype Mode = Sequential | Concurrent

  /** A variant key: an integer (batch size or concurrency level) or a string
      (the "n_b" key of the per-endpoint query sweep). */
  datatype Key = IntKey(n: int) | StrKey(s: string)

  /** A variant's slot: the `{}` placeholder written when its phase starts,
      or the phase's statistics. */
  datatype Slot = Reserved | Filled(stats: PhaseStats)

  /** An endpoint's entry: a map from variant keys to slots, or (for the
      aggregator sequential phases) the statistics themselves. */
  datatype Entry = Variants(slots: map<Key, Slot>) | Whole(stats: PhaseStats)

  datatype Registry = Registry(sequential: map<string, Entry>, concurrent: map<string, Entry>)

  /** The document every driver starts from. */
  const Empty: Registry := Registry(map[], map[])

  /** One assignment a driver makes into the document:
      - Open: `if ep not in output[mode]: output[mode][ep] = {}`;
      - Reserve: the same, then `output[mode][ep][key] = {}`;
      - Fill: `output[mode][ep][key] = stats`;
      - Replace: `output[mode][ep] = stats`. */
  datatype Write =
    | Open(mode: Mode, endpoint: string)
    | Reserve(mode: Mode, endpoint: string, key: Key)
    | Fill(mode: Mode, endpoint: string, key: Key, stats: PhaseStats)
    | Replace(mode: Mode, endpoint: string, stats: PhaseStats)

  function Table(reg: Registry, mode: Mode): map<string, Entry> {
    match mode
    case Sequential => reg.sequential
    case Concurrent => reg.concurrent
  }

  function WithTable(reg: Registry, mode: Mode, t: map<string, Entry>): Registry {
    match mode
    case Sequential => reg.(sequential := t)
    case Concurrent => reg.(concurrent := t)
  }

  /** `output[mode][ep]`, when present. */
  function EntryAt(reg: Registry, mode: Mode, ep: string): Option<Entry> {
    if ep in Table(reg, mode) then Some(Table(reg, mode)[ep]) else None
  }

  /** `output[mode][ep][key]`, when the entry is a variant map holding `key`. */
  function SlotAt(reg: Registry, mode: Mode, ep: string, key: Key): Option<Slot> {
    match EntryAt(reg, mode, ep)
    case Some(Variants(slots)) => if key in slots then Some(slots[key]) else None
    case _ => None
  }

  /** `t[ep]`, when present. */
  function Get(t: map<string, Entry>, ep: string): Option<Entry> {
    if ep in t then Some(t[ep]) else None
  }

  /** The variant map an assignment under an endpoint extends: the existing
      one, or a fresh `{}`. */
  function SlotsOf(prior: Option<Entry>): map<Key, Slot> {
    if prior.Some? && prior.value.Variants? then prior.value.slots else map[]
  }

  /** The endpoint's entry after the write, from its entry before. */
  function Updated(prior: Option<Entry>, w: Write): Entry {
    match w
    case Open(_, _) => if prior.Some? then prior.value else Variants(map[])
    case Reserve(_, _, key) => Variants(SlotsOf(prior)[key := Reserved])
    case Fill(_, _, key, stats) => Variants(SlotsOf(prior)[key := Filled(stats)])
    case Replace(_, _, stats) => Whole(stats)
  }

  /** Performing one write. Only `output[mode][ep]` changes; a variant write
      changes only its own key; nothing but `Replace` removes a key. */
  function Apply(reg: Registry, w: Write): (r: Registry)
    ensures forall m, e :: (m != w.mode || e != w.endpoint) ==> EntryAt(r, m, e) == EntryAt(reg, m, e)
    ensures EntryAt(r, w.mode, w.endpoint).Some?
    ensures w.Open? ==> (EntryAt(r, w.mode, w.endpoint) ==
      if EntryAt(reg, w.mode, w.endpoint).Some? then EntryAt(reg, w.mode, w.endpoint) else Some(Variants(map[])))
    ensures w.Reserve? ==> SlotAt(r, w.mode, w.endpoint, w.key) == Some(Reserved)
    ensures w.Fill? ==> SlotAt(r, w.mode, w.endpoint, w.key) == Some(Filled(w.stats))
    ensures w.Replace? ==> EntryAt(r, w.mode, w.endpoint) == Some(Whole(w.stats))
    ensures (w.Reserve? || w.Fill?) ==>
      forall k :: k != w.key ==> SlotAt(r, w.mode, w.endpoint, k) == SlotAt(reg, w.mode, w.endpoint, k)
    ensures !w.Replace? ==>
      forall k :: SlotAt(reg, w.mode, w.endpoint, k).Some? ==> SlotAt(r, w.mode, w.endpoint, k).Some?
  {
    var t := Table(reg, w.mode);
    WithTable(reg, w.mode, t[w.endpoint := Updated(Get(t, w.endpoint), w)])
  }

  /** Performing writes in order. */
  function ApplyAll(reg: Registry, ws: seq<Write>): Registry
    decreases |ws|
  {
    if |ws| == 0 then reg else ApplyAll(Apply(reg, ws[0]), ws[1..])
  }

  /** The endpoints a sequence of writes touches. */
  function Endpoints(ws: seq<Write>): set<string>
    decreases |ws|
  {
    if |ws| == 0 then {} else {ws[0].endpoint} + Endpoints(ws[1..])
  }

  lemma {:induction false} ApplyAllAppend(reg: Registry, a: seq<Write>, b: seq<Write>)
    ensures ApplyAll(reg, a + b) == ApplyAll(ApplyAll(reg, a), b)
    decreases |a|
  {
    if |a| > 0 {
      assert (a + b)[1..] == a[1..] + b;
      ApplyAllAppend(Apply(reg, a[0]), a[1..], b);
    } else {
      assert a + b == b;
    }
  }

  /** No write in `ws` is made under `mode` and `ep`. */
  predicate Untouched(ws: seq<Write>, mode: Mode, ep: string) {
    forall i :: 0 <= i < |ws| ==> ws[i].mode != mode || ws[i].endpoint != ep
  }

  /** Writes made elsewhere leave an endpoint's entry as it was. */
  lemma {:induction false} ApplyAllElsewhere(reg: Registry, ws: seq<Write>, mode: Mode, ep: string)
    requires Untouched(ws, mode, ep)
    ensures EntryAt(ApplyAll(reg, ws), mode, ep) == EntryAt(reg, mode, ep)
    decreases |ws|
  {
    if |ws| > 0 {
      ApplyAllElsewhere(Apply(reg, ws[0]), ws[1..], mode, ep);
    }
  }

  lemma {:induction false} EndpointsMember(ws: seq<Write>, i: nat)
    requires i < |ws|
    ensures ws[i].endpoint in Endpoints(ws)
    decreases i
  {
    if i > 0 {
      EndpointsMember(ws[1..], i - 1);
    }
  }

  /** A write that leaves the slot `key` of `ep` under `mode` alone: it is
      elsewhere, or it is a variant write for another key. */
  predicate Spares(w: Write, mode: Mode, ep: string, key: Key) {
    w.mode != mode || w.endpoint != ep || ((w.Reserve? || w.Fill?) && w.key != key)
  }

  /** Writes that spare a slot leave it as it was. */
  lemma {:induction false} ApplyAllSpares(reg: Registry, ws: seq<Write>, mode: Mode, ep: string, key: Key)
    requires forall i :: 0 <= i < |ws| ==> Spares(ws[i], mode, ep, key)
    ensures SlotAt(ApplyAll(reg, ws), mode, ep, key) == SlotAt(reg, mode, ep, key)
    decreases |ws|
  {
    if |ws| > 0 {
      ApplyAllSpares(Apply(reg, ws[0]), ws[1..], mode, ep, key);
    }
  }

  /** The placeholder a phase writes first is gone once its statistics are
      written: the two writes of a phase leave the same document as the
      final assignment alone. */
  lemma ReserveThenFill(reg: Registry, mode: Mode, ep: string, key: Key, stats: PhaseStats)
    ensures ApplyAll(reg, [Reserve(mode, ep, key), Fill(mode, ep, key, stats)]) == Apply(reg, Fill(mode, ep, key, stats))
  {
    var w1, w2 := Reserve(mode, ep, key), Fill(mode, ep, key, stats);
    var r1 := Apply(reg, w1);
    assert [w1, w2][1..] == [w2];
    assert [w2][1..] == [];
    assert ApplyAll(reg, [w1, w2]) == ApplyAll(r1, [w2]);
    assert ApplyAll(r1, [w2]) == ApplyAll(Apply(r1, w2), []);
    var t := Table(reg, mode);
    var t1 := t[ep := Updated(Get(t, ep), w1)];
    assert Table(r1, mode) == t1;
    assert Get(t1, ep) == Some(Variants(SlotsOf(Get(t, ep))[key := Reserved]));
    assert SlotsOf(Get(t, ep))[key := Reserved][key := Filled(stats)] == SlotsOf(Get(t, ep))[key := Filled(stats)];
    assert t1[ep := Updated(Get(t1, ep), w2)] == t[ep := Updated(Get(t, ep), w2)];
  }

  /** Writes under different endpoints (or different modes) commute. */
  lemma Commute(reg: Registry, w1: Write, w2: Write)
    requires w1.mode != w2.mode || w1.endpoint != w2.endpoint
    ensures Apply(Apply(reg, w1), w2) == Apply(Apply(reg, w2), w1)
  {
    if w1.mode == w2.mode {
      var t := Table(reg, w1.mode);
      var v1 := Updated(Get(t, w1.endpoint), w1);
      var v2 := Updated(Get(t, w2.endpoint), w2);
      assert Get(t[w1.endpoint := v1], w2.endpoint) == Get(t, w2.endpoint);
      assert Get(t[w2.endpoint := v2], w1.endpoint) == Get(t, w1.endpoint);
      assert t[w1.endpoint := v1][w2.endpoint := v2] == t[w2.endpoint := v2][w1.endpoint := v1];
    }
  }

  /** A write commutes past a whole sequence of writes to other endpoints. */
  lemma {:induction false} CommutePast(reg: Registry, w: Write, ws: seq<Write>)
    requires w.endpoint !in Endpoints(ws)
    ensures ApplyAll(Apply(reg, w), ws) == Apply(ApplyAll(reg, ws), w)
    decreases |ws|
  {
    if |ws| > 0 {
      Commute(reg, w, ws[0]);
      CommutePast(Apply(reg, ws[0]), w, ws[1..]);
    }
  }

  /** `zs` interleaves `xs` and `ys`, keeping the order within each. */
  predicate IsMerge(xs: seq<Write>, ys: seq<Write>, zs: seq<Write>)
    decreases |zs|
  {
    if |zs| == 0 then xs == [] && ys == []
    else
      (|xs| > 0 && zs[0] == xs[0] && IsMerge(xs[1..], ys, zs[1..]))
      || (|ys| > 0 && zs[0] == ys[0] && IsMerge(xs, ys[1..], zs[1..]))
  }

  lemma {:induction false} MergeEndpoints(xs: seq<Write>, ys: seq<Write>, zs: seq<Write>)
    requires IsMerge(xs, ys, zs)
    ensures Endpoints(zs) == Endpoints(xs) + Endpoints(ys)
    decreases |zs|
  {
    if |zs| > 0 {
      if |xs| > 0 && zs[0] == xs[0] && IsMerge(xs[1..], ys, zs[1..]) {
        MergeEndpoints(xs[1..], ys, zs[1..]);
      } else {
        MergeEndpoints(xs, ys[1..], zs[1..]);
      }
    }
  }

  /** Two endpoints' writes, interleaved in any way, leave the same document
      as the first endpoint's writes followed by the second's. */
  lemma {:induction false} MergeIsSerial(reg: Registry, xs: seq<Write>, ys: seq<Write>, zs: seq<Write>)
    requires IsMerge(xs, ys, zs)
    requires Endpoints(xs) !! Endpoints(ys)
    ensures ApplyAll(reg, zs) == ApplyAll(ApplyAll(reg, xs), ys)
    decreases |zs|
  {
    if |zs| > 0 {
      if |xs| > 0 && zs[0] == xs[0] && IsMerge(xs[1..], ys, zs[1..]) {
        assert Endpoints(xs) == {xs[0].endpoint} + Endpoints(xs[1..]);
        MergeIsSerial(Apply(reg, xs[0]), xs[1..], ys, zs[1..]);
      } else {
        assert Endpoints(ys) == {ys[0].endpoint} + Endpoints(ys[1..]);
        MergeIsSerial(Apply(reg, ys[0]), xs, ys[1..], zs[1..]);
        CommutePast(reg, ys[0], xs);
      }
    }
  }

  /** The writes of all logs, one log after the other. */
  function Flatten(logs: seq<seq<Write>>): seq<Write>
    decreases |logs|
  {
    if |logs| == 0 then [] else logs[0] + Flatten(logs[1..])
  }

  /** The endpoints every log touches. */
  function AllEndpoints(logs: seq<seq<Write>>): set<string>
    decreases |logs|
  {
    if |logs| == 0 then {} else Endpoints(logs[0]) + AllEndpoints(logs[1..])
  }

  /** `z` is one possible interleaving of all the logs. */
  ghost predicate Interleaves(z: seq<Write>, logs: seq<seq<Write>>)
    decreases |logs|
  {
    if |logs| == 0 then z == []
    else exists y :: IsMerge(logs[0], y, z) && Interleaves(y, logs[1..])
  }

  /** No two logs touch a common endpoint. */
  predicate Separate(logs: seq<seq<Write>>) {
    forall i, j :: 0 <= i < j < |logs| ==> Endpoints(logs[i]) !! Endpoints(logs[j])
  }

  lemma {:induction false} InterleavedEndpoints(z: seq<Write>, logs: seq<seq<Write>>)
    requires Interleaves(z, logs)
    ensures Endpoints(z) == AllEndpoints(logs)
    decreases |logs|
  {
    if |logs| > 0 {
      var y :| IsMerge(logs[0], y, z) && Interleaves(y, logs[1..]);
      InterleavedEndpoints(y, logs[1..]);
      MergeEndpoints(logs[0], y, z);
    }
  }

  lemma {:induction false} SeparateFirst(logs: seq<seq<Write>>)
    requires |logs| > 0 && Separate(logs)
    ensures Endpoints(logs[0]) !! AllEndpoints(logs[1..])
    ensures Separate(logs[1..])
    decreases |logs|
  {
    if |logs| > 1 {
      var rest := logs[1..];
      assert Separate(rest) by {
        forall i, j | 0 <= i < j < |rest| ensures Endpoints(rest[i]) !! Endpoints(rest[j]) {
          assert rest[i] == logs[i + 1] && rest[j] == logs[j + 1];
        }
      }
      var skip := [logs[0]] + logs[2..];
      assert Separate(skip) by {
        forall i, j | 0 <= i < j < |skip| ensures Endpoints(skip[i]) !! Endpoints(skip[j]) {
          assert skip[i] == logs[if i == 0 then 0 else i + 1] && skip[j] == logs[j + 1];
        }
      }
      SeparateFirst(skip);
      assert skip[1..] == logs[2..] == rest[1..];
      assert AllEndpoints(rest) == Endpoints(logs[1]) + AllEndpoints(rest[1..]);
    }
  }

  /** When every endpoint's writes belong to one log, any interleaving of the
      logs (the all-endpoints-in-parallel topology) leaves the same document
      as running the endpoints one after another. */
  lemma {:induction false} InterleavingIsSerial(reg: Registry, z: seq<Write>, logs: seq<seq<Write>>)
    requires Interleaves(z, logs)
    requires Separate(logs)
    ensures ApplyAll(reg, z) == ApplyAll(reg, Flatten(logs))
    decreases |logs|
  {
    if |logs| > 0 {
      var y :| IsMerge(logs[0], y, z) && Interleaves(y, logs[1..]);
      SeparateFirst(logs);
      InterleavedEndpoints(y, logs[1..]);
      MergeIsSerial(reg, logs[0], y, z);
      InterleavingIsSerial(ApplyAll(reg, logs[0]), y, logs[1..]);
      ApplyAllAppend(reg, logs[0], Flatten(logs[1..]));
    }
  }
}
