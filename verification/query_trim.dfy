/**
  Query shaping of the per-endpoint query sweep: the stored query is copied,
  every query node's `ids` list is cut to the first `num_curies` entries, and
  `bypass_cache` is set. Also the "n_b" string under which each (calls, batch)
  variant is stored.
 */
module QueryTrim {
  import opened Values

  /** A query-graph node: its `ids` field and every other field (categories,
      set interpretation, ...) as opaque text. */
  datatype QNode = QNode(ids: Field<seq<Curie>>, attributes: map<string, string>)

  /** `message.query_graph`: the named nodes, and everything else (edges, ...)
      as opaque text. */
  datatype Graph = Graph(nodes: map<string, QNode>, rest: map<string, string>)

  /** A stored query. `graph` is `None` when the path
      `message.query_graph.nodes` does not exist; `extras` stands for every
      other top-level field. */
  datatype Query = Query(graph: Option<Graph>, bypassCache: Option<bool>, extras: map<string, string>)

  /** Python's `xs[:k]`: the first `k` elements, or all but the last `-k`
      when `k` is negative. */
  function PrefixTo<T>(xs: seq<T>, k: int): (r: seq<T>)
    ensures r <= xs
    ensures k >= 0 ==> |r| == Min(k, |xs|)
    ensures k < 0 ==> |r| == if |xs| + k > 0 then |xs| + k else 0
  {
    if k >= 0 then xs[..Min(k, |xs|)]
    else if |xs| + k > 0 then xs[..|xs| + k]
    else []
  }

  function TrimNode(n: QNode, k: int): QNode {
    match n.ids
    case Present(xs) => n.(ids := Present(PrefixTo(xs, k)))
    case _ => n
  }

  /** Slicing `None` raises: a node whose `ids` is null makes the lookup fail
      before any request is sent. */
  predicate Trimmable(q: Query) {
    q.graph.Some? && forall id :: id in q.graph.value.nodes ==> !q.graph.value.nodes[id].ids.Null?
  }

  /** `generate_message`, applied to a copy of the stored query; `None` when
      it raises. */
  function GenerateMessage(q: Query, k: int): (r: Option<Query>)
    ensures r.Some? <==> Trimmable(q)
    ensures r.Some? ==>
      && r.value.bypassCache == Some(true)
      && r.value.extras == q.extras
      && r.value.graph.Some?
      && r.value.graph.value.rest == q.graph.value.rest
      && r.value.graph.value.nodes.Keys == q.graph.value.nodes.Keys
    ensures r.Some? ==> forall id :: id in q.graph.value.nodes ==>
      var before, after := q.graph.value.nodes[id], r.value.graph.value.nodes[id];
      && after.attributes == before.attributes
      && (before.ids.Absent? ==> after.ids.Absent?)
      && (before.ids.Present? ==> after.ids.Present? && after.ids.value <= before.ids.value)
      && (before.ids.Present? && k >= 0 ==> |after.ids.value| == Min(k, |before.ids.value|))
  {
    if !Trimmable(q) then None
    else
      var g := q.graph.value;
      var nodes := map id | id in g.nodes :: TrimNode(g.nodes[id], k);
      Some(q.(graph := Some(g.(nodes := nodes)), bypassCache := Some(true)))
  }

  /** With a non-negative count, trimming a second time changes nothing. */
  lemma TrimIdempotent(q: Query, k: int)
    requires k >= 0 && Trimmable(q)
    ensures GenerateMessage(q, k).Some?
    ensures GenerateMessage(GenerateMessage(q, k).value, k) == GenerateMessage(q, k)
  {
    var once := GenerateMessage(q, k).value;
    assert Trimmable(once);
    var twice := GenerateMessage(once, k).value;
    var g1, g2 := once.graph.value, twice.graph.value;
    forall id | id in g1.nodes ensures g2.nodes[id] == g1.nodes[id] {
      var n := g1.nodes[id];
      if n.ids.Present? {
        assert PrefixTo(n.ids.value, k) == n.ids.value;
      }
    }
    assert g2.nodes == g1.nodes;
  }

  /** A negative count is not idempotent: `ids[:-1]` drops one more id each
      time. The sweep only uses positive counts. */
  lemma NegativeTrimNotIdempotent()
    ensures var q := Query(Some(Graph(map["n0" := QNode(Present(["a", "b"]), map[])], map[])), None, map[]);
            var once := GenerateMessage(q, -1);
            once.Some? && GenerateMessage(once.value, -1) != once
  {
    var q := Query(Some(Graph(map["n0" := QNode(Present(["a", "b"]), map[])], map[])), None, map[]);
    assert Trimmable(q);
    assert PrefixTo(["a", "b"], -1) == ["a"];
    var once := GenerateMessage(q, -1).value;
    assert once.graph.value.nodes["n0"].ids == Present(["a"]);
    assert Trimmable(once);
    assert PrefixTo(["a"], -1) == [];
    var twice := GenerateMessage(once, -1).value;
    assert twice.graph.value.nodes["n0"].ids == Present([]);
  }

  // ---- the "n_b" variant key ----

  function DigitChar(d: nat): char
    requires d < 10
  {
    (48 + d) as char
  }

  predicate IsDigit(c: char) {
    48 <= c as int <= 57
  }

  predicate IsDecimal(s: string) {
    |s| > 0 && forall i :: 0 <= i < |s| ==> IsDigit(s[i])
  }

  /** Python's `str(n)` for a non-negative integer. */
  function Decimal(n: nat): (s: string)
    ensures IsDecimal(s)
  {
    if n < 10 then [DigitChar(n)] else Decimal(n / 10) + [DigitChar(n % 10)]
  }

  /** Reading a string of digits back as a number. */
  function ParseDecimal(s: string): nat
    requires forall i :: 0 <= i < |s| ==> IsDigit(s[i])
  {
    if |s| == 0 then 0
    else
      var last := s[|s| - 1];
      assert IsDigit(last);
      ParseDecimal(s[..|s| - 1]) * 10 + (last as int - 48)
  }

  lemma {:induction false} DecimalRoundTrip(n: nat)
    ensures ParseDecimal(Decimal(n)) == n
  {
    if n >= 10 {
      DecimalRoundTrip(n / 10);
      var s := Decimal(n);
      assert s[..|s| - 1] == Decimal(n / 10);
    }
  }

  /** The key `f"{n}_{b}"` of the per-endpoint sweep. */
  function PairKey(calls: nat, batch: nat): string {
    Decimal(calls) + "_" + Decimal(batch)
  }

  /** Position of the first '_' in `s`, or `|s|`. */
  function FirstUnderscore(s: string): (r: nat)
    ensures r <= |s|
    ensures forall j :: 0 <= j < r ==> s[j] != '_'
    ensures r < |s| ==> s[r] == '_'
  {
    if |s| == 0 || s[0] == '_' then 0 else 1 + FirstUnderscore(s[1..])
  }

  /** Reading an "n_b" key back into its pair. */
  function ParsePairKey(s: string): Option<(nat, nat)> {
    var i := FirstUnderscore(s);
    if i < |s| && IsDecimal(s[..i]) && IsDecimal(s[i + 1..]) then
      Some((ParseDecimal(s[..i]), ParseDecimal(s[i + 1..])))
    else None
  }

  /** The key determines its pair, so two different (calls, batch) variants
      of one endpoint never share a slot. */
  lemma PairKeyRoundTrip(calls: nat, batch: nat)
    ensures ParsePairKey(PairKey(calls, batch)) == Some((calls, batch))
  {
    var a, b := Decimal(calls), Decimal(batch);
    var s := PairKey(calls, batch);
    assert s == a + "_" + b;
    assert s[|a|] == '_';
    var i := FirstUnderscore(s);
    assert i == |a|;
    assert s[..i] == a;
    assert s[i + 1..] == b;
    DecimalRoundTrip(calls);
    DecimalRoundTrip(batch);
  }

  lemma PairKeyInjective(n1: nat, b1: nat, n2: nat, b2: nat)
    requires PairKey(n1, b1) == PairKey(n2, b2)
    ensures n1 == n2 && b1 == b2
  {
    PairKeyRoundTrip(n1, b1);
    PairKeyRoundTrip(n2, b2);
  }
}
