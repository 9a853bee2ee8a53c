/**
  The Result Aggregator: the loop every phase runs over its ordered call
  results to build `{total_results, statuses, results}`. The wall-clock
  `total_time` is not modelled.
 */
module Stats {
  import opened Values

  /** One histogram entry: a status and the number of calls that reported it. */
  datatype Bucket = Bucket(status: Status, count: nat)

  /** The statistics of one phase. `statuses` lists the histogram in insertion
      order, as the Python dict does; `results` keeps the calls in call order. */
  datatype PhaseStats = PhaseStats(totalResults: nat, statuses: seq<Bucket>, results: seq<CallResult>)

  /** The histogram value for `s`, or 0 when `s` is not a key. */
  function CountOf(h: seq<Bucket>, s: Status): nat
  {
    if |h| == 0 then 0
    else if h[0].status == s then h[0].count
    else CountOf(h[1..], s)
  }

  /** No status appears twice among the keys. */
  predicate DistinctKeys(h: seq<Bucket>) {
    forall i, j :: 0 <= i < j < |h| ==> h[i].status != h[j].status
  }

  /** The keys of the histogram, in insertion order. */
  function Keys(h: seq<Bucket>): seq<Status> {
    seq(|h|, i requires 0 <= i < |h| => h[i].status)
  }

  /** The sum of the histogram's values. */
  function Size(h: seq<Bucket>): nat {
    if |h| == 0 then 0 else h[0].count + Size(h[1..])
  }

  /** The statuses of the calls, in call order. */
  function Statuses(rs: seq<CallResult>): seq<Status> {
    seq(|rs|, i requires 0 <= i < |rs| => rs[i].status)
  }

  /** Reference sum of the result counts, accumulated from the front. */
  function TotalResults(rs: seq<CallResult>): nat {
    if |rs| == 0 then 0 else rs[0].numResults + TotalResults(rs[1..])
  }

  /** Every key is distinct and every value positive, as in a histogram
      built only by `Tally`. */
  predicate WellFormed(h: seq<Bucket>) {
    DistinctKeys(h) && forall i :: 0 <= i < |h| ==> h[i].count > 0
  }

  /** Counting one more call with status `s`: its value grows by one and
      every other status keeps its value. */
  function Tally(h: seq<Bucket>, s: Status): (r: seq<Bucket>)
    ensures CountOf(r, s) == CountOf(h, s) + 1
    ensures forall t :: t != s ==> CountOf(r, t) == CountOf(h, t)
    ensures Size(r) == Size(h) + 1
  {
    if |h| == 0 then [Bucket(s, 1)]
    else if h[0].status == s then [Bucket(s, h[0].count + 1)] + h[1..]
    else [h[0]] + Tally(h[1..], s)
  }

  /** An unseen status is appended with value 1; a seen one is incremented in
      place, so the keys and their insertion order stay as they were. */
  lemma {:induction false} TallyShape(h: seq<Bucket>, s: Status)
    ensures s in Keys(h) ==> |Tally(h, s)| == |h| && forall i :: 0 <= i < |h| ==> Tally(h, s)[i].status == h[i].status
    ensures s !in Keys(h) ==> Tally(h, s) == h + [Bucket(s, 1)]
    ensures |h| <= |Tally(h, s)| && forall i :: 0 <= i < |h| ==> Tally(h, s)[i].count >= h[i].count
    decreases |h|
  {
    if |h| > 0 && h[0].status != s {
      var r, t := Tally(h, s), Tally(h[1..], s);
      TallyShape(h[1..], s);
      assert s in Keys(h) <==> s in Keys(h[1..]) by {
        assert Keys(h) == [h[0].status] + Keys(h[1..]);
      }
      assert r == [h[0]] + t;
      if s !in Keys(h) {
        assert [h[0]] + (h[1..] + [Bucket(s, 1)]) == h + [Bucket(s, 1)];
      }
      forall i | 1 <= i < |h| ensures r[i].count >= h[i].count && (s in Keys(h) ==> r[i].status == h[i].status) {
        assert r[i] == t[i - 1];
      }
    } else if |h| > 0 {
      assert Keys(h)[0] == s;
    }
  }

  /** Tallying keeps a histogram well formed. */
  lemma TallyWellFormed(h: seq<Bucket>, s: Status)
    requires WellFormed(h)
    ensures WellFormed(Tally(h, s))
  {
    TallyShape(h, s);
    var r := Tally(h, s);
    if s !in Keys(h) {
      forall i, j | 0 <= i < j < |r| ensures r[i].status != r[j].status {
        if j == |h| {
          assert r[i].status == Keys(h)[i];
        }
      }
    }
  }

  /** The sum of result counts can equally be accumulated from the back. */
  lemma {:induction false} TotalResultsSnoc(rs: seq<CallResult>)
    requires |rs| > 0
    ensures TotalResults(rs) == TotalResults(rs[..|rs| - 1]) + rs[|rs| - 1].numResults
    decreases |rs|
  {
    if |rs| > 1 {
      TotalResultsSnoc(rs[1..]);
      assert rs[1..][..|rs| - 2] == rs[..|rs| - 1][1..];
    }
  }

  /** The fold over a phase's results. The histogram holds, for every status,
      exactly its number of occurrences; its values add up to the number of
      calls; `total_results` is the sum of the counts; the results are kept
      in call order. */
  function Summarize(rs: seq<CallResult>): (r: PhaseStats)
    ensures r.results == rs
    ensures r.totalResults == TotalResults(rs)
    ensures WellFormed(r.statuses)
    ensures forall s :: CountOf(r.statuses, s) == multiset(Statuses(rs))[s]
    ensures Size(r.statuses) == |rs|
    decreases |rs|
  {
    if |rs| == 0 then PhaseStats(0, [], [])
    else
      var prior := Summarize(rs[..|rs| - 1]);
      var last := rs[|rs| - 1];
      TotalResultsSnoc(rs);
      assert Statuses(rs) == Statuses(rs[..|rs| - 1]) + [last.status];
      TallyShape(prior.statuses, last.status);
      TallyWellFormed(prior.statuses, last.status);
      PhaseStats(prior.totalResults + last.numResults, Tally(prior.statuses, last.status), rs)
  }

  /** In a well-formed histogram a key is listed exactly when its value is
      positive. */
  lemma {:induction false} KeysAreCounted(h: seq<Bucket>, s: Status)
    requires WellFormed(h)
    ensures s in Keys(h) <==> CountOf(h, s) > 0
    decreases |h|
  {
    if |h| > 0 {
      assert Keys(h) == [h[0].status] + Keys(h[1..]);
      assert WellFormed(h[1..]);
      KeysAreCounted(h[1..], s);
      if s == h[0].status {
        assert s !in Keys(h[1..]);
      }
    }
  }

  /** The histogram's keys are exactly the statuses the calls reported. */
  lemma StatusKeys(rs: seq<CallResult>, s: Status)
    ensures s in Keys(Summarize(rs).statuses) <==> s in Statuses(rs)
  {
    KeysAreCounted(Summarize(rs).statuses, s);
  }

  /** A phase with no calls: zero results and an empty histogram. */
  lemma EmptyPhase()
    ensures Summarize([]) == PhaseStats(0, [], [])
  {
  }

  /** A phase in which every call returns the same status and count. */
  lemma {:induction false} UniformPhase(rs: seq<CallResult>, c: CallResult)
    requires |rs| > 0
    requires forall i :: 0 <= i < |rs| ==> rs[i] == c
    ensures Summarize(rs).statuses == [Bucket(c.status, |rs|)]
    ensures Summarize(rs).totalResults == |rs| * c.numResults
    decreases |rs|
  {
    var prior := rs[..|rs| - 1];
    if |rs| == 1 {
      assert prior == [];
    } else {
      UniformPhase(prior, c);
      var n := |rs|;
      var p := Summarize(prior);
      assert p.statuses == [Bucket(c.status, n - 1)];
      assert rs[n - 1] == c;
      assert Summarize(rs).statuses == Tally(p.statuses, c.status);
      assert Tally([Bucket(c.status, n - 1)], c.status) == [Bucket(c.status, n)];
      assert Summarize(rs).totalResults == p.totalResults + c.numResults;
      MulStep(n, c.numResults);
    }
  }

  lemma MulStep(n: int, k: int)
    ensures n * k == (n - 1) * k + k
  {
  }

  /** Three sequential calls: two 200s with three results and a 500 with none. */
  lemma MixedPhase()
    ensures var a := CallResult(HttpCode(200), 3, None);
            var b := CallResult(HttpCode(500), 0, None);
            Summarize([a, a, b]) == PhaseStats(6, [Bucket(HttpCode(200), 2), Bucket(HttpCode(500), 1)], [a, a, b])
  {
    var a := CallResult(HttpCode(200), 3, None);
    var b := CallResult(HttpCode(500), 0, None);
    assert [a, a, b][..2] == [a, a];
    assert [a, a][..1] == [a];
    assert [a][..0] == [];
    var s1 := Summarize([a]);
    assert s1.statuses == [Bucket(HttpCode(200), 1)];
    var s2 := Summarize([a, a]);
    assert s2.statuses == Tally(s1.statuses, a.status) == [Bucket(HttpCode(200), 2)];
    var s3 := Summarize([a, a, b]);
    assert s3.statuses == Tally(s2.statuses, b.status);
  }
}
