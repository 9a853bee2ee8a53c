/**
  The driver of the asynchronous aggregator: one sequential phase of 15 job
  lookups, whose statistics replace the "ars" entry, then one gathered phase
  per concurrency level, each stored under its level.
 */
module ArsDriver {
  import opened Values
  import opened Stats
  import opened Registry
  import opened Phases
  import opened JobPoller
  import opened AggregatorPhases

  /** The endpoint name the driver records under. */
  const Ars: string := "ars"

  /** The lookup made at a site: the job the service runs there, polled with
      the reference interval and budget. */
  function ArsCall(net: Site -> JobScript): Site -> CallResult {
    (s: Site) => Lookup(net(s), PollInterval, MaxQueryTime).result
  }

  /** Every write `main` makes, in order. */
  function Main(net: Site -> JobScript): seq<Write> {
    EndpointWrites(Ars, ArsCall(net))
  }

  /** The document the run leaves: the "ars" sequential entry is the
      statistics of the 15 sequential lookups themselves, and each level's
      key holds the statistics of that many gathered lookups. */
  lemma MainEffect(net: Site -> JobScript)
    ensures var r := ApplyAll(Empty, Main(net));
      && EntryAt(r, Sequential, Ars) == Some(Whole(PlanOf(Ars, ArsCall(net)).stats))
      && (forall n :: n in Levels ==>
            SlotAt(r, Concurrent, Ars, IntKey(n)) == Some(Filled(LevelPhase(Ars, n, ArsCall(net)).stats)))
  {
    EndpointEffect(Empty, Ars, ArsCall(net));
  }

  /** No endpoint other than "ars" appears in the document. */
  lemma OnlyArs(net: Site -> JobScript)
    ensures forall m, e :: e != Ars ==> EntryAt(ApplyAll(Empty, Main(net)), m, e) == None
  {
    EndpointEffect(Empty, Ars, ArsCall(net));
  }

  /** Every lookup of the run polls at most 361 times, so the run ends. */
  lemma CallsArePollBounded(net: Site -> JobScript, s: Site)
    ensures Lookup(net(s), PollInterval, MaxQueryTime).polls <= 361
  {
    ReferencePollBound(net(s));
  }
}
