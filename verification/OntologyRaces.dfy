/** First resolutions and remediations of one group racing on its cache slot, step by step: once a
  * remediation has recorded its sidecar and cleared the drift, the cache never says drifted again. */
module OntologyRaces {
  import opened Common
  import opened OntologyCache

  type Tid = nat

  /** A first resolution: not begun; slot marked; sidecar probed for prior data; drift computed; entry
    * complete, about to be inserted. A remediation: not begun; sidecar written; in the clear loop with
    * the check still to run or already run. */
  datatype Thread =
    | Resolver
    | Marking
    | Probed(prior: bool)
    | Computed(drifted: bool)
    | Inserting(entry: Entry)
    | Remediator
    | Clearing(identity: Option<Check>)
    | MustRunCheck

  /** What does not change while the threads run: the ontology the group resolves to, whether it has
    * data, and the verdict of the identity check. */
  datatype Group = Group(ontology: Hash, hasData: bool, refused: bool)

  /** `cleared` says that some remediation has recorded its sidecar and returned from its clear. */
  datatype Race = Race(sidecar: Option<Hash>, slot: Slot, threads: map<Tid, Thread>, cleared: bool)

  datatype Step =
    | Start(tid: Tid, thread: Thread)
    | Go(tid: Tid)
    | Check(tid: Tid, canRun: bool)
    | Invalidate

  function Become(s: Race, tid: Tid, thread: Thread): Race {
    s.(threads := s.threads[tid := thread])
  }

  function End(s: Race, tid: Tid): Race {
    s.(threads := s.threads - {tid})
  }

  /** One atomic access by a thread, the identity check apart. */
  function Move(g: Group, s: Race, tid: Tid): Race
    requires tid in s.threads
  {
    match s.threads[tid]
    case Resolver => Become(s.(slot := Marked(s.slot)), tid, Marking)
    case Marking => Become(s, tid, Probed(s.sidecar.None? && g.hasData))
    case Probed(prior) => Become(s, tid, Computed(DriftAgainst(s.sidecar, g.ontology, prior)))
    case Computed(_) => s
    case Inserting(entry) => End(s.(slot := Inserted(s.slot, entry)), tid)
    case Remediator => Become(s.(sidecar := Some(g.ontology)), tid, Clearing(None))
    case Clearing(identity) =>
      (match ClearRound(s.slot, g.ontology, identity)
       case MustCheck => Become(s, tid, MustRunCheck)
       case Finished(slot) => End(s.(slot := slot, cleared := true), tid))
    case MustRunCheck => s
  }

  function Verdict(g: Group, canRun: bool): OntologyCache.Check {
    if canRun then Checked(g.refused) else Unchecked
  }

  /** The identity check of a thread that is due one. A resolution whose check cannot run caches
    * nothing. */
  function RunCheck(g: Group, s: Race, tid: Tid, canRun: bool): Race
    requires tid in s.threads
  {
    match s.threads[tid]
    case Computed(drifted) =>
      if canRun then Become(s, tid, Inserting(Entry(g.ontology, drifted, g.refused))) else End(s, tid)
    case MustRunCheck => Become(s, tid, Clearing(Some(Verdict(g, canRun))))
    case _ => s
  }

  function Do(g: Group, s: Race, step: Step): Race {
    match step
    case Start(tid, thread) =>
      if tid !in s.threads && (thread.Resolver? || thread.Remediator?) then Become(s, tid, thread) else s
    case Go(tid) => if tid in s.threads then Move(g, s, tid) else s
    case Check(tid, canRun) => if tid in s.threads then RunCheck(g, s, tid, canRun) else s
    case Invalidate => s.(slot := Absent)
  }

  function Run(g: Group, s: Race, steps: seq<Step>): Race {
    if steps == [] then s else Do(g, Run(g, s, steps[..|steps| - 1]), steps[|steps| - 1])
  }

  /** The step neither invalidates the slot nor is an identity check that cannot run. */
  predicate Benign(step: Step) {
    match step
    case Start(_, _) => true
    case Go(_) => true
    case Check(_, canRun) => canRun
    case Invalidate => false
  }

  // The invariant.

  /** The thread holds, or is bound to produce, an entry that says drifted. */
  predicate Stale(thread: Thread) {
    (thread.Computed? && thread.drifted) || (thread.Inserting? && thread.entry.drifted)
  }

  predicate PastMark(thread: Thread) {
    thread.Marking? || thread.Probed? || thread.Computed? || thread.Inserting?
  }

  predicate PastWrite(thread: Thread) {
    thread.Clearing? || thread.MustRunCheck?
  }

  predicate ThreadOk(g: Group, s: Race, thread: Thread) {
    && (PastMark(thread) ==> !s.slot.Absent?)
    && (PastWrite(thread) ==> s.sidecar == Some(g.ontology))
    && (thread.Clearing? && thread.identity.Some? ==> thread.identity.value == Checked(g.refused))
    && (thread.Inserting? ==> thread.entry.ontology == g.ontology && thread.entry.refused == g.refused)
  }

  ghost predicate NoStale(s: Race) {
    forall tid :: tid in s.threads ==> !Stale(s.threads[tid])
  }

  /** After a clear: no drift is cached, and none can be inserted any more. */
  ghost predicate Quiet(g: Group, s: Race) {
    && s.sidecar == Some(g.ontology)
    && (if s.slot.Resolved? then !s.slot.entry.drifted else NoStale(s))
  }

  ghost predicate Inv(g: Group, s: Race) {
    && (forall tid :: tid in s.threads ==> ThreadOk(g, s, s.threads[tid]))
    && (s.slot.Resolved? ==> s.slot.entry.ontology == g.ontology && s.slot.entry.refused == g.refused)
    && (s.cleared ==> Quiet(g, s))
  }

  lemma BenignStepKeepsInv(g: Group, s: Race, step: Step)
    requires Inv(g, s) && Benign(step)
    ensures Inv(g, Do(g, s, step))
  {
  }

  lemma {:induction false} RunKeepsInv(g: Group, s: Race, steps: seq<Step>)
    requires Inv(g, s) && forall step <- steps :: Benign(step)
    ensures Inv(g, Run(g, s, steps))
  {
    if steps != [] {
      var front, last := steps[..|steps| - 1], steps[|steps| - 1];
      assert steps == front + [last];
      RunKeepsInv(g, s, front);
      BenignStepKeepsInv(g, Run(g, s, front), last);
    }
  }

  /** Nothing has happened yet; the sidecar may say anything. */
  function Fresh(sidecar: Option<Hash>): Race {
    Race(sidecar, Absent, map[], false)
  }

  lemma {:induction false} ClearedStays(g: Group, s: Race, steps: seq<Step>)
    requires s.cleared
    ensures Run(g, s, steps).cleared
  {
    if steps != [] {
      ClearedStays(g, s, steps[..|steps| - 1]);
    }
  }

  /** In every interleaving without invalidation, whose identity checks can run: once a remediation has
    * returned, no later state caches drift, and every cached entry carries the group's own ontology
    * and the verdict of its identity check. */
  lemma DriftStaysCleared(g: Group, sidecar: Option<Hash>, before: seq<Step>, after: seq<Step>)
    requires forall step <- before + after :: Benign(step)
    requires Run(g, Fresh(sidecar), before).cleared
    ensures var s := Run(g, Run(g, Fresh(sidecar), before), after);
            && !s.slot.Drifted()
            && (s.slot.Resolved? ==> s.slot.entry == Entry(g.ontology, false, g.refused))
  {
    assert forall step <- before :: step in before + after;
    assert forall step <- after :: step in before + after;
    RunKeepsInv(g, Fresh(sidecar), before);
    RunKeepsInv(g, Run(g, Fresh(sidecar), before), after);
    ClearedStays(g, Run(g, Fresh(sidecar), before), after);
  }

  /** Remediations on their own never fill the slot. */
  lemma {:induction false} RemediationsAloneCacheNothing(g: Group, sidecar: Option<Hash>, steps: seq<Step>)
    requires forall step <- steps :: step.Start? ==> step.thread.Remediator?
    ensures var s := Run(g, Fresh(sidecar), steps);
            && s.slot.Absent?
            && forall tid :: tid in s.threads ==> s.threads[tid].Remediator? || PastWrite(s.threads[tid])
  {
    if steps != [] {
      var front, last := steps[..|steps| - 1], steps[|steps| - 1];
      assert steps == front + [last];
      RemediationsAloneCacheNothing(g, sidecar, front);
    }
  }

  // What the conditions are for.

  ghost predicate CanCacheDrift(g: Group, s: Race) {
    exists steps :: (forall step <- steps :: Benign(step)) && Run(g, s, steps).slot.Drifted()
  }

  lemma {:induction false} QuietStays(g: Group, s: Race, steps: seq<Step>)
    requires s.sidecar == Some(g.ontology) && !s.slot.Drifted() && NoStale(s)
    requires forall step <- steps :: Benign(step)
    ensures var s' := Run(g, s, steps);
            s'.sidecar == Some(g.ontology) && !s'.slot.Drifted() && NoStale(s')
  {
    if steps != [] {
      var front, last := steps[..|steps| - 1], steps[|steps| - 1];
      assert steps == front + [last];
      QuietStays(g, s, front);
      var before := Run(g, s, front);
      assert NoStale(Do(g, before, last));
    }
  }

  /** Over a slot that is not resolved, a stale entry that a resolution still holds can be cached. */
  lemma StaleCanBeCached(g: Group, s: Race, tid: Tid)
    requires !s.slot.Resolved? && tid in s.threads && Stale(s.threads[tid])
    ensures CanCacheDrift(g, s)
  {
    if s.threads[tid].Computed? {
      var steps := [Check(tid, true), Go(tid)];
      assert steps[..1] == [Check(tid, true)] && steps[..1][..0] == [];
      assert Run(g, s, []) == s;
      assert Run(g, s, steps[..1]) == Do(g, s, Check(tid, true));
      assert Run(g, s, steps).slot.Drifted();
    } else {
      var steps := [Go(tid)];
      assert steps[..0] == [];
      assert Run(g, s, steps) == Do(g, s, Go(tid));
    }
  }

  lemma NoneStaleCachesNone(g: Group, s: Race)
    requires s.sidecar == Some(g.ontology) && !s.slot.Drifted() && NoStale(s)
    ensures !CanCacheDrift(g, s)
  {
    forall steps | forall step <- steps :: Benign(step)
      ensures !Run(g, s, steps).slot.Drifted()
    {
      QuietStays(g, s, steps);
    }
  }

  /** Invalidating after a clear is safe if and only if no resolution still holds an entry computed
    * against the old sidecar: otherwise that entry can enter the emptied slot. */
  lemma InvalidationIsSafeIff(g: Group, s: Race)
    requires Inv(g, s) && s.cleared
    ensures CanCacheDrift(g, Do(g, s, Invalidate)) <==> !NoStale(s)
  {
    var s1 := Do(g, s, Invalidate);
    if tid :| tid in s.threads && Stale(s.threads[tid]) {
      StaleCanBeCached(g, s1, tid);
    } else {
      NoneStaleCachesNone(g, s1);
    }
  }

  /** When the check of a clear that raced a resolution cannot run, the clear gives up: drift can be
    * cached after the remediation has returned if and only if some resolution still holds a stale
    * entry. */
  lemma UncheckedClearLosesTheRace(g: Group, s: Race, tid: Tid)
    requires Inv(g, s) && s.slot.Resolving?
    requires tid in s.threads && s.threads[tid] == MustRunCheck
    ensures var s' := Do(g, Do(g, s, Check(tid, false)), Go(tid));
            && s'.cleared && tid !in s'.threads
            && (CanCacheDrift(g, s') <==> !NoStale(s))
  {
    var s' := Do(g, Do(g, s, Check(tid, false)), Go(tid));
    assert s'.slot.Resolving? && s'.sidecar == Some(g.ontology);
    assert s'.threads == s.threads - {tid};
    if other :| other in s.threads && Stale(s.threads[other]) {
      StaleCanBeCached(g, s', other);
    } else {
      NoneStaleCachesNone(g, s');
    }
  }

  // The race itself, from a fresh start.

  const RACED := Group("new", true, false)

  lemma RunOneMore(g: Group, s: Race, steps: seq<Step>, step: Step)
    ensures Run(g, s, steps + [step]) == Do(g, Run(g, s, steps), step)
  {
    assert (steps + [step])[..|steps|] == steps;
  }

  lemma RunOne(g: Group, s: Race, a: Step)
    ensures Run(g, s, [a]) == Do(g, s, a)
  {
    assert [a][..0] == [];
  }

  lemma RunTwo(g: Group, s: Race, a: Step, b: Step)
    ensures Run(g, s, [a, b]) == Do(g, Do(g, s, a), b)
  {
    RunOne(g, s, a);
    assert [a, b][..1] == [a];
  }

  lemma {:induction false} RunOn(g: Group, s: Race, first: seq<Step>, rest: seq<Step>)
    ensures Run(g, s, first + rest) == Run(g, Run(g, s, first), rest)
    decreases |rest|
  {
    if rest == [] {
      assert first + rest == first;
    } else {
      var n := |rest| - 1;
      assert first + rest == (first + rest[..n]) + [rest[n]];
      RunOn(g, s, first, rest[..n]);
      RunOneMore(g, s, first + rest[..n], rest[n]);
    }
  }

  lemma RunOnTwo(g: Group, s: Race, first: seq<Step>, a: Step, b: Step)
    ensures Run(g, s, first + [a, b]) == Do(g, Do(g, Run(g, s, first), a), b)
  {
    RunOn(g, s, first, [a, b]);
    RunTwo(g, Run(g, s, first), a, b);
  }

  /** A first resolution on its own, from start to insertion. */
  function Alone(): seq<Step> {
    [Start(0, Resolver), Go(0)] + [Go(0), Go(0)] + [Check(0, true), Go(0)]
  }

  /** From a fresh start it caches drift exactly when the recorded hash is another one, or nothing is
    * recorded while there is data and an ontology. */
  lemma FirstResolutionCaches(g: Group, sidecar: Option<Hash>)
    ensures var s := Run(g, Fresh(sidecar), Alone());
            && s.slot.Resolved? && s.slot.entry.ontology == g.ontology && s.slot.entry.refused == g.refused
            && (sidecar.Some? ==> (s.slot.Drifted() <==> sidecar.value != g.ontology))
            && (sidecar.None? ==> (s.slot.Drifted() <==> g.hasData && g.ontology != "none"))
  {
    RunTwo(g, Fresh(sidecar), Start(0, Resolver), Go(0));
    RunOnTwo(g, Fresh(sidecar), [Start(0, Resolver), Go(0)], Go(0), Go(0));
    RunOnTwo(g, Fresh(sidecar), [Start(0, Resolver), Go(0)] + [Go(0), Go(0)], Check(0, true), Go(0));
  }

  /** A resolution, thread 0, marks the slot. */
  const MARKED: seq<Step> := [Start(0, Resolver), Go(0)]

  /** It probes the sidecar and computes drift against it; its identity check runs. */
  function Computing(): seq<Step> {
    MARKED + [Go(0), Go(0)] + [Check(0, true), Start(1, Remediator)]
  }

  /** A remediation, thread 1, writes the sidecar and finds the slot still resolving. */
  function Racing(): seq<Step> {
    Computing() + [Go(1), Go(1)]
  }

  /** Its check runs, and the clear resolves the slot. */
  function Raced(): seq<Step> {
    Racing() + [Check(1, true), Go(1)]
  }

  // The states on the way.

  const STALE := Inserting(Entry("new", true, false))

  function InProgress(thread: Thread): Race {
    Race(Some("old"), Resolving, map[0 := thread], false)
  }

  function Prepared(): Race {
    Race(Some("old"), Resolving, map[0 := STALE, 1 := Remediator], false)
  }

  function Waiting(): Race {
    Race(Some("new"), Resolving, map[0 := STALE, 1 := MustRunCheck], false)
  }

  function Cleared(): Race {
    Race(Some("new"), Resolved(Entry("new", false, false)), map[0 := STALE], true)
  }

  lemma EachPair()
    ensures Do(RACED, Do(RACED, Fresh(Some("old")), Start(0, Resolver)), Go(0)) == InProgress(Marking)
    ensures Do(RACED, Do(RACED, InProgress(Marking), Go(0)), Go(0)) == InProgress(Computed(true))
    ensures Do(RACED, Do(RACED, InProgress(Computed(true)), Check(0, true)), Start(1, Remediator)) == Prepared()
    ensures Do(RACED, Do(RACED, Prepared(), Go(1)), Go(1)) == Waiting()
    ensures Do(RACED, Do(RACED, Waiting(), Check(1, true)), Go(1)) == Cleared()
  {
  }

  lemma ComputingReaches()
    ensures Run(RACED, Fresh(Some("old")), Computing()) == Prepared()
  {
    EachPair();
    RunTwo(RACED, Fresh(Some("old")), Start(0, Resolver), Go(0));
    RunOnTwo(RACED, Fresh(Some("old")), MARKED, Go(0), Go(0));
    RunOnTwo(RACED, Fresh(Some("old")), MARKED + [Go(0), Go(0)], Check(0, true), Start(1, Remediator));
  }

  lemma RacingReaches()
    ensures Run(RACED, Fresh(Some("old")), Racing()) == Waiting()
  {
    EachPair();
    ComputingReaches();
    RunOnTwo(RACED, Fresh(Some("old")), Computing(), Go(1), Go(1));
  }

  lemma RacedReaches()
    ensures Run(RACED, Fresh(Some("old")), Raced()) == Cleared()
  {
    EachPair();
    RacingReaches();
    RunOnTwo(RACED, Fresh(Some("old")), Racing(), Check(1, true), Go(1));
  }

  lemma RaceIsBenign()
    ensures (forall step <- Racing() :: Benign(step)) && (forall step <- Raced() :: Benign(step))
  {
    assert forall step <- MARKED :: Benign(step);
    assert forall step <- Computing() :: Benign(step);
    assert forall step <- Racing() :: Benign(step);
  }

  lemma StaleInFlight(s: Race)
    requires 0 in s.threads && s.threads[0] == STALE
    ensures !NoStale(s)
  {
    assert Stale(s.threads[0]);
  }

  /** A benign run from a fresh start after which an invalidation lets drift back in. */
  lemma InvalidationBringsDriftBack()
    ensures (forall step <- Raced() :: Benign(step)) && Run(RACED, Fresh(Some("old")), Raced()) == Cleared()
    ensures Cleared().cleared && !Cleared().slot.Drifted()
    ensures CanCacheDrift(RACED, Do(RACED, Cleared(), Invalidate))
  {
    RaceIsBenign();
    RacedReaches();
    RunKeepsInv(RACED, Fresh(Some("old")), Raced());
    StaleInFlight(Cleared());
    InvalidationIsSafeIff(RACED, Cleared());
  }

  /** The same run up to the clear's check: when that check cannot run, drift can come back. */
  lemma UncheckedClearLetsDriftBack()
    ensures (forall step <- Racing() :: Benign(step)) && Run(RACED, Fresh(Some("old")), Racing()) == Waiting()
    ensures var s := Do(RACED, Do(RACED, Waiting(), Check(1, false)), Go(1));
            s.cleared && !s.slot.Drifted() && CanCacheDrift(RACED, s)
  {
    RaceIsBenign();
    RacingReaches();
    RunKeepsInv(RACED, Fresh(Some("old")), Racing());
    StaleInFlight(Waiting());
    UncheckedClearLosesTheRace(RACED, Waiting(), 1);
  }
}
