/** The checkpoint store over every interleaving: concurrent calls on a name behave like calls on one
  * active/inactive flag, and generations are numbered 1, 2, 3, ... whatever the calls race on. */
module CheckpointRuns {
  import opened Checkpoint

  // What holds of each call, each result and the effects.

  /** The call made the effect it is about to report. */
  ghost predicate TookEffect(effects: seq<Effect>, op: Op, since: nat, point: nat) {
    op != ListOp && since <= point && Effect(op, point) in effects
  }

  ghost predicate ReadyOk(past: seq<Files>, op: Op, since: nat, target: nat)
    requires past != []
  {
    match op
    case CreateOp =>
      && target >= 1
      && (|| (SawGeneration(past, since, target - 1) && (target == 1 || Delete(target - 1) in past[|past| - 1]))
          || (Create(target) in past[|past| - 1] && SawFlag(past, since, true)))
    case DeleteOp => target >= 1 && SawGeneration(past, since, target)
    case ListOp => SawFlag(past, since, true)
  }

  ghost predicate ProcOk(past: seq<Files>, effects: seq<Effect>, p: Proc)
    requires past != []
  {
    && p.since < |past|
    && match p.pc
       case Started => true
       case Listed(g) => g >= 1 && SawGeneration(past, p.since, g)
       case Ready(target) => ReadyOk(past, p.op, p.since, target)
       case Opened(_, point) => TookEffect(effects, p.op, p.since, point) && point < |past|
  }

  ghost predicate FlagBetween(past: seq<Files>, from: nat, to: nat, b: bool) {
    exists j :: from <= j <= to && j < |past| && Active(past[j]) == b
  }

  /** A success of `create` or `delete` is one of the effects, made during the call. A refused
    * `create` found the name in use at some instant of the call, a refused `delete` found it free,
    * and so did a `list` that passed the name over; one that reports it found it in use. */
  ghost predicate ResultOk(past: seq<Files>, effects: seq<Effect>, r: Result) {
    && r.since <= r.at < |past|
    && match r.outcome
       case Ok(point) =>
         if r.op.ListOp? then FlagBetween(past, r.since, r.at, true)
         else TookEffect(effects, r.op, r.since, point) && point <= r.at
       case No => FlagBetween(past, r.since, r.at, r.op.CreateOp?)
       case Unreadable => r.op.ListOp? && FlagBetween(past, r.since, r.at, true)
  }

  /** The effect turned the flag: on for a create, off for a delete. */
  ghost predicate Turned(past: seq<Files>, e: Effect) {
    && 1 <= e.at < |past|
    && e.op != ListOp
    && Active(past[e.at - 1]) == e.op.DeleteOp?
    && Active(past[e.at]) == e.op.CreateOp?
  }

  ghost predicate HappenedAt(effects: seq<Effect>, t: nat) {
    exists e :: e in effects && e.at == t
  }

  /** Effects strictly alternate, starting with a create; each turned the flag, and between effects
    * the directory is unchanged. */
  ghost predicate EffectsOk(past: seq<Files>, effects: seq<Effect>) {
    && past != []
    && (forall i :: 0 <= i < |effects| ==> Turned(past, effects[i]))
    && (forall i :: 0 <= i < |effects| ==> effects[i].op == if i % 2 == 0 then CreateOp else DeleteOp)
    && (forall i, j :: 0 <= i < j < |effects| ==> effects[i].at < effects[j].at)
    && (forall i, t :: 0 <= i < |past| && t == i + 1 && t < |past| && past[t] != past[i] ==> HappenedAt(effects, t))
    && Shape(past[|past| - 1], (|effects| + 1) / 2)
    && Active(past[|past| - 1]) == (|effects| % 2 == 1)
  }

  predicate Claims(r: Result, point: nat) {
    r.op != ListOp && r.outcome == Ok(point)
  }

  predicate Holds(p: Proc, point: nat) {
    p.pc.Opened? && p.pc.point == point
  }

  /** No two calls report the same effect. */
  ghost predicate OwnersDiffer(s: Store) {
    && (forall p, q, t :: p in s.procs && q in s.procs && Holds(s.procs[p], t) && Holds(s.procs[q], t) ==> p == q)
    && (forall p, i, t :: p in s.procs && 0 <= i < |s.results| && Holds(s.procs[p], t) ==> !Claims(s.results[i], t))
    && (forall i, j, t ::
          (0 <= i < |s.results| && 0 <= j < |s.results| && Claims(s.results[i], t) && Claims(s.results[j], t)) ==>
            i == j)
  }

  ghost predicate ProcsOk(s: Store)
    requires s.past != []
  {
    forall pid :: pid in s.procs ==> ProcOk(s.past, s.effects, s.procs[pid])
  }

  ghost predicate ResultsOk(s: Store) {
    forall i :: 0 <= i < |s.results| ==> ResultOk(s.past, s.effects, s.results[i])
  }

  ghost predicate Inv(s: Store) {
    History(s.past) && EffectsOk(s.past, s.effects) && ProcsOk(s) && ResultsOk(s) && OwnersDiffer(s)
  }

  // Time passing.

  lemma ProcStays(past: seq<Files>, effects: seq<Effect>, p: Proc, files: Files, effects': seq<Effect>)
    requires past != [] && past[|past| - 1] <= files && effects <= effects'
    requires ProcOk(past, effects, p)
    ensures ProcOk(past + [files], effects', p)
  {
    SeenStays(past, files, p.since);
    assert forall e :: e in effects ==> e in effects';
  }

  lemma ResultStays(past: seq<Files>, effects: seq<Effect>, r: Result, files: Files, effects': seq<Effect>)
    requires effects <= effects' && ResultOk(past, effects, r)
    ensures ResultOk(past + [files], effects', r)
  {
    assert forall e :: e in effects ==> e in effects';
    forall b | FlagBetween(past, r.since, r.at, b)
      ensures FlagBetween(past + [files], r.since, r.at, b)
    {
      var j :| r.since <= j <= r.at && j < |past| && Active(past[j]) == b;
      assert Active((past + [files])[j]) == b;
    }
  }

  lemma TurnedStays(past: seq<Files>, files: Files, e: Effect)
    requires Turned(past, e)
    ensures Turned(past + [files], e)
  {
  }

  /** Nothing happened to the directory. */
  lemma QuietEffects(past: seq<Files>, effects: seq<Effect>)
    requires EffectsOk(past, effects)
    ensures EffectsOk(past + [past[|past| - 1]], effects)
  {
    forall i | 0 <= i < |effects|
      ensures Turned(past + [past[|past| - 1]], effects[i])
    {
      TurnedStays(past, past[|past| - 1], effects[i]);
    }
  }

  /** A file was created: the flag turned, and the shape moved on. */
  lemma NewEffect(past: seq<Files>, effects: seq<Effect>, op: Op, file: File)
    requires History(past) && EffectsOk(past, effects) && op != ListOp
    requires var n := (|effects| + 1) / 2;
             if op.CreateOp? then file == Create(n + 1) && |effects| % 2 == 0
             else file == Delete(n) && |effects| % 2 == 1
    ensures var past' := past + [past[|past| - 1] + {file}];
            && History(past') && EffectsOk(past', effects + [Effect(op, |past|)])
  {
    var last, n := past[|past| - 1], (|effects| + 1) / 2;
    var files := last + {file};
    ShapeFacts(last, n);
    if op.CreateOp? {
      CreateGrows(last, n);
    } else {
      DeleteGrows(last, n);
    }
    HistoryGrows(past, files);
    EffectAppended(past, effects, Effect(op, |past|), files);
  }

  lemma EffectAppended(past: seq<Files>, effects: seq<Effect>, e: Effect, files: Files)
    requires EffectsOk(past, effects) && e.at == |past|
    requires e.op == if |effects| % 2 == 0 then CreateOp else DeleteOp
    requires Shape(files, (|effects| + 2) / 2) && Active(files) == e.op.CreateOp?
    ensures EffectsOk(past + [files], effects + [e])
  {
    var past', effects' := past + [files], effects + [e];
    forall i | 0 <= i < |effects'|
      ensures Turned(past', effects'[i])
    {
      if i < |effects| {
        TurnedStays(past, files, effects[i]);
      }
    }
    forall i, t | 0 <= i < |past'| && t == i + 1 && t < |past'| && past'[t] != past'[i]
      ensures HappenedAt(effects', t)
    {
      if t == |past| {
        assert e in effects';
      } else {
        assert past[t] == past'[t] && past[i] == past'[i];
        var x :| x in effects && x.at == t;
        assert x in effects';
      }
    }
    assert past'[|past'| - 1] == files && |effects'| == |effects| + 1;
  }

  // One step.

  /** The store after a step that left the directory alone and ended with `p` in progress. */
  lemma StillRunning(s: Store, pid: Pid, p: Proc)
    requires Inv(s) && ProcOk(s.past + [Now(s)], s.effects, p)
    requires !p.pc.Opened?
    ensures Inv(Tick(s, Now(s)).(procs := s.procs[pid := p]))
  {
    var s' := Tick(s, Now(s)).(procs := s.procs[pid := p]);
    Passes(s);
    assert forall q :: q in s'.procs && q != pid ==> q in s.procs;
  }

  /** The parts of the invariant that time alone does not touch. */
  lemma Passes(s: Store)
    requires Inv(s)
    ensures Inv(Tick(s, Now(s)))
  {
    assert Shaped(Now(s));
    HistoryGrows(s.past, Now(s));
    QuietEffects(s.past, s.effects);
    ProcsPass(s);
    ResultsPass(s);
    OwnersPass(s);
  }

  lemma ProcsPass(s: Store)
    requires s.past != [] && ProcsOk(s)
    ensures ProcsOk(Tick(s, Now(s)))
  {
    forall pid | pid in s.procs
      ensures ProcOk(s.past + [Now(s)], s.effects, s.procs[pid])
    {
      ProcStays(s.past, s.effects, s.procs[pid], Now(s), s.effects);
    }
  }

  lemma ResultsPass(s: Store)
    requires s.past != [] && ResultsOk(s)
    ensures ResultsOk(Tick(s, Now(s)))
  {
    forall i | 0 <= i < |s.results|
      ensures ResultOk(s.past + [Now(s)], s.effects, s.results[i])
    {
      ResultStays(s.past, s.effects, s.results[i], Now(s), s.effects);
    }
  }

  lemma OwnersPass(s: Store)
    requires s.past != [] && OwnersDiffer(s)
    ensures OwnersDiffer(Tick(s, Now(s)))
  {
  }

  /** The store after a step that left the directory alone and ended the call. */
  lemma Returned(s: Store, pid: Pid, outcome: Outcome)
    requires Inv(s) && pid in s.procs
    requires ResultOk(s.past + [Now(s)], s.effects, Result(s.procs[pid].op, s.procs[pid].since, |s.past|, outcome))
    requires outcome.Ok? && s.procs[pid].op != ListOp ==> Holds(s.procs[pid], outcome.point)
    ensures Inv(Return(Tick(s, Now(s)), pid, s.procs[pid], outcome))
  {
    Passes(s);
    OwnersAfterReturn(s, pid, outcome);
  }

  lemma OwnersAfterReturn(s: Store, pid: Pid, outcome: Outcome)
    requires s.past != [] && OwnersDiffer(s) && pid in s.procs
    requires outcome.Ok? && s.procs[pid].op != ListOp ==> Holds(s.procs[pid], outcome.point)
    ensures OwnersDiffer(Return(Tick(s, Now(s)), pid, s.procs[pid], outcome))
  {
  }

  /** The store after a step that created `file`. */
  lemma FileOpened(s: Store, pid: Pid, file: File)
    requires Inv(s) && pid in s.procs && s.procs[pid].op != ListOp && file !in Now(s)
    requires var n := (|s.effects| + 1) / 2;
             if s.procs[pid].op.CreateOp? then file == Create(n + 1) && |s.effects| % 2 == 0
             else file == Delete(n) && |s.effects| % 2 == 1
    ensures Inv(Open(s, pid, s.procs[pid], file))
  {
    var p := s.procs[pid];
    var s', e := Open(s, pid, p, file), Effect(p.op, |s.past|);
    NewEffect(s.past, s.effects, p.op, file);
    forall q | q in s'.procs
      ensures ProcOk(s'.past, s'.effects, s'.procs[q])
    {
      if q == pid {
        assert e in s'.effects;
      } else {
        ProcStays(s.past, s.effects, s.procs[q], Now(s) + {file}, s'.effects);
      }
    }
    forall i | 0 <= i < |s.results|
      ensures ResultOk(s'.past, s'.effects, s'.results[i])
    {
      ResultStays(s.past, s.effects, s.results[i], Now(s) + {file}, s'.effects);
    }
  }

  /** What a call has seen, once it sees the directory as it is now. */
  lemma SeesNow(s: Store, since: nat)
    requires Inv(s) && since <= |s.past|
    ensures SawGeneration(s.past + [Now(s)], since, (|s.effects| + 1) / 2)
    ensures SawFlag(s.past + [Now(s)], since, |s.effects| % 2 == 1)
    ensures HighestGeneration(Now(s)) == (|s.effects| + 1) / 2
    ensures FlagBetween(s.past + [Now(s)], since, |s.past|, |s.effects| % 2 == 1)
  {
    var later := s.past + [Now(s)];
    ShapeFacts(Now(s), (|s.effects| + 1) / 2);
    assert Shape(later[|s.past|], (|s.effects| + 1) / 2);
    assert Active(later[|s.past|]) == (|s.effects| % 2 == 1);
  }

  lemma SawIsBetween(past: seq<Files>, files: Files, since: nat, b: bool)
    requires SawFlag(past, since, b)
    ensures FlagBetween(past + [files], since, |past|, b)
  {
    var j :| since <= j < |past| && Active(past[j]) == b;
    assert Active((past + [files])[j]) == b;
  }

  /** A generation seen as the highest and tombstoned by now was inactive during the call. */
  lemma SawTombstone(past: seq<Files>, since: nat, g: nat)
    requires History(past) && SawGeneration(past, since, g) && Delete(g) in past[|past| - 1]
    ensures SawFlag(past, since, false)
  {
    var i: nat :| since <= i < |past| && Shape(past[i], g);
    TombstonedWasInactive(past, i, |past| - 1, g);
  }

  /** A generation seen as the highest and superseded by now was active during the call. */
  lemma SawSuperseded(past: seq<Files>, since: nat, g: nat, m: nat)
    requires History(past) && SawGeneration(past, since, g) && Shape(past[|past| - 1], m) && g < m
    ensures SawFlag(past, since, true)
  {
    var i: nat :| since <= i < |past| && Shape(past[i], g);
    LaterGenerationWasActive(past, i, |past| - 1, g, m);
  }

  /** A generation seen as the highest is not above the present one, and at it unless tombstoned. */
  lemma SawBelow(past: seq<Files>, since: nat, g: nat, m: nat)
    requires History(past) && SawGeneration(past, since, g) && Shape(past[|past| - 1], m)
    ensures g <= m && (g >= 1 && Delete(g) !in past[|past| - 1] ==> g == m)
  {
    var i: nat :| since <= i < |past| && Shape(past[i], g);
    FilesStay(past, i, |past| - 1);
    if g >= 1 {
      assert Create(g) in past[i];
      assert Create(g) in past[|past| - 1];
    }
  }

  lemma StartedStep(s: Store, pid: Pid)
    requires Inv(s) && pid in s.procs && s.procs[pid].pc.Started?
    ensures Inv(Advance(s, pid, s.procs[pid]))
  {
    var p := s.procs[pid];
    SeesNow(s, p.since);
    var g := HighestGeneration(Now(s));
    ShapeFacts(Now(s), g);
    if g > 0 {
      StillRunning(s, pid, p.(pc := Listed(g)));
    } else if p.op.CreateOp? {
      StillRunning(s, pid, p.(pc := Ready(1)));
    } else {
      Returned(s, pid, No);
    }
  }

  lemma ListedTombstoneStep(s: Store, pid: Pid)
    requires Inv(s) && pid in s.procs && s.procs[pid].pc.Listed? && Delete(s.procs[pid].pc.g) in Now(s)
    ensures Inv(Advance(s, pid, s.procs[pid]))
  {
    var p := s.procs[pid];
    var g := p.pc.g;
    if p.op.CreateOp? {
      SeenStays(s.past, Now(s), p.since);
      StillRunning(s, pid, p.(pc := Ready(g + 1)));
      assert Advance(s, pid, p) == Tick(s, Now(s)).(procs := s.procs[pid := p.(pc := Ready(g + 1))]);
    } else {
      SawTombstone(s.past, p.since, g);
      SawIsBetween(s.past, Now(s), p.since, false);
      Returned(s, pid, No);
    }
  }

  /** Without its tombstone the generation listed is still the present one. */
  lemma ListedIsPresent(s: Store, pid: Pid)
    requires Inv(s) && pid in s.procs && s.procs[pid].pc.Listed? && Delete(s.procs[pid].pc.g) !in Now(s)
    ensures var p := s.procs[pid]; ReadyOk(s.past + [Now(s)], p.op, p.since, p.pc.g)
  {
    var p := s.procs[pid];
    var g, n := p.pc.g, (|s.effects| + 1) / 2;
    SeesNow(s, p.since);
    ShapeFacts(Now(s), n);
    SeenStays(s.past, Now(s), p.since);
    SawBelow(s.past, p.since, g, n);
    assert Create(g) in Now(s);
  }

  lemma ListedActiveStep(s: Store, pid: Pid)
    requires Inv(s) && pid in s.procs && s.procs[pid].pc.Listed? && Delete(s.procs[pid].pc.g) !in Now(s)
    ensures Inv(Advance(s, pid, s.procs[pid]))
  {
    var p := s.procs[pid];
    ListedIsPresent(s, pid);
    StillRunning(s, pid, p.(pc := Ready(p.pc.g)));
  }

  /** A create that finds its file there saw the name in use. */
  lemma RefusedSawUse(s: Store, pid: Pid)
    requires Inv(s) && pid in s.procs && s.procs[pid].pc.Ready? && s.procs[pid].op.CreateOp?
    requires Create(s.procs[pid].pc.target) in Now(s)
    ensures SawFlag(s.past, s.procs[pid].since, true)
  {
    var p, n := s.procs[pid], (|s.effects| + 1) / 2;
    ShapeFacts(Now(s), n);
    if !SawFlag(s.past, p.since, true) {
      SawSuperseded(s.past, p.since, p.pc.target - 1, n);
    }
  }

  /** One that does not is about to make the next generation of a free name. */
  lemma FreeIsNext(s: Store, pid: Pid)
    requires Inv(s) && pid in s.procs && s.procs[pid].pc.Ready? && s.procs[pid].op.CreateOp?
    requires Create(s.procs[pid].pc.target) !in Now(s)
    ensures s.procs[pid].pc.target == (|s.effects| + 1) / 2 + 1 && |s.effects| % 2 == 0
  {
    var p, n := s.procs[pid], (|s.effects| + 1) / 2;
    ShapeFacts(Now(s), n);
    SawBelow(s.past, p.since, p.pc.target - 1, n);
  }

  lemma ReadyCreateStep(s: Store, pid: Pid)
    requires Inv(s) && pid in s.procs && s.procs[pid].pc.Ready? && s.procs[pid].op.CreateOp?
    ensures Inv(Advance(s, pid, s.procs[pid]))
  {
    var p := s.procs[pid];
    if Create(p.pc.target) in Now(s) {
      RefusedSawUse(s, pid);
      SawIsBetween(s.past, Now(s), p.since, true);
      Returned(s, pid, No);
    } else {
      FreeIsNext(s, pid);
      FileOpened(s, pid, Create(p.pc.target));
    }
  }

  lemma ReadyDeleteStep(s: Store, pid: Pid)
    requires Inv(s) && pid in s.procs && s.procs[pid].pc.Ready? && s.procs[pid].op.DeleteOp?
    ensures Inv(Advance(s, pid, s.procs[pid]))
  {
    var p := s.procs[pid];
    var target, n := p.pc.target, (|s.effects| + 1) / 2;
    ShapeFacts(Now(s), n);
    if Delete(target) in Now(s) {
      SawTombstone(s.past, p.since, target);
      SawIsBetween(s.past, Now(s), p.since, false);
      Returned(s, pid, No);
    } else {
      SawBelow(s.past, p.since, target, n);
      FileOpened(s, pid, Delete(target));
    }
  }

  lemma ReadyListStep(s: Store, pid: Pid)
    requires Inv(s) && pid in s.procs && s.procs[pid].pc.Ready? && s.procs[pid].op.ListOp?
    ensures Inv(Advance(s, pid, s.procs[pid]))
  {
    var p := s.procs[pid];
    SawIsBetween(s.past, Now(s), p.since, true);
    Returned(s, pid, if p.pc.target in s.written then Ok(|s.past|) else Unreadable);
  }

  lemma OpenedStep(s: Store, pid: Pid)
    requires Inv(s) && pid in s.procs && s.procs[pid].pc.Opened?
    ensures Inv(Advance(s, pid, s.procs[pid]))
  {
    var p := s.procs[pid];
    Returned(s, pid, Ok(p.pc.point));
  }

  lemma StepKeepsInv(s: Store, step: Step)
    requires Inv(s)
    ensures Inv(Do(s, step))
  {
    match step
    case Invoke(pid, op) =>
      if pid in s.procs {
        Passes(s);
      } else {
        StillRunning(s, pid, Proc(op, |s.past|, Started));
      }
    case Act(pid) =>
      if pid !in s.procs {
        Passes(s);
      } else {
        match s.procs[pid].pc
        case Started => StartedStep(s, pid);
        case Listed(g) =>
          if Delete(g) in Now(s) {
            ListedTombstoneStep(s, pid);
          } else {
            ListedActiveStep(s, pid);
          }
        case Ready(_) =>
          match s.procs[pid].op {
           case CreateOp => ReadyCreateStep(s, pid);
           case DeleteOp => ReadyDeleteStep(s, pid);
           case ListOp => ReadyListStep(s, pid);
          }
        case Opened(_, _) => OpenedStep(s, pid);
      }
    case Crash(pid) =>
      Passes(s);
  }

  lemma {:induction false} RunKeepsInv(steps: seq<Step>)
    ensures Inv(Run(steps))
  {
    if steps != [] {
      RunKeepsInv(steps[..|steps| - 1]);
      StepKeepsInv(Run(steps[..|steps| - 1]), steps[|steps| - 1]);
    } else {
      assert Shape(EMPTY_STORE.past[0], 0);
      ShapeFacts(EMPTY_STORE.past[0], 0);
    }
  }

  // What callers can rely on, in every interleaving.

  /** At every instant the create files are exactly generations 1..n and 1..n-1 are tombstoned. */
  lemma GenerationsAreConsecutive(steps: seq<Step>, t: nat)
    requires t < |Run(steps).past|
    ensures exists n: nat :: Shape(Run(steps).past[t], n)
  {
    RunKeepsInv(steps);
    assert Shaped(Run(steps).past[t]);
  }

  /** The linearization point of a finished call: the instant at which it turned the flag, or at
    * which the flag refused it. */
  ghost predicate Linearizes(s: Store, r: Result, t: nat) {
    && r.since <= t <= r.at < |s.past|
    && match r.outcome
       case No => Active(s.past[t]) == r.op.CreateOp?
       case Unreadable => r.op.ListOp? && Active(s.past[t])
       case Ok(point) =>
         if r.op.ListOp? then Active(s.past[t]) else t == point && Turned(s.past, Effect(r.op, t))
  }

  /** Every finished call has one, inside the call; and two successes never share theirs. */
  lemma CallsLinearize(steps: seq<Step>, i: nat)
    requires i < |Run(steps).results|
    ensures exists t: nat :: Linearizes(Run(steps), Run(steps).results[i], t)
    ensures forall j, t ::
              (0 <= j < |Run(steps).results|
               && Claims(Run(steps).results[i], t) && Claims(Run(steps).results[j], t)) ==>
                i == j
  {
    RunKeepsInv(steps);
    var s, r := Run(steps), Run(steps).results[i];
    assert ResultOk(s.past, s.effects, r);
    match r.outcome
    case No =>
      var t: nat :| r.since <= t <= r.at && t < |s.past| && Active(s.past[t]) == r.op.CreateOp?;
      assert Linearizes(s, r, t);
    case Unreadable =>
      var t: nat :| r.since <= t <= r.at && t < |s.past| && Active(s.past[t]) == true;
      assert Linearizes(s, r, t);
    case Ok(point) =>
      if r.op.ListOp? {
        var t: nat :| r.since <= t <= r.at && t < |s.past| && Active(s.past[t]) == true;
        assert Linearizes(s, r, t);
      } else {
        var e := Effect(r.op, point);
        var k :| 0 <= k < |s.effects| && s.effects[k] == e;
        assert Turned(s.past, e);
        assert Linearizes(s, r, point);
      }
  }

  /** The flag is nothing but its effects: they strictly alternate starting with a create, each turns
    * it at its own instant, and the directory changes at no other. */
  lemma EffectsAlternate(steps: seq<Step>)
    ensures var s := Run(steps);
            && (forall i :: 0 <= i < |s.effects| ==>
                  Turned(s.past, s.effects[i]) && s.effects[i].op == if i % 2 == 0 then CreateOp else DeleteOp)
            && (forall i, j :: 0 <= i < j < |s.effects| ==> s.effects[i].at < s.effects[j].at)
            && (forall i, t :: 0 <= i < |s.past| && t == i + 1 && t < |s.past| && s.past[t] != s.past[i] ==>
                  HappenedAt(s.effects, t))
  {
    RunKeepsInv(steps);
  }
}
