/** A call on a checkpoint name that nobody interferes with, whatever happened before it: it returns after at
  * most four steps of its own, with the outcome and the files that the state of the name calls for. */
module CheckpointSolo {
  import opened Checkpoint
  import opened CheckpointRuns

  /** The store after `k` steps of one process. */
  ghost function Acts(s: Store, pid: Pid, k: nat): (r: Store)
    requires s.past != []
    ensures r.past != []
  {
    if k == 0 then s else Do(Acts(s, pid, k - 1), Act(pid))
  }

  /** What a call finds and may change. */
  datatype Dir = Dir(files: Files, written: set<nat>, results: seq<Result>)

  ghost function View(s: Store): Dir
    requires s.past != []
  {
    Dir(Now(s), s.written, s.results)
  }

  ghost predicate At(s: Store, pid: Pid, op: Op, since: nat, pc: Pc, dir: Dir) {
    && s.past != [] && pid in s.procs && s.procs[pid].op == op && s.procs[pid].since == since
    && s.procs[pid].pc == pc && View(s) == dir
  }

  /** The call has returned, with this outcome as the only new result. */
  ghost predicate Returned(s: Store, pid: Pid, op: Op, since: nat, was: Dir, outcome: Outcome, files: Files,
                           written: set<nat>) {
    && s.past != [] && pid !in s.procs && Now(s) == files && s.written == written
    && exists at :: s.results == was.results + [Result(op, since, at, outcome)]
  }

  lemma NextStep(s: Store, pid: Pid, k: nat)
    requires s.past != []
    ensures Acts(s, pid, k + 1) == Do(Acts(s, pid, k), Act(pid))
  {
  }

  // The steps.

  lemma FromStarted(s: Store, pid: Pid, op: Op, since: nat, dir: Dir, n: nat)
    requires At(s, pid, op, since, Started, dir) && Shape(dir.files, n)
    ensures var s' := Do(s, Act(pid));
            && (n > 0 ==> At(s', pid, op, since, Listed(n), dir))
            && (n == 0 && op.CreateOp? ==> At(s', pid, op, since, Ready(1), dir))
            && (n == 0 && !op.CreateOp? ==> Returned(s', pid, op, since, dir, No, dir.files, dir.written))
  {
    ShapeFacts(dir.files, n);
  }

  lemma FromListed(s: Store, pid: Pid, op: Op, since: nat, dir: Dir, n: nat)
    requires At(s, pid, op, since, Listed(n), dir) && Shape(dir.files, n) && n > 0
    ensures var s' := Do(s, Act(pid));
            && (Active(dir.files) ==> At(s', pid, op, since, Ready(n), dir))
            && (!Active(dir.files) && op.CreateOp? ==> At(s', pid, op, since, Ready(n + 1), dir))
            && (!Active(dir.files) && !op.CreateOp? ==>
                  Returned(s', pid, op, since, dir, No, dir.files, dir.written))
  {
    ShapeFacts(dir.files, n);
  }

  lemma FromReadyToCreate(s: Store, pid: Pid, since: nat, dir: Dir, n: nat)
    requires At(s, pid, CreateOp, since, Ready(n), dir)
    ensures var s' := Do(s, Act(pid));
            && (Create(n) in dir.files ==> Returned(s', pid, CreateOp, since, dir, No, dir.files, dir.written))
            && (Create(n) !in dir.files ==>
                  exists t :: At(s', pid, CreateOp, since, Opened(n, t), dir.(files := dir.files + {Create(n)})))
  {
    if Create(n) !in dir.files {
      assert At(Do(s, Act(pid)), pid, CreateOp, since, Opened(n, |s.past|), dir.(files := dir.files + {Create(n)}));
    }
  }

  lemma FromReadyToDelete(s: Store, pid: Pid, since: nat, dir: Dir, n: nat)
    requires At(s, pid, DeleteOp, since, Ready(n), dir) && Delete(n) !in dir.files
    ensures exists t ::
              At(Do(s, Act(pid)), pid, DeleteOp, since, Opened(n, t), dir.(files := dir.files + {Delete(n)}))
  {
    assert At(Do(s, Act(pid)), pid, DeleteOp, since, Opened(n, |s.past|), dir.(files := dir.files + {Delete(n)}));
  }

  lemma FromReadyToList(s: Store, pid: Pid, since: nat, dir: Dir, n: nat)
    requires At(s, pid, ListOp, since, Ready(n), dir)
    ensures Returned(Do(s, Act(pid)), pid, ListOp, since, dir, if n in dir.written then Ok(|s.past|) else Unreadable,
                     dir.files, dir.written)
  {
  }

  lemma FromOpened(s: Store, pid: Pid, op: Op, since: nat, dir: Dir, n: nat, t: nat)
    requires At(s, pid, op, since, Opened(n, t), dir)
    ensures Returned(Do(s, Act(pid)), pid, op, since, dir, Ok(t), dir.files,
                     if op.CreateOp? then dir.written + {n} else dir.written)
  {
  }

  // The calls.

  /** The call has returned as the state of the name, whose highest generation is `n`, calls for. A create
    * succeeds on a free name and adds the next generation and its record; a delete succeeds on a name in use
    * and adds its tombstone; a list reports a name in use whose record is written. Nothing else changes. */
  ghost predicate Answered(s: Store, pid: Pid, op: Op, since: nat, was: Dir, n: nat) {
    var inUse := Active(was.files);
    match op
    case CreateOp =>
      if inUse then Returned(s, pid, op, since, was, No, was.files, was.written)
      else exists t :: Returned(s, pid, op, since, was, Ok(t), was.files + {Create(n + 1)}, was.written + {n + 1})
    case DeleteOp =>
      if !inUse then Returned(s, pid, op, since, was, No, was.files, was.written)
      else exists t :: Returned(s, pid, op, since, was, Ok(t), was.files + {Delete(n)}, was.written)
    case ListOp =>
      if !inUse then Returned(s, pid, op, since, was, No, was.files, was.written)
      else if n !in was.written then Returned(s, pid, op, since, was, Unreadable, was.files, was.written)
      else exists t :: Returned(s, pid, op, since, was, Ok(t), was.files, was.written)
  }

  lemma LastTwo(s: Store, pid: Pid, op: Op, since: nat, dir: Dir, n: nat, target: nat)
    requires At(s, pid, op, since, Ready(target), dir) && Shape(dir.files, n)
    requires op.CreateOp? ==> target == (if Active(dir.files) then n else n + 1)
    requires !op.CreateOp? ==> target == n && Active(dir.files)
    ensures Answered(Acts(s, pid, 1), pid, op, since, dir, n) || Answered(Acts(s, pid, 2), pid, op, since, dir, n)
  {
    var s1 := Do(s, Act(pid));
    ShapeFacts(dir.files, n);
    NextStep(s, pid, 0);
    NextStep(s, pid, 1);
    match op
    case CreateOp =>
      FromReadyToCreate(s, pid, since, dir, target);
      if !Active(dir.files) {
        var dir' := dir.(files := dir.files + {Create(n + 1)});
        var t: nat :| At(s1, pid, CreateOp, since, Opened(n + 1, t), dir');
        FromOpened(s1, pid, op, since, dir', n + 1, t);
        assert Returned(Acts(s, pid, 2), pid, op, since, dir, Ok(t), dir'.files, dir.written + {n + 1});
      }
    case DeleteOp =>
      FromReadyToDelete(s, pid, since, dir, n);
      var dir' := dir.(files := dir.files + {Delete(n)});
      var t: nat :| At(s1, pid, DeleteOp, since, Opened(n, t), dir');
      FromOpened(s1, pid, op, since, dir', n, t);
      assert Returned(Acts(s, pid, 2), pid, op, since, dir, Ok(t), dir'.files, dir.written);
    case ListOp =>
      FromReadyToList(s, pid, since, dir, n);
  }

  lemma {:induction false} ActsInTwo(s: Store, pid: Pid, j: nat, k: nat)
    requires s.past != []
    ensures Acts(Acts(s, pid, j), pid, k) == Acts(s, pid, j + k)
  {
    if k == 0 {
      assert j + k == j;
    } else {
      ActsInTwo(s, pid, j, k - 1);
      NextStep(Acts(s, pid, j), pid, k - 1);
      NextStep(s, pid, j + k - 1);
    }
  }

  ghost predicate AnsweredWithin(s: Store, pid: Pid, op: Op, since: nat, was: Dir, n: nat, most: nat) {
    s.past != [] && exists k :: 0 < k <= most && Answered(Acts(s, pid, k), pid, op, since, was, n)
  }

  lemma ReadyAnswers(s: Store, pid: Pid, j: nat, op: Op, since: nat, dir: Dir, n: nat, target: nat)
    requires s.past != [] && At(Acts(s, pid, j), pid, op, since, Ready(target), dir) && Shape(dir.files, n)
    requires op.CreateOp? ==> target == (if Active(dir.files) then n else n + 1)
    requires !op.CreateOp? ==> target == n && Active(dir.files)
    ensures AnsweredWithin(s, pid, op, since, dir, n, j + 2)
  {
    LastTwo(Acts(s, pid, j), pid, op, since, dir, n, target);
    ActsInTwo(s, pid, j, 1);
    ActsInTwo(s, pid, j, 2);
  }

  lemma StartedAnswers(s: Store, pid: Pid, op: Op, since: nat, dir: Dir, n: nat)
    requires At(s, pid, op, since, Started, dir) && Shape(dir.files, n)
    ensures AnsweredWithin(s, pid, op, since, dir, n, 4)
  {
    ShapeFacts(dir.files, n);
    FromStarted(s, pid, op, since, dir, n);
    NextStep(s, pid, 0);
    NextStep(s, pid, 1);
    if n == 0 {
      if op.CreateOp? {
        ReadyAnswers(s, pid, 1, op, since, dir, n, 1);
      } else {
        assert Answered(Acts(s, pid, 1), pid, op, since, dir, n);
      }
    } else {
      FromListed(Acts(s, pid, 1), pid, op, since, dir, n);
      if Active(dir.files) {
        ReadyAnswers(s, pid, 2, op, since, dir, n, n);
      } else if op.CreateOp? {
        ReadyAnswers(s, pid, 2, op, since, dir, n, n + 1);
      } else {
        assert Answered(Acts(s, pid, 2), pid, op, since, dir, n);
      }
    }
  }

  /** After any interleaving, a call that then runs alone is answered within four steps. */
  lemma AloneIsAnswered(steps: seq<Step>, pid: Pid, op: Op)
    requires pid !in Run(steps).procs
    ensures var s := Run(steps);
            exists n: nat :: Shape(Now(s), n)
                             && AnsweredWithin(Do(s, Invoke(pid, op)), pid, op, |s.past|, View(s), n, 4)
  {
    var s := Run(steps);
    RunKeepsInv(steps);
    assert Shaped(Now(s));
    var n: nat :| Shape(Now(s), n);
    var s1 := Do(s, Invoke(pid, op));
    assert At(s1, pid, op, |s.past|, Started, View(s));
    StartedAnswers(s1, pid, op, |s.past|, View(s), n);
  }
}
