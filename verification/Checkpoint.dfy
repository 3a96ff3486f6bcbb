/** The checkpoint store of one name: a directory of exclusively created generation files, used by
  * any number of processes without a lock. Every call is broken into the atomic file-system steps it
  * makes, and the claims are about every interleaving of those steps. */
module Checkpoint {

  type Pid = nat

  /** `g<n>.create.json` and `g<n>.delete.json`. */
  datatype File = Create(n: nat) | Delete(n: nat)

  type Files = set<File>

  datatype Op = CreateOp | DeleteOp | ListOp

  /** Where a call stands: nothing read yet; the highest generation read; the tombstone checked; the
    * file opened, its record still to be written. */
  datatype Pc = Started | Listed(g: nat) | Ready(target: nat) | Opened(target: nat, point: nat)

  /** A call in progress; `since` is the instant of its invocation. */
  datatype Proc = Proc(op: Op, since: nat, pc: Pc)

  /** What a call returned. For `ListOp`, `Ok` means the name was reported, `No` that it was passed
    * over, `Unreadable` that it was passed over because its record could not be read. */
  datatype Outcome = Ok(point: nat) | No | Unreadable

  datatype Result = Result(op: Op, since: nat, at: nat, outcome: Outcome)

  /** A file that came into being, and when. */
  datatype Effect = Effect(op: Op, at: nat)

  /** The directory at every instant so far, the generations whose record has been written, the calls
    * in progress, and two logs. */
  datatype Store = Store(
    past: seq<Files>,
    written: set<nat>,
    procs: map<Pid, Proc>,
    effects: seq<Effect>,
    results: seq<Result>)

  const EMPTY_STORE := Store([{}], {}, map[], [], [])

  // Reading the directory.

  predicate IsHighest(files: Files, g: nat) {
    && (g == 0 ==> files == {})
    && (g > 0 ==> exists f :: f in files && f.n == g)
    && forall f :: f in files ==> f.n <= g
  }

  lemma HighestExists(files: Files)
    requires forall f :: f in files ==> f.n >= 1
    ensures exists g: nat :: IsHighest(files, g)
  {
    if files == {} {
      assert IsHighest(files, 0);
    } else {
      var f :| f in files;
      HighestExists(files - {f});
      var g: nat :| IsHighest(files - {f}, g);
      var h := if g < f.n then f.n else g;
      assert forall x :: x in files ==> x == f || x in files - {f};
      assert g > 0 ==> exists x :: x in files - {f} && x.n == g;
      assert IsHighest(files, h);
    }
  }

  ghost predicate Numbered(files: Files) {
    forall f :: f in files ==> f.n >= 1
  }

  ghost function HighestGeneration(files: Files): (g: nat)
    ensures Numbered(files) ==> IsHighest(files, g)
  {
    if Numbered(files) then
      HighestExists(files);
      var g: nat :| IsHighest(files, g);
      g
    else 0
  }

  /** The name is in use: some generation was created and not deleted. */
  ghost predicate Active(files: Files) {
    exists n: nat :: Create(n) in files && Delete(n) !in files
  }

  // The steps.

  datatype Step = Invoke(pid: Pid, op: Op) | Act(pid: Pid) | Crash(pid: Pid)

  /** The directory now. */
  function Now(s: Store): Files
    requires s.past != []
  {
    s.past[|s.past| - 1]
  }

  /** Time passes; the step leaves `files`. */
  function Tick(s: Store, files: Files): Store {
    s.(past := s.past + [files])
  }

  function Resume(s: Store, pid: Pid, proc: Proc, pc: Pc): Store {
    s.(procs := s.procs[pid := proc.(pc := pc)])
  }

  /** The call ends with the step that is being taken, at instant `|s.past| - 1`. */
  function Return(s: Store, pid: Pid, proc: Proc, outcome: Outcome): Store
    requires s.past != []
  {
    s.(procs := s.procs - {pid},
       results := s.results + [Result(proc.op, proc.since, |s.past| - 1, outcome)])
  }

  /** The exclusive create of one file: it fails if the file is there. */
  function Open(s: Store, pid: Pid, proc: Proc, file: File): Store
    requires s.past != []
  {
    if file in Now(s) then Return(Tick(s, Now(s)), pid, proc, No)
    else
      var s' := Tick(s, Now(s) + {file});
      Resume(s', pid, proc, Opened(file.n, |s.past|)).(effects := s.effects + [Effect(proc.op, |s.past|)])
  }

  /** One atomic step of a call. */
  ghost function Advance(s: Store, pid: Pid, proc: Proc): Store
    requires s.past != []
  {
    var files := Now(s);
    var s' := Tick(s, files);
    match proc.pc
    case Started =>
      var g := HighestGeneration(files);
      if g > 0 then Resume(s', pid, proc, Listed(g))
      else if proc.op.CreateOp? then Resume(s', pid, proc, Ready(1))
      else Return(s', pid, proc, No)
    case Listed(g) =>
      var tombstoned := Delete(g) in files;
      if proc.op.CreateOp? then Resume(s', pid, proc, Ready(if tombstoned then g + 1 else g))
      else if tombstoned then Return(s', pid, proc, No)
      else Resume(s', pid, proc, Ready(g))
    case Ready(target) =>
      (match proc.op
       case CreateOp => Open(s, pid, proc, Create(target))
       case DeleteOp => Open(s, pid, proc, Delete(target))
       case ListOp => Return(s', pid, proc, if target in s.written then Ok(|s.past|) else Unreadable))
    case Opened(target, point) =>
      var done := Return(s', pid, proc, Ok(point));
      if proc.op.CreateOp? then done.(written := s.written + {target}) else done
  }

  ghost function Do(s: Store, step: Step): Store
    requires s.past != []
  {
    match step
    case Invoke(pid, op) =>
      var s' := Tick(s, Now(s));
      if pid in s.procs then s' else s'.(procs := s.procs[pid := Proc(op, |s.past|, Started)])
    case Act(pid) =>
      if pid in s.procs then Advance(s, pid, s.procs[pid]) else Tick(s, Now(s))
    case Crash(pid) =>
      Tick(s, Now(s)).(procs := s.procs - {pid})
  }

  /** The store after any interleaving of steps of any calls, crashes included. */
  ghost function Run(steps: seq<Step>): (s: Store)
    ensures s.past != []
  {
    if steps == [] then EMPTY_STORE else Do(Run(steps[..|steps| - 1]), steps[|steps| - 1])
  }

  // The shape of the directory.

  /** Generations 1..n were created, all but perhaps the last of them deleted, and nothing else. */
  ghost predicate Shape(files: Files, n: nat) {
    && (forall k: nat :: Create(k) in files <==> 1 <= k <= n)
    && (forall k: nat :: Delete(k) in files ==> 1 <= k <= n)
    && (forall k: nat :: 1 <= k < n ==> Delete(k) in files)
  }

  lemma ShapeFacts(files: Files, n: nat)
    requires Shape(files, n)
    ensures Numbered(files) && HighestGeneration(files) == n
    ensures Active(files) <==> n >= 1 && Delete(n) !in files
    ensures forall m: nat :: Shape(files, m) ==> m == n
  {
    assert Numbered(files);
    var g := HighestGeneration(files);
    assert IsHighest(files, g);
    if n >= 1 {
      assert Create(n) in files;
      assert Create(n).n <= g;
      var f :| f in files && f.n == g;
    } else {
      assert forall f :: f in files ==> f == Create(f.n) || f == Delete(f.n);
      assert files == {};
    }
    forall m: nat | Shape(files, m)
      ensures m == n
    {
      assert Create(m) in files <==> 1 <= m <= n;
      assert Create(n) in files <==> 1 <= n <= m;
      assert Create(m) in files <==> 1 <= m <= m;
      assert Create(n) in files <==> 1 <= n <= n;
    }
  }

  /** From one instant to the next nothing changes, or the idle name gets its next generation, or the
    * active generation its tombstone. */
  ghost predicate Grows(a: Files, b: Files) {
    b == a || exists n: nat ::
      Shape(a, n) && ((!Active(a) && b == a + {Create(n + 1)} && Shape(b, n + 1))
                      || (Active(a) && n >= 1 && b == a + {Delete(n)} && Shape(b, n)))
  }

  lemma CreateGrows(a: Files, n: nat)
    requires Shape(a, n) && !Active(a)
    ensures Shape(a + {Create(n + 1)}, n + 1) && Active(a + {Create(n + 1)}) && Grows(a, a + {Create(n + 1)})
  {
    var b := a + {Create(n + 1)};
    ShapeFacts(a, n);
    forall k: nat
      ensures Create(k) in b <==> 1 <= k <= n + 1
    {
      assert Create(k) in a <==> 1 <= k <= n;
    }
    assert Shape(b, n + 1);
    ShapeFacts(b, n + 1);
  }

  lemma DeleteGrows(a: Files, n: nat)
    requires Shape(a, n) && Active(a)
    ensures Shape(a + {Delete(n)}, n) && !Active(a + {Delete(n)}) && Grows(a, a + {Delete(n)})
  {
    var b := a + {Delete(n)};
    ShapeFacts(a, n);
    assert Shape(b, n);
    ShapeFacts(b, n);
  }

  ghost predicate Shaped(files: Files) {
    exists n: nat :: Shape(files, n)
  }

  /** Every instant is well shaped and follows from the one before. */
  ghost predicate History(past: seq<Files>) {
    && past != []
    && (forall i :: 0 <= i < |past| ==> Shaped(past[i]))
    && (forall i, j :: 0 <= i < j < |past| && j == i + 1 ==> Grows(past[i], past[j]))
  }

  lemma HistoryGrows(past: seq<Files>, files: Files)
    requires History(past) && Shaped(files) && Grows(past[|past| - 1], files)
    ensures History(past + [files])
  {
  }

  ghost predicate SawGeneration(past: seq<Files>, since: nat, g: nat) {
    exists j :: since <= j < |past| && Shape(past[j], g)
  }

  /** The flag had value `b` at some instant from `since` on. */
  ghost predicate SawFlag(past: seq<Files>, since: nat, b: bool) {
    exists j :: since <= j < |past| && Active(past[j]) == b
  }

  lemma SeenStays(past: seq<Files>, files: Files, since: nat)
    ensures forall g: nat :: SawGeneration(past, since, g) ==> SawGeneration(past + [files], since, g)
    ensures forall b :: SawFlag(past, since, b) ==> SawFlag(past + [files], since, b)
  {
    var later := past + [files];
    forall g: nat | SawGeneration(past, since, g)
      ensures SawGeneration(later, since, g)
    {
      var j :| since <= j < |past| && Shape(past[j], g);
      assert Shape(later[j], g);
    }
    forall b | SawFlag(past, since, b)
      ensures SawFlag(later, since, b)
    {
      var j :| since <= j < |past| && Active(past[j]) == b;
      assert Active(later[j]) == b;
    }
  }

  /** What is there stays there. */
  lemma {:induction false} FilesStay(past: seq<Files>, i: nat, j: nat)
    requires History(past) && i <= j < |past|
    ensures past[i] <= past[j]
    decreases j
  {
    if i < j {
      FilesStay(past, i, j - 1);
      assert Grows(past[j - 1], past[j]);
    }
  }

  /** A generation that appears after `i` was active when it appeared. */
  lemma {:induction false} LaterGenerationWasActive(past: seq<Files>, i: nat, j: nat, g: nat, m: nat)
    requires History(past) && i <= j < |past|
    requires Shape(past[i], g) && Shape(past[j], m) && g < m
    ensures exists k :: i <= k <= j && Active(past[k])
    decreases j
  {
    ShapeFacts(past[j], m);
    if i == j || Active(past[j]) {
      ShapeFacts(past[i], g);
    } else {
      assert Grows(past[j - 1], past[j]);
      assert Shaped(past[j - 1]);
      var n: nat :| Shape(past[j - 1], n);
      ShapeFacts(past[j - 1], n);
      if past[j] != past[j - 1] && !Active(past[j - 1]) {
        CreateGrows(past[j - 1], n);
        assert false;
      }
      LaterGenerationWasActive(past, i, j - 1, g, m);
    }
  }

  /** A generation that was the highest at `i` and is tombstoned at `j` was inactive in between. */
  lemma {:induction false} TombstonedWasInactive(past: seq<Files>, i: nat, j: nat, g: nat)
    requires History(past) && i <= j < |past|
    requires Shape(past[i], g) && Delete(g) in past[j]
    ensures exists k :: i <= k <= j && !Active(past[k])
    decreases j
  {
    ShapeFacts(past[i], g);
    if i < j && Active(past[j]) && Active(past[j - 1]) {
      assert Grows(past[j - 1], past[j]);
      assert past[j] == past[j - 1] by {
        if n: nat :| Shape(past[j - 1], n) && past[j] == past[j - 1] + {Delete(n)} {
          DeleteGrows(past[j - 1], n);
        }
      }
      TombstonedWasInactive(past, i, j - 1, g);
    }
  }
}
