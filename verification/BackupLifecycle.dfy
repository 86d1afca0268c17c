/**
 The life cycle of backup records over all runs: backups, verifications,
 deletions, restores and retention sweeps by concurrent goroutines. What reads
 a record and writes it back later takes two steps, so others may come between:
 a verification is read and then marked, a restore reads the backup and is then
 inserted, a sweep lists and then deletes.
 */
module BackupLifecycle {
  import opened Bytes
  import opened BackupRecords

  /** The capacity of the semaphore channel. */
  const MAX_BACKUPS: nat := 3

  datatype RestoreRow = RestoreRow(backup: Id, status: Status)

  /** A goroutine. Dumper, Starter and Checker carry the in-memory record they will write back. */
  datatype Worker =
    | Dumper(id: Id, copy: Row, hasSlot: bool)
    | Starter(id: Id, copy: Row)   // a StartVerification call between its read and its update
    | Checker(id: Id, copy: Row)
    | Sweeper(schedule: Id, kind: Kind, todo: seq<Id>, plan: seq<(Kind, int)>)
    | RestoreReader(id: Id)        // a StartRestore call between its read and its insert
    | Restorer(restore: Id)

  datatype State = State(
    rows: Table,
    used: set<Id>,             // every id ever given to a backup
    restores: map<Id, RestoreRow>,
    workers: map<nat, Worker>,
    next: nat,                 // the number of the next goroutine
    slots: nat)                // tokens in the semaphore channel

  const INIT: State := State(map[], {}, map[], map[], 0, 0)

  datatype Step =
    | StartBackup(id: Id, schedule: Option<Id>, kind: Kind, now: int)
    | AcquireSlot(g: nat)
    | FinishBackup(g: nat, ok: bool, checksum: string, saved: bool)
    | ReadForVerification(id: Id)
    | MarkVerifying(g: nat, saved: bool)
    | FinishVerification(g: nat, passed: bool, checksum: string, saved: bool)
    | Delete(id: Id)
    | StartSweep(of: Id, keepFull: int, keepIncr: int)
    | SweepList(g: nat, listed: bool, q: seq<Id>)
    | SweepDelete(g: nat, ok: bool)
    | EndSweep(g: nat)
    | ReadForRestore(id: Id)
    | InsertRestore(g: nat, restore: Id, saved: bool)
    | FinishRestore(g: nat, ok: bool, saved: bool)

  predicate Enabled(s: State, step: Step) {
    match step
    // uuid.New never repeats an id
    case StartBackup(id, _, _, _) => id !in s.used
    case AcquireSlot(g) => g in s.workers && s.workers[g].Dumper? && !s.workers[g].hasSlot && s.slots < MAX_BACKUPS
    case FinishBackup(g, _, _, _) => g in s.workers && s.workers[g].Dumper? && s.workers[g].hasSlot
    case ReadForVerification(id) => id in s.rows && s.rows[id].status == Success
    case MarkVerifying(g, _) => g in s.workers && s.workers[g].Starter?
    // a pass confirms the checksum the worker read, if there was one
    case FinishVerification(g, passed, checksum, _) =>
      && g in s.workers && s.workers[g].Checker?
      && (passed && s.workers[g].copy.checksum != "" ==> checksum == s.workers[g].copy.checksum)
    case Delete(id) => id in s.rows
    case StartSweep(_, _, _) => true
    case SweepList(g, listed, q) =>
      && g in s.workers && s.workers[g].Sweeper? && s.workers[g].todo == [] && s.workers[g].plan != []
      && (listed ==> IsQueryResult(s.rows, s.workers[g].schedule, s.workers[g].plan[0].0, q))
    case SweepDelete(g, ok) => g in s.workers && s.workers[g].Sweeper? && s.workers[g].todo != []
    case EndSweep(g) => g in s.workers && s.workers[g].Sweeper? && s.workers[g].todo == [] && s.workers[g].plan == []
    case ReadForRestore(id) => id in s.rows && s.rows[id].status == Success
    case InsertRestore(g, restore, _) => g in s.workers && s.workers[g].RestoreReader? && restore !in s.restores
    case FinishRestore(g, _, _) => g in s.workers && s.workers[g].Restorer? && s.workers[g].restore in s.restores
  }

  function Spawn(s: State, w: Worker): State {
    s.(workers := s.workers[s.next := w], next := s.next + 1)
  }

  function Ends(s: State, g: nat): State {
    s.(workers := s.workers - {g})
  }

  function Apply(s: State, step: Step): State
    requires Enabled(s, step)
  {
    match step
    case StartBackup(id, schedule, kind, now) =>
      var row := Started(schedule, kind, now);
      Spawn(s.(rows := s.rows[id := row], used := s.used + {id}), Dumper(id, row, false))
    case AcquireSlot(g) =>
      s.(workers := s.workers[g := s.workers[g].(hasSlot := true)], slots := s.slots + 1)
    case FinishBackup(g, ok, checksum, saved) =>
      var w := s.workers[g];
      var rows := if saved then Updated(s.rows, w.id, Ended(w.copy, ok, checksum)) else s.rows;
      Ends(s.(rows := rows, slots := if s.slots > 0 then s.slots - 1 else 0), g)
    case ReadForVerification(id) => Spawn(s, Starter(id, s.rows[id]))
    // a record deleted since it was read is not an error
    case MarkVerifying(g, saved) =>
      var id, row := s.workers[g].id, VerifyStarted(s.workers[g].copy);
      if saved then s.(rows := Updated(s.rows, id, row), workers := s.workers[g := Checker(id, row)]) else Ends(s, g)
    case FinishVerification(g, passed, checksum, saved) =>
      var w := s.workers[g];
      var rows := if saved then Updated(s.rows, w.id, VerifyEnded(w.copy, passed, checksum)) else s.rows;
      Ends(s.(rows := rows), g)
    case Delete(id) => s.(rows := s.rows - {id})
    case StartSweep(schedule, keepFull, keepIncr) =>
      Spawn(s, Sweeper(schedule, FullBackup, [], [(FullBackup, keepFull), (IncrementalBackup, keepIncr)]))
    case SweepList(g, listed, q) =>
      var w := s.workers[g];
      var keep := w.plan[0].1;
      var todo := if listed && keep > 0 then Oldest(q, keep) else [];
      s.(workers := s.workers[g := Sweeper(w.schedule, w.plan[0].0, todo, w.plan[1..])])
    case SweepDelete(g, ok) =>
      var w := s.workers[g];
      var s' := s.(workers := s.workers[g := w.(todo := w.todo[1..])]);
      if ok then s'.(rows := s.rows - {w.todo[0]}) else s'
    case EndSweep(g) => Ends(s, g)
    case ReadForRestore(id) => Spawn(s, RestoreReader(id))
    case InsertRestore(g, restore, saved) =>
      if saved
      then s.(restores := s.restores[restore := RestoreRow(s.workers[g].id, Running)],
              workers := s.workers[g := Restorer(restore)])
      else Ends(s, g)
    case FinishRestore(g, ok, saved) =>
      var r := s.workers[g].restore;
      var row := s.restores[r].(status := if ok then Success else Failed);
      Ends(if saved then s.(restores := s.restores[r := row]) else s, g)
  }

  ghost predicate IsRun(states: seq<State>, steps: seq<Step>) {
    && |states| == |steps| + 1
    && states[0] == INIT
    && forall i :: 0 <= i < |steps| ==> StepAt(states, steps, i)
  }

  ghost predicate StepAt(states: seq<State>, steps: seq<Step>, i: nat)
    requires i < |steps| < |states|
  {
    Enabled(states[i], steps[i]) && states[i + 1] == Apply(states[i], steps[i])
  }

  // ------------------------------------------------------------ invariant

  /** Backing up or verifying a record. */
  predicate OnRecord(w: Worker) {
    w.Dumper? || w.Checker?
  }

  predicate WorksOn(s: State, g: nat, id: Id) {
    g in s.workers && OnRecord(s.workers[g]) && s.workers[g].id == id
  }

  /** The record is being worked on. */
  ghost predicate HasWorker(s: State, id: Id) {
    exists g :: WorksOn(s, g, id)
  }

  /** A StartVerification call has read the record and not yet marked it. */
  predicate WillMark(s: State, g: nat, id: Id) {
    g in s.workers && s.workers[g].Starter? && s.workers[g].id == id
  }

  function SlotHolders(s: State): set<nat> {
    set g | g in s.workers && s.workers[g].Dumper? && s.workers[g].hasSlot
  }

  /** The record is past its backup, and of the schedule and type that the copy says. */
  predicate MadeBefore(copy: Row, row: Row) {
    row.status != Running && SameGroup(copy, row)
  }

  predicate SameGroup(a: Row, b: Row) {
    a.schedule == b.schedule && a.kind == b.kind
  }

  /** A backup in progress finds its record as it left it; a verified record was made before. */
  predicate WorkerOk(s: State, g: nat)
    requires g in s.workers
  {
    var w := s.workers[g];
    && g < s.next
    && match w
       case Dumper(id, copy, _) => id in s.used && copy.status == Running && (id in s.rows ==> s.rows[id] == copy)
       case Starter(id, copy) =>
         id in s.used && copy.status == Success && (id in s.rows ==> MadeBefore(copy, s.rows[id]))
       case Checker(id, copy) =>
         id in s.used && copy.status == Verifying && (id in s.rows ==> MadeBefore(copy, s.rows[id]))
       case _ => true
  }

  /** Nothing else holds a record that is still being backed up. */
  ghost predicate DumperAlone(s: State, g: nat) {
    g in s.workers && s.workers[g].Dumper? ==>
      forall h :: WorksOn(s, h, s.workers[g].id) || WillMark(s, h, s.workers[g].id) ==> h == g
  }

  ghost predicate WorkersInv(s: State) {
    && s.rows.Keys <= s.used
    && (forall g :: g in s.workers ==> WorkerOk(s, g))
    && (forall g :: DumperAlone(s, g))
  }

  ghost predicate SlotsInv(s: State) {
    s.slots == |SlotHolders(s)| <= MAX_BACKUPS
  }

  /** A sweep never holds a record that is still being made. */
  ghost predicate SweepInv(s: State) {
    forall g, id :: Sweeps(s, g, id) ==> id in s.used && (id in s.rows ==> s.rows[id].status != Running)
  }

  predicate Sweeps(s: State, g: nat, id: Id) {
    g in s.workers && s.workers[g].Sweeper? && id in s.workers[g].todo
  }

  ghost predicate Inv(s: State) {
    WorkersInv(s) && SlotsInv(s) && SweepInv(s)
  }

  /** The step is the table update of goroutine `g` for this record. */
  predicate Writes(s: State, step: Step, g: nat, id: Id) {
    && (WorksOn(s, g, id) || WillMark(s, g, id))
    && match step
       case FinishBackup(x, _, _, saved) => x == g && saved
       case FinishVerification(x, _, _, saved) => x == g && saved
       case MarkVerifying(x, saved) => x == g && saved
       case _ => false
  }

  /** A step leaves a record alone unless it is made, written or deleted by it. */
  lemma RowStays(s: State, step: Step, id: Id)
    requires Enabled(s, step) && id in Apply(s, step).rows && !(step.StartBackup? && step.id == id)
    requires forall g :: !Writes(s, step, g, id)
    ensures id in s.rows && Apply(s, step).rows[id] == s.rows[id]
  {
    if step.FinishBackup? || step.FinishVerification? || step.MarkVerifying? {
      assert !Writes(s, step, step.g, id);
    }
  }

  /** A backup in progress keeps its record. */
  lemma DumperKeepsRecord(s: State, step: Step, h: nat)
    requires WorkersInv(s) && Enabled(s, step) && h in s.workers && s.workers[h].Dumper?
    requires h in Apply(s, step).workers && s.workers[h].id in Apply(s, step).rows
    ensures Apply(s, step).rows[s.workers[h].id] == s.workers[h].copy
  {
    var id := s.workers[h].id;
    assert WorkerOk(s, h) && DumperAlone(s, h);
    forall g ensures !Writes(s, step, g, id) {
    }
    RowStays(s, step, id);
  }

  /** Only a backup in progress has a running record. */
  lemma NotRunningAgain(s: State, step: Step, id: Id)
    requires WorkersInv(s) && Enabled(s, step) && id in s.used
    requires id in s.rows ==> s.rows[id].status != Running
    ensures id in Apply(s, step).rows ==> id in s.rows && Apply(s, step).rows[id].status != Running
  {
  }

  /** No step changes the schedule or the type of a record. */
  lemma GroupStays(s: State, step: Step, id: Id)
    requires WorkersInv(s) && Enabled(s, step) && id in s.rows && id in Apply(s, step).rows
    ensures SameGroup(Apply(s, step).rows[id], s.rows[id])
  {
    if step.FinishBackup? || step.FinishVerification? || step.MarkVerifying? {
      assert WorkerOk(s, step.g);
    }
  }

  lemma StillMadeBefore(s: State, step: Step, h: nat, id: Id)
    requires WorkersInv(s) && Enabled(s, step) && h in s.workers
    requires s.workers[h].Starter? || s.workers[h].Checker?
    requires s.workers[h].id == id
    ensures id in Apply(s, step).rows ==> MadeBefore(s.workers[h].copy, Apply(s, step).rows[id])
  {
    assert WorkerOk(s, h);
    NotRunningAgain(s, step, id);
    if id in Apply(s, step).rows {
      GroupStays(s, step, id);
    }
  }

  lemma StepKeepsWorker(s: State, step: Step, h: nat)
    requires WorkersInv(s) && Enabled(s, step) && h in Apply(s, step).workers
    ensures WorkerOk(Apply(s, step), h)
  {
    if h in s.workers {
      assert WorkerOk(s, h);
      match s.workers[h]
      case Dumper(id, _, _) =>
        if id in Apply(s, step).rows {
          DumperKeepsRecord(s, step, h);
        }
      case Starter(id, _) => StillMadeBefore(s, step, h, id);
      case Checker(id, _) => StillMadeBefore(s, step, h, id);
      case _ =>
    }
  }

  lemma StepKeepsDumperAlone(s: State, step: Step, g: nat)
    requires WorkersInv(s) && Enabled(s, step)
    ensures DumperAlone(Apply(s, step), g)
  {
    var t := Apply(s, step);
    if g in t.workers && t.workers[g].Dumper? {
      var id := t.workers[g].id;
      if g in s.workers {
        assert WorkerOk(s, g) && DumperAlone(s, g);
      }
      forall h | WorksOn(t, h, id) || WillMark(t, h, id) ensures h == g {
        if h in s.workers {
          assert WorkerOk(s, h);
          assert WorksOn(s, h, id) || WillMark(s, h, id);
        }
      }
    }
  }

  lemma StepKeepsWorkers(s: State, step: Step)
    requires WorkersInv(s) && Enabled(s, step)
    ensures WorkersInv(Apply(s, step))
  {
    var t := Apply(s, step);
    forall h | h in t.workers ensures WorkerOk(t, h) {
      StepKeepsWorker(s, step, h);
    }
    forall g ensures DumperAlone(t, g) {
      StepKeepsDumperAlone(s, step, g);
    }
    assert t.rows.Keys <= t.used by {
      if step.FinishBackup? || step.FinishVerification? || step.MarkVerifying? {
        assert WorkerOk(s, step.g);
      }
    }
  }

  lemma StepKeepsSlots(s: State, step: Step)
    requires WorkersInv(s) && SlotsInv(s) && Enabled(s, step)
    ensures SlotsInv(Apply(s, step))
  {
    if step.AcquireSlot? {
      AcquireAddsHolder(s, step.g);
    } else if step.FinishBackup? {
      FinishDropsHolder(s, step);
    } else {
      SameHolders(s, step);
    }
  }

  lemma AcquireAddsHolder(s: State, g: nat)
    requires Enabled(s, AcquireSlot(g))
    ensures SlotHolders(Apply(s, AcquireSlot(g))) == SlotHolders(s) + {g} && g !in SlotHolders(s)
    ensures Apply(s, AcquireSlot(g)).slots == s.slots + 1
  {
  }

  lemma FinishDropsHolder(s: State, step: Step)
    requires Enabled(s, step) && step.FinishBackup?
    ensures SlotHolders(Apply(s, step)) == SlotHolders(s) - {step.g} && step.g in SlotHolders(s)
    ensures s.slots > 0 ==> Apply(s, step).slots == s.slots - 1
  {
  }

  lemma SameHolders(s: State, step: Step)
    requires WorkersInv(s) && Enabled(s, step) && !step.AcquireSlot? && !step.FinishBackup?
    ensures SlotHolders(Apply(s, step)) == SlotHolders(s)
    ensures Apply(s, step).slots == s.slots
  {
    var t := Apply(s, step);
    forall g ensures g in SlotHolders(t) <==> g in SlotHolders(s) {
      if g in s.workers {
        assert g < s.next;
      }
    }
  }

  lemma StepKeepsSweeps(s: State, step: Step)
    requires WorkersInv(s) && SweepInv(s) && Enabled(s, step)
    ensures SweepInv(Apply(s, step))
  {
    var t := Apply(s, step);
    forall g, id | Sweeps(t, g, id) ensures id in t.used && (id in t.rows ==> t.rows[id].status != Running) {
      if !Sweeps(s, g, id) {
        assert step.SweepList? && id in Members(step.q);
      }
    }
  }

  lemma {:induction false} RunsKeepInv(states: seq<State>, steps: seq<Step>, i: nat)
    requires IsRun(states, steps) && i <= |steps|
    ensures Inv(states[i])
  {
    if i == 0 {
      assert SlotHolders(INIT) == {};
    } else {
      RunsKeepInv(states, steps, i - 1);
      assert StepAt(states, steps, i - 1);
      StepKeepsWorkers(states[i - 1], steps[i - 1]);
      StepKeepsSlots(states[i - 1], steps[i - 1]);
      StepKeepsSweeps(states[i - 1], steps[i - 1]);
    }
  }

  // ------------------------------------------------- the life of one record

  predicate WaitsForSlot(s: State, g: nat) {
    g in s.workers && s.workers[g].Dumper? && !s.workers[g].hasSlot
  }

  /** Two workers on one record. */
  predicate SameRecord(s: State, g: nat, h: nat) {
    && g in s.workers && h in s.workers
    && OnRecord(s.workers[g]) && OnRecord(s.workers[h])
    && s.workers[g].id == s.workers[h].id
  }

  /** At most one worker on a record, and none on one that is "success" or "failed". */
  ghost predicate Orderly(s: State) {
    && (forall g, h :: SameRecord(s, g, h) ==> g == h)
    && (forall g, id :: WorksOn(s, g, id) && id in s.rows ==> s.rows[id].status in {Running, Verifying})
  }

  /** Step `k` marks a record for verification. */
  predicate Marks(states: seq<State>, steps: seq<Step>, k: nat, id: Id) {
    && k < |steps| < |states| && steps[k].MarkVerifying? && steps[k].saved
    && WillMark(states[k], steps[k].g, id)
  }

  /** It marks a record that another verification is already working on. */
  ghost predicate MarksTwice(states: seq<State>, steps: seq<Step>, k: nat) {
    exists id :: Marks(states, steps, k, id) && HasWorker(states[k], id)
  }

  lemma StepKeepsOrder(s: State, step: Step)
    requires WorkersInv(s) && Orderly(s) && Enabled(s, step)
    requires step.MarkVerifying? && step.saved ==> !HasWorker(s, s.workers[step.g].id)
    ensures Orderly(Apply(s, step))
  {
    var t := Apply(s, step);
    forall g, h | SameRecord(t, g, h) ensures g == h {
      StillAlone(s, step, g, h);
    }
    forall g, id | WorksOn(t, g, id) && id in t.rows ensures t.rows[id].status in {Running, Verifying} {
      WorkedIsUnsettled(s, step, g, id);
    }
  }

  /** This step turns goroutine `g` into the worker of a record. */
  predicate WillBeAlone(s: State, step: Step, g: nat) {
    (step.StartBackup? && g == s.next) || (step.MarkVerifying? && step.saved && step.g == g)
  }

  /** Nobody was working on the record before. */
  lemma NewWorkerAlone(s: State, step: Step, h: nat, id: Id)
    requires WorkersInv(s) && Enabled(s, step)
    requires step.StartBackup? || (step.MarkVerifying? && !HasWorker(s, s.workers[step.g].id))
    requires id == if step.StartBackup? then step.id else s.workers[step.g].id
    ensures !WorksOn(s, h, id)
  {
    if h in s.workers {
      assert WorkerOk(s, h);
    }
  }

  lemma StillAlone(s: State, step: Step, g: nat, h: nat)
    requires WorkersInv(s) && Orderly(s) && Enabled(s, step)
    requires step.MarkVerifying? && step.saved ==> !HasWorker(s, s.workers[step.g].id)
    requires SameRecord(Apply(s, step), g, h)
    ensures g == h
  {
    var id := Apply(s, step).workers[g].id;
    if WillBeAlone(s, step, g) {
      NewWorkerAlone(s, step, h, id);
    } else if WillBeAlone(s, step, h) {
      NewWorkerAlone(s, step, g, id);
    } else {
      assert SameRecord(s, g, h);
    }
  }

  lemma WorkedIsUnsettled(s: State, step: Step, g: nat, id: Id)
    requires WorkersInv(s) && Orderly(s) && Enabled(s, step)
    requires step.MarkVerifying? && step.saved ==> !HasWorker(s, s.workers[step.g].id)
    requires WorksOn(Apply(s, step), g, id) && id in Apply(s, step).rows
    ensures Apply(s, step).rows[id].status in {Running, Verifying}
  {
    if !WillBeAlone(s, step, g) {
      assert WorksOn(s, g, id) && WorkerOk(s, g);
      forall h ensures !Writes(s, step, h, id) {
        assert SameRecord(s, g, h) ==> g == h;
      }
      RowStays(s, step, id);
    }
  }

  /**
   In every reachable state at most three backups are past the semaphore, one
   that waits can pass exactly when there are fewer, and one that finishes
   finds its token there. A record has at most one worker and
   a settled one has none, in every state up to `j`, exactly when no
   StartVerification call up to there marks a record that another verification
   is working on; the call reads the status before, and does not look again.
   */
  lemma OneWorkerPerRecord(states: seq<State>, steps: seq<Step>, j: nat)
    requires IsRun(states, steps) && j <= |steps|
    ensures |SlotHolders(states[j])| <= 3
    ensures forall g :: WaitsForSlot(states[j], g) ==>
              (Enabled(states[j], AcquireSlot(g)) <==> |SlotHolders(states[j])| < 3)
    ensures forall g :: g in SlotHolders(states[j]) ==> states[j].slots > 0
    ensures (forall i :: 0 <= i <= j ==> Orderly(states[i])) <==>
            (forall k :: 0 <= k < j ==> !MarksTwice(states, steps, k))
  {
    RunsKeepInv(states, steps, j);
    if forall k :: 0 <= k < j ==> !MarksTwice(states, steps, k) {
      forall i | 0 <= i <= j ensures Orderly(states[i]) {
        OrderlyUpTo(states, steps, i);
      }
    } else {
      var k :| 0 <= k < j && MarksTwice(states, steps, k);
      assert StepAt(states, steps, k);
      TwoCheckersAfter(states[k], steps[k]);
      assert !Orderly(states[k + 1]);
    }
  }

  lemma TwoCheckersAfter(s: State, step: Step)
    requires Enabled(s, step) && step.MarkVerifying? && step.saved && HasWorker(s, s.workers[step.g].id)
    ensures !Orderly(Apply(s, step))
  {
    var id := s.workers[step.g].id;
    var h :| WorksOn(s, h, id);
    assert SameRecord(Apply(s, step), step.g, h);
  }

  lemma {:induction false} OrderlyUpTo(states: seq<State>, steps: seq<Step>, j: nat)
    requires IsRun(states, steps) && j <= |steps|
    requires forall k :: 0 <= k < j ==> !MarksTwice(states, steps, k)
    ensures Orderly(states[j])
  {
    if j > 0 {
      OrderlyUpTo(states, steps, j - 1);
      RunsKeepInv(states, steps, j - 1);
      assert StepAt(states, steps, j - 1);
      var step := steps[j - 1];
      if step.MarkVerifying? && step.saved {
        assert !MarksTwice(states, steps, j - 1);
        assert Marks(states, steps, j - 1, states[j - 1].workers[step.g].id);
      }
      StepKeepsOrder(states[j - 1], step);
    }
  }

  /** The final table update of a worker was not lost. */
  predicate Saved(step: Step) {
    && (step.FinishBackup? ==> step.saved)
    && (step.FinishVerification? ==> step.saved)
  }

  lemma WorkerSurvives(s: State, step: Step, g: nat, id: Id)
    requires WorkersInv(s) && Enabled(s, step) && Saved(step) && WorksOn(s, g, id)
    requires id in Apply(s, step).rows && Apply(s, step).rows[id].status in {Running, Verifying}
    ensures WorksOn(Apply(s, step), g, id)
  {
    assert WorkerOk(s, g);
  }

  /** As long as no final update is lost, no record is left running or verifying without a worker. */
  lemma {:induction false} NoOrphans(states: seq<State>, steps: seq<Step>, i: nat, id: Id)
    requires IsRun(states, steps) && i <= |steps|
    requires forall j :: 0 <= j < i ==> Saved(steps[j])
    requires id in states[i].rows && states[i].rows[id].status in {Running, Verifying}
    ensures HasWorker(states[i], id)
  {
    if i > 0 {
      var s, step := states[i - 1], steps[i - 1];
      RunsKeepInv(states, steps, i - 1);
      assert StepAt(states, steps, i - 1);
      if step.StartBackup? && step.id == id {
        assert WorksOn(states[i], s.next, id);
      } else if Marks(states, steps, i - 1, id) {
        assert WorksOn(states[i], step.g, id);
      } else {
        StatusChanges(s, step, id);
        NoOrphans(states, steps, i - 1, id);
        var g :| WorksOn(s, g, id);
        WorkerSurvives(s, step, g, id);
      }
    }
  }

  /** What one step can do to one record, and which step does it. */
  lemma StatusChanges(s: State, step: Step, id: Id)
    requires WorkersInv(s) && Enabled(s, step)
    ensures var t := Apply(s, step);
            && (id in s.rows ==> id in s.used)
            && (id in s.rows && id in t.rows && t.rows[id].status != s.rows[id].status ==>
                  ChangesBy(s, step, id, s.rows[id].status, t.rows[id].status))
            && (id !in s.rows && id in t.rows ==> id !in s.used && t.rows[id].status == Running && step.StartBackup?)
            && (id in s.rows && id !in t.rows ==> step == Delete(id) || step.SweepDelete?)
            && s.used <= t.used
  {
    if id in s.rows && id in Apply(s, step).rows && step.MarkVerifying? {
      assert WorkerOk(s, step.g);
    }
    if step.FinishBackup? || step.FinishVerification? {
      assert WorkerOk(s, step.g);
    }
  }

  /** This step changes the status of the record from one to the other. */
  predicate ChangesBy(s: State, step: Step, id: Id, from: Status, to: Status) {
    match step
    case FinishBackup(g, ok, _, saved) =>
      WorksOn(s, g, id) && saved && from == Running && to == (if ok then Success else Failed)
    case MarkVerifying(g, saved) => WillMark(s, g, id) && saved && from != Running && to == Verifying
    case FinishVerification(g, passed, _, saved) =>
      WorksOn(s, g, id) && saved && from != Running && to == (if passed then Success else Failed)
    case _ => false
  }

  /** The same for the step at position `k` of a run. */
  lemma StatusChangesAt(states: seq<State>, steps: seq<Step>, k: nat, id: Id)
    requires IsRun(states, steps) && k < |steps|
    ensures var s, t, step := states[k], states[k + 1], steps[k];
            && (id in s.rows ==> id in s.used)
            && (id in s.rows && id in t.rows && t.rows[id].status != s.rows[id].status ==>
                  ChangesBy(s, step, id, s.rows[id].status, t.rows[id].status))
            && (id !in s.rows && id in t.rows ==> id !in s.used && t.rows[id].status == Running && step.StartBackup?)
            && (id in s.rows && id !in t.rows ==> step == Delete(id) || step.SweepDelete?)
            && s.used <= t.used
  {
    RunsKeepInv(states, steps, k);
    assert StepAt(states, steps, k);
    StatusChanges(states[k], steps[k], id);
  }

  // ------------------------------------------------ a record, field by field

  /** A record goes only when a call deletes it, or as the next one a sweep deletes. */
  lemma RecordGoes(states: seq<State>, steps: seq<Step>, k: nat, id: Id)
    requires IsRun(states, steps) && k < |steps| && id in states[k].rows && id !in states[k + 1].rows
    ensures || steps[k] == Delete(id)
            || (&& steps[k].SweepDelete? && steps[k].ok && Sweeps(states[k], steps[k].g, id)
                && states[k].workers[steps[k].g].todo[0] == id)
  {
    assert StepAt(states, steps, k);
  }

  /** A new record is of one StartBackup call, with what that call was given. */
  lemma RecordComes(states: seq<State>, steps: seq<Step>, k: nat, id: Id)
    requires IsRun(states, steps) && k < |steps| && id !in states[k].rows && id in states[k + 1].rows
    ensures steps[k].StartBackup? && steps[k].id == id && id !in states[k].used
    ensures states[k + 1].rows[id] == Row(steps[k].schedule, steps[k].kind, steps[k].now, Running, VerifyStatus.Pending,
                                          "")
  {
    assert StepAt(states, steps, k);
  }

  /** A record changes only by the final update of its worker, or by a mark. */
  lemma RecordChanges(states: seq<State>, steps: seq<Step>, k: nat, id: Id)
    requires IsRun(states, steps) && k < |steps| && id in states[k].rows && id in states[k + 1].rows
    requires states[k + 1].rows[id] != states[k].rows[id]
    ensures (steps[k].FinishBackup? || steps[k].MarkVerifying? || steps[k].FinishVerification?)
            && Writes(states[k], steps[k], steps[k].g, id)
  {
    assert StepAt(states, steps, k);
    RunsKeepInv(states, steps, k);
    if forall g :: !Writes(states[k], steps[k], g, id) {
      RowStays(states[k], steps[k], id);
    }
  }

  /** The end of a backup sets the status, and the checksum of a completed one, and nothing else. */
  lemma BackupEnds(states: seq<State>, steps: seq<Step>, k: nat, id: Id)
    requires IsRun(states, steps) && k < |steps| && steps[k].FinishBackup? && steps[k].saved
    requires WorksOn(states[k], steps[k].g, id) && id in states[k].rows
    ensures id in states[k + 1].rows && states[k].rows[id].status == Running
    ensures steps[k].ok ==>
              states[k + 1].rows[id] == states[k].rows[id].(status := Success, checksum := steps[k].checksum)
    ensures !steps[k].ok ==> states[k + 1].rows[id] == states[k].rows[id].(status := Failed)
  {
    assert StepAt(states, steps, k);
    RunsKeepInv(states, steps, k);
    assert WorkerOk(states[k], steps[k].g);
  }

  /** A StartVerification call carries the record as it read it. */
  lemma {:induction false} StarterRead(states: seq<State>, steps: seq<Step>, k: nat, g: nat, id: Id) returns (r: nat)
    requires IsRun(states, steps) && k <= |steps| && WillMark(states[k], g, id)
    ensures r < k && steps[r] == ReadForVerification(id) && states[r].next == g
    ensures id in states[r].rows && states[r].rows[id].status == Success
    ensures states[k].workers[g].copy == states[r].rows[id]
  {
    assert StepAt(states, steps, k - 1);
    if WillMark(states[k - 1], g, id) && states[k - 1].workers[g] == states[k].workers[g] {
      r := StarterRead(states, steps, k - 1, g, id);
    } else {
      r := k - 1;
    }
  }

  /** A mark writes back the record as its call read it, with the two status columns changed. */
  lemma MarkWritesBack(states: seq<State>, steps: seq<Step>, k: nat, id: Id) returns (r: nat)
    requires IsRun(states, steps) && Marks(states, steps, k, id) && id in states[k].rows
    ensures r < k && steps[r] == ReadForVerification(id) && states[r].next == steps[k].g
    ensures id in states[r].rows && states[r].rows[id].status == Success && id in states[k + 1].rows
    ensures states[k + 1].rows[id] == states[r].rows[id].(status := Verifying, verify := InProgress)
  {
    assert StepAt(states, steps, k);
    r := StarterRead(states, steps, k, steps[k].g, id);
  }

  /** A verification works on the record as its call read it. */
  lemma {:induction false} CheckerRead(states: seq<State>, steps: seq<Step>, k: nat, g: nat, id: Id) returns (r: nat)
    requires IsRun(states, steps) && k <= |steps| && WorksOn(states[k], g, id) && states[k].workers[g].Checker?
    ensures r < k && steps[r] == ReadForVerification(id) && states[r].next == g
    ensures id in states[r].rows && states[r].rows[id].status == Success
    ensures states[k].workers[g].copy == states[r].rows[id].(status := Verifying, verify := InProgress)
  {
    assert StepAt(states, steps, k - 1);
    if g in states[k - 1].workers && states[k - 1].workers[g] == states[k].workers[g] {
      r := CheckerRead(states, steps, k - 1, g, id);
    } else {
      r := StarterRead(states, steps, k - 1, g, id);
    }
  }

  /** The end of a verification writes back the record as its call read it, with its verdict. */
  lemma VerificationEnds(states: seq<State>, steps: seq<Step>, k: nat, id: Id) returns (r: nat)
    requires IsRun(states, steps) && k < |steps| && steps[k].FinishVerification? && steps[k].saved
    requires WorksOn(states[k], steps[k].g, id) && id in states[k].rows
    ensures r < k && steps[r] == ReadForVerification(id) && states[r].next == steps[k].g
    ensures id in states[r].rows && id in states[k + 1].rows
    ensures steps[k].passed ==>
              states[k + 1].rows[id]
              == states[r].rows[id].(status := Success, verify := Passed, checksum := steps[k].checksum)
    ensures steps[k].passed && states[r].rows[id].checksum != "" ==> steps[k].checksum == states[r].rows[id].checksum
    ensures !steps[k].passed ==>
              states[k + 1].rows[id] == states[r].rows[id].(status := Failed, verify := NotPassed)
  {
    assert StepAt(states, steps, k);
    RunsKeepInv(states, steps, k);
    r := CheckerRead(states, steps, k, steps[k].g, id);
  }

  // -------------------------------------------------- the life of a restore

  /** The goroutine of a restore finds it running, and no other works on it. */
  ghost predicate RestoreInv(s: State) {
    && (forall g: nat :: RunsRestore(s, g) ==>
          g < s.next && s.workers[g].restore in s.restores && s.restores[s.workers[g].restore].status == Running)
    && (forall g: nat, h: nat ::
          RunsRestore(s, g) && RunsRestore(s, h) && s.workers[g].restore == s.workers[h].restore ==> g == h)
  }

  predicate RunsRestore(s: State, g: nat) {
    g in s.workers && s.workers[g].Restorer?
  }

  /** The step is the end of this restore's goroutine. */
  predicate EndsRestore(s: State, step: Step, restore: Id) {
    step.FinishRestore? && step.g in s.workers && s.workers[step.g] == Restorer(restore)
  }

  lemma StepKeepsRunning(s: State, step: Step, g: nat)
    requires WorkersInv(s) && RestoreInv(s) && Enabled(s, step) && RunsRestore(Apply(s, step), g)
    ensures var t := Apply(s, step);
            && g < t.next && t.workers[g].restore in t.restores
            && t.restores[t.workers[g].restore].status == Running
  {
    assert RunsRestore(s, g) || step.InsertRestore?;
    if step.InsertRestore? {
      assert WorkerOk(s, step.g);
    } else if step.FinishRestore? {
      assert RunsRestore(s, step.g);
    }
  }

  lemma StepKeepsRestores(s: State, step: Step)
    requires WorkersInv(s) && RestoreInv(s) && Enabled(s, step)
    ensures RestoreInv(Apply(s, step))
  {
    var t := Apply(s, step);
    forall g: nat | RunsRestore(t, g)
      ensures g < t.next && t.workers[g].restore in t.restores
      ensures t.restores[t.workers[g].restore].status == Running
    {
      StepKeepsRunning(s, step, g);
    }
    forall g: nat, h: nat | RunsRestore(t, g) && RunsRestore(t, h) && t.workers[g].restore == t.workers[h].restore
      ensures g == h
    {
      assert RunsRestore(s, g) || step.InsertRestore?;
      assert RunsRestore(s, h) || step.InsertRestore?;
    }
  }

  lemma {:induction false} RunsKeepRestores(states: seq<State>, steps: seq<Step>, j: nat)
    requires IsRun(states, steps) && j <= |steps|
    ensures RestoreInv(states[j])
  {
    if j > 0 {
      RunsKeepRestores(states, steps, j - 1);
      RunsKeepInv(states, steps, j - 1);
      assert StepAt(states, steps, j - 1);
      StepKeepsRestores(states[j - 1], steps[j - 1]);
    }
  }

  /**
   A restore starts "running", keeps its backup, and is never removed. It turns
   to "success" or "failed" once, when its goroutine ends that way.
   */
  lemma RestoreMoves(states: seq<State>, steps: seq<Step>, k: nat, restore: Id)
    requires IsRun(states, steps) && k < |steps|
    ensures var s, t := states[k].restores, states[k + 1].restores;
            && (restore in s ==> restore in t && t[restore].backup == s[restore].backup)
            && (restore !in s && restore in t ==>
                  && steps[k].InsertRestore? && steps[k].restore == restore && t[restore].status == Running)
            && (restore in s && t[restore].status != s[restore].status ==>
                  && steps[k].FinishRestore? && steps[k].saved && s[restore].status == Running
                  && EndsRestore(states[k], steps[k], restore)
                  && t[restore].status == (if steps[k].ok then Success else Failed))
            && (EndsRestore(states[k], steps[k], restore) && steps[k].saved ==>
                  restore in t && t[restore].status == (if steps[k].ok then Success else Failed))
  {
    assert StepAt(states, steps, k);
    RunsKeepRestores(states, steps, k);
    if steps[k].FinishRestore? {
      assert RunsRestore(states[k], steps[k].g);
    }
  }

  predicate Moves(from: Status, to: Status) {
    || from == to
    || (from == Running && to in {Success, Failed})
    || (from == Success && to == Verifying)
    || (from == Verifying && to in {Success, Failed})
  }

  ghost predicate MovesAt(states: seq<State>, k: nat)
    requires k + 1 < |states|
  {
    forall id :: id in states[k].rows && id in states[k + 1].rows ==>
      Moves(states[k].rows[id].status, states[k + 1].rows[id].status)
  }

  /** Step `k` marks a record that is being verified already, or has "failed" since it was read. */
  ghost predicate MarksStale(states: seq<State>, steps: seq<Step>, k: nat) {
    exists id :: && Marks(states, steps, k, id)
                 && (HasWorker(states[k], id) || (id in states[k].rows && states[k].rows[id].status == Failed))
  }

  lemma MovesWhenFresh(states: seq<State>, steps: seq<Step>, k: nat)
    requires IsRun(states, steps) && k < |steps| && Orderly(states[k]) && !MarksStale(states, steps, k)
    ensures MovesAt(states, k)
  {
    forall id | id in states[k].rows && id in states[k + 1].rows
      ensures Moves(states[k].rows[id].status, states[k + 1].rows[id].status)
    {
      StatusChangesAt(states, steps, k, id);
      assert Marks(states, steps, k, id) ==> states[k].rows[id].status != Failed;
    }
  }

  lemma StaleMarkBreaks(states: seq<State>, steps: seq<Step>, k: nat)
    requires IsRun(states, steps) && k < |steps| && MarksStale(states, steps, k)
    ensures !Orderly(states[k + 1]) || !MovesAt(states, k)
  {
    assert StepAt(states, steps, k);
    var id :| && Marks(states, steps, k, id)
              && (HasWorker(states[k], id) || (id in states[k].rows && states[k].rows[id].status == Failed));
    if HasWorker(states[k], id) {
      TwoCheckersAfter(states[k], steps[k]);
    } else {
      assert states[k + 1].rows[id].status == Verifying;
    }
  }

  /**
   Status only moves from running to success or failed, from success to
   verifying, and from verifying to success or failed, and workers keep out of
   each other's records, exactly as long as no StartVerification call marks a
   record that another verification works on or has failed since the read.
   */
  lemma StatusMoves(states: seq<State>, steps: seq<Step>, j: nat)
    requires IsRun(states, steps) && j <= |steps|
    ensures (forall i :: 0 <= i <= j ==> Orderly(states[i])) && (forall k :: 0 <= k < j ==> MovesAt(states, k))
            <==> (forall k :: 0 <= k < j ==> !MarksStale(states, steps, k))
  {
    if forall k :: 0 <= k < j ==> !MarksStale(states, steps, k) {
      forall k | 0 <= k < j ensures !MarksTwice(states, steps, k) {
        assert !MarksStale(states, steps, k);
      }
      OneWorkerPerRecord(states, steps, j);
      forall k | 0 <= k < j ensures MovesAt(states, k) {
        MovesWhenFresh(states, steps, k);
      }
    } else {
      var k :| 0 <= k < j && MarksStale(states, steps, k);
      StaleMarkBreaks(states, steps, k);
    }
  }

  /** A deleted record never comes back, however late its worker finishes. */
  lemma {:induction false} DeletedStaysDeleted(states: seq<State>, steps: seq<Step>, i: nat, j: nat, id: Id)
    requires IsRun(states, steps) && i <= j <= |steps|
    requires id in states[i].used && id !in states[i].rows
    ensures id in states[j].used && id !in states[j].rows
  {
    if i < j {
      DeletedStaysDeleted(states, steps, i, j - 1, id);
      StatusChangesAt(states, steps, j - 1, id);
    }
  }

  /** A checker that was not there at `i` marked the record since. */
  lemma {:induction false} CheckerMarked(states: seq<State>, steps: seq<Step>, i: nat, k: nat, g: nat, id: Id)
      returns (m: nat)
    requires IsRun(states, steps) && i <= k <= |steps|
    requires id in states[i].used && !WorksOn(states[i], g, id) && WorksOn(states[k], g, id)
    ensures i <= m < k && Marks(states, steps, m, id) && steps[m].g == g
  {
    if i == k {
      assert false;
    } else {
      RunsKeepInv(states, steps, k - 1);
      UsedGrows(states, steps, i, k - 1);
      assert StepAt(states, steps, k - 1);
      if WorksOn(states[k - 1], g, id) {
        m := CheckerMarked(states, steps, i, k - 1, g, id);
      } else {
        m := k - 1;
      }
    }
  }

  /** A call that will mark a record which is not "success" in between had read it before. */
  lemma {:induction false} StarterWasThere(states: seq<State>, steps: seq<Step>, i: nat, k: nat, g: nat, id: Id)
    requires IsRun(states, steps) && i <= k <= |steps| && WillMark(states[k], g, id)
    requires forall m :: i <= m < k && id in states[m].rows ==> states[m].rows[id].status != Success
    ensures WillMark(states[i], g, id)
  {
    if i < k {
      RunsKeepInv(states, steps, k - 1);
      assert StepAt(states, steps, k - 1);
      StarterWasThere(states, steps, i, k - 1, g, id);
    }
  }

  /** A verification update of the record while it is present, other than one that fails it. */
  predicate Revives(states: seq<State>, steps: seq<Step>, k: nat, id: Id) {
    (Marks(states, steps, k, id) || Restores(states, steps, k, id)) && id in states[k].rows
  }

  predicate FailedThroughout(states: seq<State>, i: nat, j: nat, id: Id)
    requires j < |states|
  {
    forall m :: i <= m <= j && id in states[m].rows ==> states[m].rows[id].status == Failed
  }

  /**
   A failed record stays "failed" until it is deleted, exactly when no
   StartVerification call marks it and no verification of it that was running
   besides the one that failed passes. Only a call that had read the record
   before it failed can do either.
   */
  lemma FailedUntilDeleted(states: seq<State>, steps: seq<Step>, i: nat, j: nat, id: Id)
    requires IsRun(states, steps) && i <= j <= |steps|
    requires id in states[i].rows && states[i].rows[id].status == Failed
    ensures FailedThroughout(states, i, j, id) <==> forall k :: i <= k < j ==> !Revives(states, steps, k, id)
    ensures !HasWorker(states[i], id) && (forall g :: !WillMark(states[i], g, id)) ==>
              FailedThroughout(states, i, j, id)
  {
    if k :| i <= k < j && Revives(states, steps, k, id) {
      assert StepAt(states, steps, k);
      assert states[k + 1].rows[id].status != Failed;
    } else {
      UnrevivedStaysFailed(states, steps, i, j, id);
    }
    if !HasWorker(states[i], id) && forall g :: !WillMark(states[i], g, id) {
      UnreadStaysFailed(states, steps, i, j, id);
    }
  }

  lemma {:induction false} UnrevivedStaysFailed(states: seq<State>, steps: seq<Step>, i: nat, j: nat, id: Id)
    requires IsRun(states, steps) && i <= j <= |steps|
    requires id in states[i].rows && states[i].rows[id].status == Failed
    requires forall k :: i <= k < j ==> !Revives(states, steps, k, id)
    ensures FailedThroughout(states, i, j, id)
    decreases j
  {
    if i < j {
      UnrevivedStaysFailed(states, steps, i, j - 1, id);
      StatusChangesAt(states, steps, j - 1, id);
      if id in states[j].rows {
        PresentBetween(states, steps, i, j - 1, j, id);
        assert !Revives(states, steps, j - 1, id);
      }
    }
  }

  lemma {:induction false} UnreadStaysFailed(states: seq<State>, steps: seq<Step>, i: nat, j: nat, id: Id)
    requires IsRun(states, steps) && i <= j <= |steps|
    requires id in states[i].rows && states[i].rows[id].status == Failed && !HasWorker(states[i], id)
    requires forall g :: !WillMark(states[i], g, id)
    ensures FailedThroughout(states, i, j, id)
    ensures forall k :: i <= k < j ==> !Marks(states, steps, k, id) && !Restores(states, steps, k, id)
    decreases j
  {
    if i < j {
      UnreadStaysFailed(states, steps, i, j - 1, id);
      RunsKeepInv(states, steps, i);
      if Marks(states, steps, j - 1, id) {
        StarterWasThere(states, steps, i, j - 1, steps[j - 1].g, id);
      } else if Restores(states, steps, j - 1, id) {
        var m := CheckerMarked(states, steps, i, j - 1, steps[j - 1].g, id);
      }
      UnrevivedStaysFailed(states, steps, i, j, id);
    }
  }

  /** A StartRestore call that is about to insert has read the backup as "success". */
  lemma {:induction false} ReaderHasRead(states: seq<State>, steps: seq<Step>, j: nat, g: nat) returns (i: nat)
    requires IsRun(states, steps) && j <= |steps| && g in states[j].workers && states[j].workers[g].RestoreReader?
    ensures i < j && steps[i] == ReadForRestore(states[j].workers[g].id) && states[i].next == g
    ensures var id := states[j].workers[g].id; id in states[i].rows && states[i].rows[id].status == Success
  {
    RunsKeepInv(states, steps, j - 1);
    assert StepAt(states, steps, j - 1);
    if g in states[j - 1].workers && states[j - 1].workers[g] == states[j].workers[g] {
      i := ReaderHasRead(states, steps, j - 1, g);
    } else {
      i := j - 1;
    }
  }

  lemma {:induction false} RestoreInserted(states: seq<State>, steps: seq<Step>, j: nat, restore: Id) returns (w: nat)
    requires IsRun(states, steps) && j <= |steps| && restore in states[j].restores
    ensures w < j && steps[w].InsertRestore? && steps[w].restore == restore && steps[w].saved
    ensures steps[w].g in states[w].workers
            && states[w].workers[steps[w].g] == RestoreReader(states[j].restores[restore].backup)
  {
    assert StepAt(states, steps, j - 1);
    if restore in states[j - 1].restores {
      w := RestoreInserted(states, steps, j - 1, restore);
    } else {
      w := j - 1;
    }
  }

  /**
   Every restore comes from a call that read the backup as "success" and
   inserted the restore later. When it is inserted, a backup still present is
   never "running", and it is "success" exactly if the last verification update
   since the read did not leave it "verifying" or "failed".
   */
  lemma RestoresStartFromSuccess(states: seq<State>, steps: seq<Step>, j: nat, restore: Id) returns (i: nat, w: nat)
    requires IsRun(states, steps) && j <= |steps| && restore in states[j].restores
    ensures var id := states[j].restores[restore].backup;
            && i < w < j && steps[i] == ReadForRestore(id) && steps[w] == InsertRestore(states[i].next, restore, true)
            && id in states[i].rows && states[i].rows[id].status == Success
            && (id in states[w].rows ==>
                  && states[w].rows[id].status != Running
                  && (states[w].rows[id].status == Success <==> !Demoted(states, steps, i, w, id)))
  {
    var id := states[j].restores[restore].backup;
    w := RestoreInserted(states, steps, j, restore);
    i := ReaderHasRead(states, steps, w, steps[w].g);
    if id in states[w].rows {
      SuccessUnlessDemoted(states, steps, i, w, id);
    }
  }

  // -------------------------------------------------- retention over runs

  /** The backups of a schedule and type that became "success" in the steps from `i` up to `j`. */
  function Became(states: seq<State>, i: nat, j: nat, schedule: Id, kind: Kind): set<Id>
    requires i <= j < |states|
  {
    if i == j then {}
    else
      Became(states, i, j - 1, schedule, kind)
      + (Successes(states[j].rows, schedule, kind) - Successes(states[j - 1].rows, schedule, kind))
  }

  /** The records whose delete by sweep `g` failed in the steps from `i` up to `j`. */
  function Missed(states: seq<State>, steps: seq<Step>, i: nat, j: nat, g: nat): set<Id>
    requires i <= j <= |steps| < |states|
  {
    if i == j then {}
    else
      Missed(states, steps, i, j - 1, g)
      + (if steps[j - 1] == SweepDelete(g, false) && Pending(states[j - 1], g) != {}
         then {states[j - 1].workers[g].todo[0]} else {})
  }

  /** What sweep `g` still has to delete. */
  function Pending(s: State, g: nat): set<Id> {
    if g in s.workers && s.workers[g].Sweeper? then Members(s.workers[g].todo) else {}
  }

  /** Step `i` is a sweep listing the backups of this schedule and type under this limit. */
  predicate Lists(states: seq<State>, steps: seq<Step>, i: nat, schedule: Id, kind: Kind, keep: int) {
    && i < |steps| < |states|
    && steps[i].SweepList? && steps[i].listed && keep > 0
    && steps[i].g in states[i].workers && states[i].workers[steps[i].g].Sweeper?
    && states[i].workers[steps[i].g].plan != []
    && states[i].workers[steps[i].g].schedule == schedule
    && states[i].workers[steps[i].g].plan[0] == (kind, keep)
  }

  lemma PendingShrinks(s: State, step: Step, g: nat, id: Id)
    requires WorkersInv(s) && Enabled(s, step) && g < s.next
    requires id in Pending(s, g) && id in Apply(s, step).rows
    ensures id in Pending(Apply(s, step), g) || (step == SweepDelete(g, false) && s.workers[g].todo[0] == id)
  {
    var todo := s.workers[g].todo;
    assert todo == [todo[0]] + todo[1..];
  }

  lemma RightAfterListing(s: State, step: Step, schedule: Id, kind: Kind, keep: int)
    requires WorkersInv(s) && Enabled(s, step) && step.SweepList? && step.listed && keep > 0
    requires s.workers[step.g].schedule == schedule && s.workers[step.g].plan[0] == (kind, keep)
    ensures var t := Apply(s, step);
            && step.g < t.next && t.rows == s.rows
            && Successes(t.rows, schedule, kind) == Members(Newest(step.q, keep)) + Pending(t, step.g)
  {
    assert WorkerOk(s, step.g);
    ListingFillsPending(s, step);
    Split(step.q, keep);
  }

  lemma ListingFillsPending(s: State, step: Step)
    requires Enabled(s, step) && step.SweepList? && step.listed && s.workers[step.g].plan[0].1 > 0
    ensures Pending(Apply(s, step), step.g) == Members(Oldest(step.q, s.workers[step.g].plan[0].1))
    ensures Apply(s, step).rows == s.rows && Apply(s, step).next == s.next
  {
  }

  lemma PendingOrMissed(states: seq<State>, steps: seq<Step>, i: nat, j: nat, g: nat, id: Id)
    requires IsRun(states, steps) && i < j <= |steps| && g < states[j - 1].next
    requires id in Pending(states[j - 1], g) && id in states[j].rows
    ensures id in Pending(states[j], g) || id in Missed(states, steps, i, j, g)
  {
    RunsKeepInv(states, steps, j - 1);
    assert StepAt(states, steps, j - 1);
    PendingShrinks(states[j - 1], steps[j - 1], g, id);
  }

  /**
   After a listing, every successful backup of that schedule and type is one of
   the kept newest, became "success" since, is still to be deleted, or is one
   whose delete failed. Any other steps may come in between.
   */
  lemma {:induction false} SuccessesAfterListing(states: seq<State>, steps: seq<Step>, i: nat, j: nat,
        schedule: Id, kind: Kind, keep: int)
    requires IsRun(states, steps) && i < j <= |steps| && Lists(states, steps, i, schedule, kind, keep)
    ensures var g := steps[i].g;
            && g < states[j].next
            && Successes(states[j].rows, schedule, kind)
               <= Members(Newest(steps[i].q, keep)) + Became(states, i + 1, j, schedule, kind)
                  + Pending(states[j], g) + Missed(states, steps, i + 1, j, g)
    decreases j
  {
    var g := steps[i].g;
    if j == i + 1 {
      ListedAt(states, steps, i, schedule, kind, keep);
    } else {
      SuccessesAfterListing(states, steps, i, j - 1, schedule, kind, keep);
      NextGrows(states, steps, j - 1);
      forall id | id in Successes(states[j].rows, schedule, kind) && id in Pending(states[j - 1], g)
        ensures id in Pending(states[j], g) + Missed(states, steps, i + 1, j, g)
      {
        PendingOrMissed(states, steps, i + 1, j, g, id);
      }
    }
  }

  lemma ListedAt(states: seq<State>, steps: seq<Step>, i: nat, schedule: Id, kind: Kind, keep: int)
    requires IsRun(states, steps) && Lists(states, steps, i, schedule, kind, keep)
    ensures var g := steps[i].g;
            && g < states[i + 1].next
            && Distinct(steps[i].q)
            && Successes(states[i + 1].rows, schedule, kind)
               == Members(Newest(steps[i].q, keep)) + Pending(states[i + 1], g)
  {
    RunsKeepInv(states, steps, i);
    assert StepAt(states, steps, i);
    RightAfterListing(states[i], steps[i], schedule, kind, keep);
  }

  lemma NextGrows(states: seq<State>, steps: seq<Step>, k: nat)
    requires IsRun(states, steps) && k < |steps|
    ensures states[k].next <= states[k + 1].next
  {
    assert StepAt(states, steps, k);
  }

  /** Step `k` writes "success" to the record: a backup completed or a verification passed. */
  predicate Promotes(states: seq<State>, steps: seq<Step>, k: nat, id: Id) {
    || Restores(states, steps, k, id)
    || (&& k < |steps| < |states| && steps[k].FinishBackup? && steps[k].saved && steps[k].ok
        && WorksOn(states[k], steps[k].g, id))
  }

  lemma SuccessStep(states: seq<State>, steps: seq<Step>, k: nat, id: Id)
    requires IsRun(states, steps) && k < |steps| && id in states[k + 1].rows
    ensures states[k + 1].rows[id].status == Success <==>
            || (id in states[k].rows && Promotes(states, steps, k, id))
            || (id in states[k].rows && states[k].rows[id].status == Success && !Demotes(states, steps, k, id))
  {
    StatusChangesAt(states, steps, k, id);
    assert StepAt(states, steps, k);
    RunsKeepInv(states, steps, k);
  }

  lemma {:induction false} WorkedIsUsed(states: seq<State>, steps: seq<Step>, k: nat, j: nat, g: nat, id: Id)
    requires IsRun(states, steps) && k <= j <= |steps| && WorksOn(states[k], g, id)
    ensures id in states[j].used
  {
    RunsKeepInv(states, steps, k);
    assert WorkerOk(states[k], g);
    UsedGrows(states, steps, k, j);
  }

  /** The record was completed or passed a verification at `k`, and nothing demoted it before `j`. */
  predicate SuccessSince(states: seq<State>, steps: seq<Step>, k: nat, j: nat, id: Id) {
    Promotes(states, steps, k, id) && forall m :: k < m < j ==> !Demotes(states, steps, m, id)
  }

  /**
   A record in the table is "success" exactly when a backup of it completed or
   a verification of it passed, and no later one marked or failed it.
   */
  lemma {:induction false} SuccessIff(states: seq<State>, steps: seq<Step>, j: nat, id: Id)
    requires IsRun(states, steps) && j <= |steps| && id in states[j].rows
    ensures states[j].rows[id].status == Success <==> exists k: nat :: k < j && SuccessSince(states, steps, k, j, id)
  {
    SuccessStep(states, steps, j - 1, id);
    StatusChangesAt(states, steps, j - 1, id);
    if id in states[j - 1].rows {
      SuccessIff(states, steps, j - 1, id);
      if Promotes(states, steps, j - 1, id) {
        assert SuccessSince(states, steps, j - 1, j, id);
      } else if states[j].rows[id].status == Success {
        var k: nat :| k < j - 1 && SuccessSince(states, steps, k, j - 1, id);
        assert SuccessSince(states, steps, k, j, id);
      } else if k: nat :| k < j && SuccessSince(states, steps, k, j, id) {
        assert SuccessSince(states, steps, k, j - 1, id);
      }
    } else if k: nat :| k < j && SuccessSince(states, steps, k, j, id) {
      WorkedIsUsed(states, steps, k, j - 1, steps[k].g, id);
    }
  }

  /** What became "success" in a stretch of the run was completed or passed in it. */
  lemma {:induction false} BecameByFinishing(states: seq<State>, steps: seq<Step>, i: nat, j: nat, schedule: Id,
        kind: Kind, id: Id)
    requires IsRun(states, steps) && i <= j <= |steps| && id in Became(states, i, j, schedule, kind)
    ensures exists k: nat :: i <= k < j && Promotes(states, steps, k, id)
    decreases j
  {
    if id in Became(states, i, j - 1, schedule, kind) {
      BecameByFinishing(states, steps, i, j - 1, schedule, kind, id);
    } else {
      SuccessStep(states, steps, j - 1, id);
      StatusChangesAt(states, steps, j - 1, id);
      RunsKeepInv(states, steps, j - 1);
      assert StepAt(states, steps, j - 1);
      if id in states[j - 1].rows {
        GroupStays(states[j - 1], steps[j - 1], id);
      }
      assert Promotes(states, steps, j - 1, id);
    }
  }

  lemma UnionBound(s: set<Id>, a: set<Id>, b: set<Id>, c: set<Id>, d: set<Id>)
    requires s <= a + b + c + d
    ensures |s| <= |a| + |b| + |c| + |d|
  {
    Subset(s, a + b + c + d);
    Subset(a + b + c + d, a + b + c + d);
    assert |a + b| <= |a| + |b|;
    assert |a + b + c| <= |a + b| + |c|;
    assert |a + b + c + d| <= |a + b + c| + |d|;
  }

  lemma {:induction false} Subset(a: set<Id>, b: set<Id>)
    requires a <= b
    ensures |a| <= |b|
  {
    assert b == a + (b - a);
  }

  /**
   The retention bound: the successful backups of a schedule and type never
   exceed the limit, plus those that became "success" since the listing, plus
   the deletes still pending or failed.
   */
  lemma RetentionBound(states: seq<State>, steps: seq<Step>, i: nat, j: nat, schedule: Id, kind: Kind, keep: int)
    requires IsRun(states, steps) && i < j <= |steps| && Lists(states, steps, i, schedule, kind, keep)
    ensures var g := steps[i].g;
            |Successes(states[j].rows, schedule, kind)|
            <= keep + |Became(states, i + 1, j, schedule, kind)|
               + |Pending(states[j], g)| + |Missed(states, steps, i + 1, j, g)|
  {
    var g, q := steps[i].g, steps[i].q;
    ListedAt(states, steps, i, schedule, kind, keep);
    SuccessesAfterListing(states, steps, i, j, schedule, kind, keep);
    Split(q, keep);
    UnionBound(Successes(states[j].rows, schedule, kind), Members(Newest(q, keep)),
               Became(states, i + 1, j, schedule, kind), Pending(states[j], g), Missed(states, steps, i + 1, j, g));
  }

  /**
   So once that sweep has deleted what it listed, the backups that exceed the
   limit are at most those that became "success" after the listing.
   */
  lemma RetentionAfterSweep(states: seq<State>, steps: seq<Step>, i: nat, j: nat, schedule: Id, kind: Kind, keep: int)
    requires IsRun(states, steps) && i < j <= |steps| && Lists(states, steps, i, schedule, kind, keep)
    requires Pending(states[j], steps[i].g) == {} && Missed(states, steps, i + 1, j, steps[i].g) == {}
    ensures |Successes(states[j].rows, schedule, kind)| <= keep + |Became(states, i + 1, j, schedule, kind)|
  {
    RetentionBound(states, steps, i, j, schedule, kind, keep);
  }

  // ------------------------------------------------- one sweep by itself

  /** The deletes of sweep `g` with nothing in between; those of `broken` fail. */
  function DeletesAlone(s: State, g: nat, broken: set<Id>): State
    requires g in s.workers && s.workers[g].Sweeper?
    decreases |s.workers[g].todo|
  {
    var todo := s.workers[g].todo;
    if todo == [] then s else DeletesAlone(Apply(s, SweepDelete(g, todo[0] !in broken)), g, broken)
  }

  lemma {:induction false} DeletesAloneLeave(s: State, g: nat, broken: set<Id>)
    requires g in s.workers && s.workers[g].Sweeper?
    ensures DeletesAlone(s, g, broken)
         == s.(rows := s.rows - (Members(s.workers[g].todo) - broken),
               workers := s.workers[g := s.workers[g].(todo := [])])
    decreases |s.workers[g].todo|
  {
    var todo := s.workers[g].todo;
    if todo == [] {
      assert s.workers[g := s.workers[g].(todo := [])] == s.workers;
      assert s.rows - (Members([]) - broken) == s.rows;
    } else {
      var t := Apply(s, SweepDelete(g, todo[0] !in broken));
      DeletesAloneLeave(t, g, broken);
      OneDelete(s.rows, todo, broken);
      assert t.workers[g := t.workers[g].(todo := [])] == s.workers[g := s.workers[g].(todo := [])];
    }
  }

  lemma OneDelete(rows: Table, todo: seq<Id>, broken: set<Id>)
    requires todo != []
    ensures var left := if todo[0] in broken then rows else rows - {todo[0]};
            left - (Members(todo[1..]) - broken) == rows - (Members(todo) - broken)
  {
    assert todo == [todo[0]] + todo[1..];
    assert Members(todo) == {todo[0]} + Members(todo[1..]);
  }

  /** One pass of sweep `g` with nothing in between. */
  function PassAlone(s: State, g: nat, p: Pass): State
    requires Enabled(s, SweepList(g, p.listed, p.q))
  {
    DeletesAlone(Apply(s, SweepList(g, p.listed, p.q)), g, p.failed)
  }

  lemma PassAloneLeaves(s: State, g: nat, p: Pass)
    requires Enabled(s, SweepList(g, p.listed, p.q))
    ensures var w := s.workers[g];
            PassAlone(s, g, p)
            == s.(rows := Swept(s.rows, w.plan[0].1, p),
                  workers := s.workers[g := Sweeper(w.schedule, w.plan[0].0, [], w.plan[1..])])
  {
    var w, t := s.workers[g], Apply(s, SweepList(g, p.listed, p.q));
    DeletesAloneLeave(t, g, p.failed);
    assert t.workers[g := t.workers[g].(todo := [])]
        == s.workers[g := Sweeper(w.schedule, w.plan[0].0, [], w.plan[1..])];
    if w.plan[0].1 <= 0 || !p.listed {
      assert s.rows - (Members([]) - p.failed) == s.rows;
    }
  }

  /** A retention sweep from start to end with nothing in between. */
  ghost predicate SweptAlone(s: State, t: State, schedule: Id, keepFull: int, keepIncr: int, full: Pass, incr: Pass) {
    var g, s1 := s.next, Apply(s, StartSweep(schedule, keepFull, keepIncr));
    && Enabled(s1, SweepList(g, full.listed, full.q))
    && var s2 := PassAlone(s1, g, full);
       && Enabled(s2, SweepList(g, incr.listed, incr.q))
       && var s3 := PassAlone(s2, g, incr);
          && Enabled(s3, EndSweep(g)) && t == Apply(s3, EndSweep(g))
  }

  /** The two passes of sweep `g`. */
  lemma PassesAlone(s: State, g: nat, schedule: Id, keepFull: int, keepIncr: int, full: Pass, incr: Pass)
    requires g in s.workers
    requires s.workers[g] == Sweeper(schedule, FullBackup, [], [(FullBackup, keepFull), (IncrementalBackup, keepIncr)])
    requires full.listed ==> IsQueryResult(s.rows, schedule, FullBackup, full.q)
    requires incr.listed ==> IsQueryResult(Swept(s.rows, keepFull, full), schedule, IncrementalBackup, incr.q)
    ensures Enabled(s, SweepList(g, full.listed, full.q))
    ensures var mid := PassAlone(s, g, full);
            && Enabled(mid, SweepList(g, incr.listed, incr.q))
            && PassAlone(mid, g, incr)
               == s.(rows := Swept(Swept(s.rows, keepFull, full), keepIncr, incr),
                     workers := s.workers[g := Sweeper(schedule, IncrementalBackup, [], [])])
  {
    var mid := PassAlone(s, g, full);
    PassAloneLeaves(s, g, full);
    assert mid.workers[g].plan == [(IncrementalBackup, keepIncr)] && mid.workers[g].plan[1..] == [];
    PassAloneLeaves(mid, g, incr);
    assert mid.workers[g := Sweeper(schedule, IncrementalBackup, [], [])]
        == s.workers[g := Sweeper(schedule, IncrementalBackup, [], [])];
  }

  /**
   A sweep that nothing interrupts does what one enforcement does: a full pass
   under the one limit, an incremental pass under the other, and no more.
   */
  lemma SweepAloneIsEnforcement(s: State, schedule: Id, keepFull: int, keepIncr: int, full: Pass, incr: Pass)
    requires s.next !in s.workers
    requires full.listed ==> IsQueryResult(s.rows, schedule, FullBackup, full.q)
    requires incr.listed ==> IsQueryResult(Swept(s.rows, keepFull, full), schedule, IncrementalBackup, incr.q)
    ensures var after := s.(rows := Swept(Swept(s.rows, keepFull, full), keepIncr, incr), next := s.next + 1);
            SweptAlone(s, after, schedule, keepFull, keepIncr, full, incr)
  {
    var g, s1 := s.next, Apply(s, StartSweep(schedule, keepFull, keepIncr));
    PassesAlone(s1, g, schedule, keepFull, keepIncr, full, incr);
    var s3 := PassAlone(PassAlone(s1, g, full), g, incr);
    assert s3.workers - {g} == s.workers;
    assert Apply(s3, EndSweep(g)) == s3.(workers := s.workers);
  }

  // --------------------------------------------- what a sweep may delete

  lemma {:induction false} UsedGrows(states: seq<State>, steps: seq<Step>, i: nat, j: nat)
    requires IsRun(states, steps) && i <= j <= |steps|
    ensures states[i].used <= states[j].used
  {
    if i < j {
      UsedGrows(states, steps, i, j - 1);
      assert StepAt(states, steps, j - 1);
    }
  }

  /** A record present at two moments is present at every moment between. */
  lemma PresentBetween(states: seq<State>, steps: seq<Step>, i: nat, k: nat, j: nat, id: Id)
    requires IsRun(states, steps) && i <= k <= j <= |steps|
    requires id in states[i].rows && id in states[j].rows
    ensures id in states[k].rows
  {
    RunsKeepInv(states, steps, i);
    UsedGrows(states, steps, i, k);
    if id !in states[k].rows {
      DeletedStaysDeleted(states, steps, k, j, id);
    }
  }

  /** Step `k` writes "verifying" or "failed" to the record. */
  predicate Demotes(states: seq<State>, steps: seq<Step>, k: nat, id: Id) {
    || Marks(states, steps, k, id)
    || (&& k < |steps| < |states| && steps[k].FinishVerification? && steps[k].saved && !steps[k].passed
        && WorksOn(states[k], steps[k].g, id))
  }

  /** Step `k` writes "success" to the record after a passed verification. */
  predicate Restores(states: seq<State>, steps: seq<Step>, k: nat, id: Id) {
    && k < |steps| < |states| && steps[k].FinishVerification? && steps[k].saved && steps[k].passed
    && WorksOn(states[k], steps[k].g, id)
  }

  /** The last verification update of the record in the steps from `i` up to `j` left it other than "success". */
  ghost predicate Demoted(states: seq<State>, steps: seq<Step>, i: nat, j: nat, id: Id) {
    exists k :: i <= k < j && Demotes(states, steps, k, id) && forall m :: k < m < j ==> !Restores(states, steps, m, id)
  }

  /** A record that was "success" and is still there is "success" unless the last update since demoted it. */
  lemma {:induction false} SuccessUnlessDemoted(states: seq<State>, steps: seq<Step>, i: nat, j: nat, id: Id)
    requires IsRun(states, steps) && i <= j <= |steps|
    requires id in states[i].rows && states[i].rows[id].status == Success
    requires id in states[j].rows
    ensures states[j].rows[id].status != Running
    ensures states[j].rows[id].status != Success <==> Demoted(states, steps, i, j, id)
    decreases j
  {
    if i < j {
      var n := j - 1;
      PresentBetween(states, steps, i, n, j, id);
      SuccessUnlessDemoted(states, steps, i, n, id);
      StatusChangesAt(states, steps, n, id);
      assert StepAt(states, steps, n);
      RunsKeepInv(states, steps, n);
      if Demotes(states, steps, n, id) {
        assert Demoted(states, steps, i, j, id);
      } else if Restores(states, steps, n, id) {
        assert states[j].rows[id].status == Success;
      } else {
        DemotedExtends(states, steps, i, j, id);
      }
    }
  }

  lemma DemotedExtends(states: seq<State>, steps: seq<Step>, i: nat, j: nat, id: Id)
    requires i < j && !Demotes(states, steps, j - 1, id) && !Restores(states, steps, j - 1, id)
    ensures Demoted(states, steps, i, j, id) <==> Demoted(states, steps, i, j - 1, id)
  {
    if Demoted(states, steps, i, j - 1, id) {
      var k :| i <= k < j - 1 && Demotes(states, steps, k, id)
               && forall m :: k < m < j - 1 ==> !Restores(states, steps, m, id);
      assert forall m :: k < m < j ==> !Restores(states, steps, m, id);
    }
  }

  /** What a sweep holds was "success" when it was listed. */
  lemma {:induction false} ListedAsSuccess(states: seq<State>, steps: seq<Step>, j: nat, g: nat,
        id: Id) returns (i: nat)
    requires IsRun(states, steps) && j <= |steps| && Sweeps(states[j], g, id)
    ensures i < j && steps[i].SweepList? && steps[i].g == g
    ensures id in states[i].rows && states[i].rows[id].status == Success
  {
    var s, step := states[j - 1], steps[j - 1];
    RunsKeepInv(states, steps, j - 1);
    assert StepAt(states, steps, j - 1);
    if Sweeps(s, g, id) {
      i := ListedAsSuccess(states, steps, j - 1, g, id);
    } else {
      assert id in Members(step.q);
      i := j - 1;
    }
  }

  /**
   A sweep only deletes records that were "success" when it listed them. Such
   a record is never "running" when it goes; and it goes while it is
   "verifying" or "failed" exactly when the last update of a verification
   since the listing was a mark or a failure. If nobody was verifying it at the
   listing, that takes a StartVerification call which marked it since.
   */
  lemma SweepDeletes(states: seq<State>, steps: seq<Step>, j: nat, g: nat, id: Id) returns (i: nat)
    requires IsRun(states, steps) && j < |steps| && steps[j] == SweepDelete(g, true)
    requires Sweeps(states[j], g, id) && states[j].workers[g].todo[0] == id
    requires id in states[j].rows
    ensures && i < j && steps[i].SweepList? && steps[i].g == g
            && id in states[i].rows && states[i].rows[id].status == Success
            && states[j].rows[id].status != Running
            && (states[j].rows[id].status != Success <==> Demoted(states, steps, i, j, id))
            && (states[j].rows[id].status != Success && !HasWorker(states[i], id) ==>
                  exists k :: i <= k < j && Marks(states, steps, k, id))
            && id !in states[j + 1].rows
  {
    assert StepAt(states, steps, j);
    i := ListedAsSuccess(states, steps, j, g, id);
    SuccessUnlessDemoted(states, steps, i, j, id);
    if Demoted(states, steps, i, j, id) && !HasWorker(states[i], id) {
      var k :| i <= k < j && Demotes(states, steps, k, id);
      RunsKeepInv(states, steps, i);
      if !Marks(states, steps, k, id) {
        var m := CheckerMarked(states, steps, i, k, steps[k].g, id);
      }
    }
  }

  // ------------------------------------------------- the recorded checksum

  predicate ChecksumThroughout(states: seq<State>, i: nat, j: nat, id: Id, checksum: string)
    requires j < |states|
  {
    forall m :: i <= m <= j && id in states[m].rows ==> states[m].rows[id].checksum == checksum
  }

  /** Step `k` marks a present record for verification and writes back another checksum. */
  predicate MarksOther(states: seq<State>, steps: seq<Step>, k: nat, id: Id, checksum: string) {
    && Marks(states, steps, k, id) && id in states[k].rows
    && states[k].workers[steps[k].g].copy.checksum != checksum
  }

  /** Step `k` ends a verification that was running at `i` already, and writes another checksum. */
  predicate OldCheckWritesOther(states: seq<State>, steps: seq<Step>, i: nat, k: nat, id: Id, checksum: string)
    requires i < |states|
  {
    && k < |steps| < |states| && steps[k].FinishVerification? && steps[k].saved
    && WorksOn(states[k], steps[k].g, id) && id in states[k].rows && WorksOn(states[i], steps[k].g, id)
    && VerifyEnded(states[k].workers[steps[k].g].copy, steps[k].passed, steps[k].checksum).checksum != checksum
  }

  predicate WritesOther(states: seq<State>, steps: seq<Step>, i: nat, k: nat, id: Id, checksum: string)
    requires i < |states|
  {
    MarksOther(states, steps, k, id, checksum) || OldCheckWritesOther(states, steps, i, k, id, checksum)
  }

  /** A checker works on the copy it started with. */
  lemma {:induction false} CopyStays(states: seq<State>, steps: seq<Step>, m: nat, k: nat, g: nat)
    requires IsRun(states, steps) && m <= k <= |steps|
    requires g in states[m].workers && (states[m].workers[g].Checker? || states[m].workers[g].Starter?)
    requires g in states[k].workers && (states[k].workers[g].Checker? || states[k].workers[g].Starter?)
    ensures states[k].workers[g].id == states[m].workers[g].id
    ensures states[k].workers[g].copy.checksum == states[m].workers[g].copy.checksum
  {
    if m < k {
      NumbersGrow(states, steps, m, k - 1, g);
      assert StepAt(states, steps, k - 1);
      CopyStays(states, steps, m, k - 1, g);
    }
  }

  lemma {:induction false} NumbersGrow(states: seq<State>, steps: seq<Step>, m: nat, k: nat, g: nat)
    requires IsRun(states, steps) && m <= k <= |steps| && g in states[m].workers
    ensures g < states[k].next
  {
    if m < k {
      NumbersGrow(states, steps, m, k - 1, g);
      NextGrows(states, steps, k - 1);
    } else {
      RunsKeepInv(states, steps, m);
      assert WorkerOk(states[m], g);
    }
  }

  /** The checksum of a finished backup changes only by a verification update. */
  lemma ChecksumChanges(states: seq<State>, steps: seq<Step>, k: nat, id: Id)
    requires IsRun(states, steps) && k < |steps| && id in states[k].rows && id in states[k + 1].rows
    requires states[k].rows[id].status != Running
    requires states[k + 1].rows[id].checksum != states[k].rows[id].checksum
    ensures || (Marks(states, steps, k, id)
                && states[k + 1].rows[id].checksum == states[k].workers[steps[k].g].copy.checksum)
            || (&& steps[k].FinishVerification? && steps[k].saved && WorksOn(states[k], steps[k].g, id)
                && states[k].workers[steps[k].g].Checker?
                && states[k + 1].rows[id].checksum
                   == VerifyEnded(states[k].workers[steps[k].g].copy, steps[k].passed, steps[k].checksum).checksum)
  {
    RunsKeepInv(states, steps, k);
    assert StepAt(states, steps, k);
    DumpersAreRunning(states[k]);
  }

  lemma DumpersAreRunning(s: State)
    requires WorkersInv(s)
    ensures forall g, id :: WorksOn(s, g, id) && s.workers[g].Dumper? && id in s.rows ==> s.rows[id].status == Running
  {
    forall g, id | WorksOn(s, g, id) && s.workers[g].Dumper? && id in s.rows ensures s.rows[id].status == Running {
      assert WorkerOk(s, g);
    }
  }

  /** A checker that was not there at `i` works on the checksum some mark since wrote. */
  lemma NewCheckCarries(states: seq<State>, steps: seq<Step>, i: nat, k: nat, g: nat, id: Id, checksum: string)
    requires IsRun(states, steps) && i <= k <= |steps| && id in states[i].rows && id in states[k].rows
    requires WorksOn(states[k], g, id) && states[k].workers[g].Checker? && !WorksOn(states[i], g, id)
    requires forall m :: i <= m < k ==> !MarksOther(states, steps, m, id, checksum)
    ensures states[k].workers[g].copy.checksum == checksum
  {
    RunsKeepInv(states, steps, i);
    var m := CheckerMarked(states, steps, i, k, g, id);
    PresentBetween(states, steps, i, m, k, id);
    assert !MarksOther(states, steps, m, id, checksum);
    CopyStays(states, steps, m, k, g);
  }

  /**
   A finished backup with a checksum keeps it until it is deleted, exactly when
   every StartVerification call that marks it carries that checksum, and so
   does every verification that was already running. So the checksum that the
   first pass records is the one later verifications compare against, unless a
   call that had read the record before writes its empty one back.
   */
  lemma ChecksumStaysIff(states: seq<State>, steps: seq<Step>, i: nat, j: nat, id: Id, checksum: string)
    requires IsRun(states, steps) && i <= j <= |steps| && checksum != ""
    requires id in states[i].rows && states[i].rows[id].status != Running && states[i].rows[id].checksum == checksum
    ensures ChecksumThroughout(states, i, j, id, checksum) <==>
            forall k :: i <= k < j ==> !WritesOther(states, steps, i, k, id, checksum)
  {
    if k :| i <= k < j && WritesOther(states, steps, i, k, id, checksum) {
      assert StepAt(states, steps, k);
      assert states[k + 1].rows[id].checksum != checksum;
    } else {
      ChecksumStays(states, steps, i, j, id, checksum);
    }
  }

  lemma {:induction false} ChecksumStays(states: seq<State>, steps: seq<Step>, i: nat, j: nat, id: Id,
        checksum: string)
    requires IsRun(states, steps) && i <= j <= |steps| && checksum != ""
    requires id in states[i].rows && states[i].rows[id].status != Running && states[i].rows[id].checksum == checksum
    requires forall k :: i <= k < j ==> !WritesOther(states, steps, i, k, id, checksum)
    ensures ChecksumThroughout(states, i, j, id, checksum)
    ensures id in states[j].rows ==> states[j].rows[id].status != Running
    decreases j
  {
    if i < j {
      var k := j - 1;
      ChecksumStays(states, steps, i, k, id, checksum);
      if id in states[j].rows {
        PresentBetween(states, steps, i, k, j, id);
        StatusChangesAt(states, steps, k, id);
        assert !WritesOther(states, steps, i, k, id, checksum);
        if states[j].rows[id].checksum != states[k].rows[id].checksum {
          ChecksumChanges(states, steps, k, id);
          assert StepAt(states, steps, k);
          assert forall m :: i <= m < k && MarksOther(states, steps, m, id, checksum) ==>
                   WritesOther(states, steps, i, m, id, checksum);
          NewCheckCarries(states, steps, i, k, steps[k].g, id, checksum);
        }
      }
    }
  }

  /** What a StartVerification call carries, it read after `i` or was carrying at `i`. */
  lemma {:induction false} StarterCarries(states: seq<State>, steps: seq<Step>, i: nat, k: nat, g: nat, id: Id,
        checksum: string)
    requires IsRun(states, steps) && i <= k <= |steps| && WillMark(states[k], g, id)
    requires WillMark(states[i], g, id) ==> states[i].workers[g].copy.checksum == checksum
    requires ChecksumThroughout(states, i, k, id, checksum)
    ensures states[k].workers[g].copy.checksum == checksum
    decreases k
  {
    if i < k {
      RunsKeepInv(states, steps, k - 1);
      assert StepAt(states, steps, k - 1);
      if WillMark(states[k - 1], g, id) {
        StarterCarries(states, steps, i, k - 1, g, id, checksum);
      }
    }
  }

  /** Every verification of the record that has begun carries this checksum. */
  ghost predicate AllCarry(s: State, id: Id, checksum: string) {
    forall g :: (WorksOn(s, g, id) && s.workers[g].Checker?) || WillMark(s, g, id) ==>
      s.workers[g].copy.checksum == checksum
  }

  /** Only a call that had read the record before its checksum was recorded can change that checksum. */
  lemma {:induction false} ChecksumSafeAfterReads(states: seq<State>, steps: seq<Step>, i: nat, j: nat, id: Id,
        checksum: string)
    requires IsRun(states, steps) && i <= j <= |steps| && checksum != ""
    requires id in states[i].rows && states[i].rows[id].status != Running && states[i].rows[id].checksum == checksum
    requires AllCarry(states[i], id, checksum)
    ensures ChecksumThroughout(states, i, j, id, checksum)
    ensures forall k :: i <= k < j ==> !WritesOther(states, steps, i, k, id, checksum)
    decreases j
  {
    if i < j {
      var k := j - 1;
      ChecksumSafeAfterReads(states, steps, i, k, id, checksum);
      RunsKeepInv(states, steps, i);
      RunsKeepInv(states, steps, k);
      assert StepAt(states, steps, k);
      if MarksOther(states, steps, k, id, checksum) {
        StarterCarries(states, steps, i, k, steps[k].g, id, checksum);
      } else if OldCheckWritesOther(states, steps, i, k, id, checksum) {
        DumpersAreRunning(states[i]);
        CopyStays(states, steps, i, k, steps[k].g);
      }
      ChecksumStays(states, steps, i, j, id, checksum);
    }
  }

  // ---------------------------------------------------- runs that go wrong

  /** A run and one more step. */
  lemma Then(states: seq<State>, steps: seq<Step>, step: Step) returns (states': seq<State>, steps': seq<Step>)
    requires IsRun(states, steps) && Enabled(states[|steps|], step)
    ensures IsRun(states', steps') && steps' == steps + [step]
    ensures states' == states + [Apply(states[|steps|], step)]
    ensures states'[|steps'|] == Apply(states[|steps|], step)
  {
    states', steps' := states + [Apply(states[|steps|], step)], steps + [step];
    forall i | 0 <= i < |steps'| ensures StepAt(states', steps', i) {
      if i < |steps| {
        assert StepAt(states, steps, i);
        assert states'[i] == states[i] && states'[i + 1] == states[i + 1] && steps'[i] == steps[i];
      }
    }
  }

  /** Two StartVerification calls read the same record. */
  lemma BothRead(states: seq<State>, steps: seq<Step>, id: Id) returns (r: seq<State>, q: seq<Step>)
    requires IsRun(states, steps) && id in states[|steps|].rows && states[|steps|].rows[id].status == Success
    ensures IsRun(r, q) && states <= r && steps <= q
    ensures var s, t := states[|steps|], r[|q|];
            && t.rows == s.rows
            && t.workers == s.workers[s.next := Starter(id, s.rows[id])][s.next + 1 := Starter(id, s.rows[id])]
  {
    r, q := Then(states, steps, ReadForVerification(id));
    r, q := Then(r, q, ReadForVerification(id));
  }

  /** Every run with a "success" record can go on to one with two workers on it. */
  lemma TwoCheckersPossible(states: seq<State>, steps: seq<Step>, id: Id) returns (r: seq<State>, q: seq<Step>)
    requires IsRun(states, steps) && id in states[|steps|].rows && states[|steps|].rows[id].status == Success
    ensures IsRun(r, q) && states <= r && steps <= q && !Orderly(r[|q|])
  {
    var g := states[|steps|].next;
    r, q := BothRead(states, steps, id);
    r, q := Then(r, q, MarkVerifying(g, true));
    r, q := Then(r, q, MarkVerifying(g + 1, true));
    assert SameRecord(r[|q|], g, g + 1);
  }

  /** And to one where the record has failed and is "verifying" again. */
  lemma FailedCanBeRevived(states: seq<State>, steps: seq<Step>, id: Id) returns (r: seq<State>, q: seq<Step>)
    requires IsRun(states, steps) && id in states[|steps|].rows && states[|steps|].rows[id].status == Success
    ensures IsRun(r, q) && states <= r && steps <= q && |q| > |steps|
    ensures var before, after := r[|q| - 1], r[|q|];
            && id in before.rows && before.rows[id].status == Failed
            && id in after.rows && after.rows[id].status == Verifying
  {
    var g := states[|steps|].next;
    r, q := BothRead(states, steps, id);
    r, q := Then(r, q, MarkVerifying(g, true));
    r, q := Then(r, q, FinishVerification(g, false, "", true));
    r, q := Then(r, q, MarkVerifying(g + 1, true));
  }

  /** Or to one where the verification that overlaps turns it from "failed" straight to "success". */
  lemma FailedCanPass(states: seq<State>, steps: seq<Step>, id: Id, checksum: string)
      returns (r: seq<State>, q: seq<Step>)
    requires IsRun(states, steps) && id in states[|steps|].rows && states[|steps|].rows[id].status == Success
    requires states[|steps|].rows[id].checksum in {"", checksum}
    ensures IsRun(r, q) && states <= r && steps <= q && |q| > |steps|
    ensures var before, after := r[|q| - 1], r[|q|];
            && id in before.rows && before.rows[id].status == Failed
            && id in after.rows && after.rows[id].status == Success
  {
    var g := states[|steps|].next;
    r, q := BothRead(states, steps, id);
    r, q := Then(r, q, MarkVerifying(g, true));
    r, q := Then(r, q, MarkVerifying(g + 1, true));
    r, q := Then(r, q, FinishVerification(g, false, "", true));
    r, q := Then(r, q, FinishVerification(g + 1, true, checksum, true));
  }

  /** A record is "success", has no checksum, and nobody works on it. */
  ghost predicate Unverified(s: State, id: Id) {
    id in s.rows && s.rows[id].status == Success && s.rows[id].checksum == "" && !HasWorker(s, id)
  }

  predicate RowIs(s: State, id: Id, status: Status, checksum: string) {
    id in s.rows && s.rows[id].status == status && s.rows[id].checksum == checksum
  }

  /** In this run a first pass recorded checksum `x`, it was erased, and a second pass recorded `y`. */
  ghost predicate ErasesChecksum(states: seq<State>, steps: seq<Step>, id: Id, x: string, y: string) {
    && IsRun(states, steps) && |steps| >= 2
    && RowIs(states[|steps| - 2], id, Success, x)
    && RowIs(states[|steps| - 1], id, Verifying, "")
    && RowIs(states[|steps|], id, Success, y)
  }

  /** From step `i` on no call marks a record that is under verification or failed. */
  ghost predicate FreshFrom(states: seq<State>, steps: seq<Step>, i: nat) {
    forall k :: i <= k < |steps| ==> !MarksStale(states, steps, k)
  }

  /** One more step that is no such mark. */
  lemma ThenFresh(states: seq<State>, steps: seq<Step>, step: Step, i: nat)
      returns (states': seq<State>, steps': seq<Step>)
    requires IsRun(states, steps) && Enabled(states[|steps|], step) && FreshFrom(states, steps, i)
    requires step.MarkVerifying? && step.saved ==>
               var s := states[|steps|];
               var id := s.workers[step.g].id;
               !HasWorker(s, id) && (id in s.rows ==> s.rows[id].status != Failed)
    ensures IsRun(states', steps') && steps' == steps + [step] && FreshFrom(states', steps', i)
    ensures states' == states + [Apply(states[|steps|], step)]
    ensures states'[|steps'|] == Apply(states[|steps|], step)
  {
    states', steps' := Then(states, steps, step);
    forall k | i <= k < |steps'| ensures !MarksStale(states', steps', k) {
      assert states'[k] == (if k < |steps| then states[k] else states[|steps|]);
      assert steps'[k] == (if k < |steps| then steps[k] else step);
      if k < |steps| {
        assert !MarksStale(states, steps, k);
        assert forall id :: Marks(states, steps, k, id) <==> Marks(states', steps', k, id);
      }
    }
  }

  /** Two calls have read an unverified record; the first verification passes before the second call marks it. */
  lemma FirstPasses(states: seq<State>, steps: seq<Step>, id: Id, x: string, i: nat)
      returns (r: seq<State>, q: seq<Step>)
    requires IsRun(states, steps) && Unverified(states[|steps|], id) && FreshFrom(states, steps, i)
    ensures IsRun(r, q) && states <= r && steps <= q && FreshFrom(r, q, i)
    ensures var g := states[|steps|].next + 1;
            && RowIs(r[|q|], id, Success, x) && !HasWorker(r[|q|], id)
            && WillMark(r[|q|], g, id) && r[|q|].workers[g].copy.checksum == ""
  {
    var g := states[|steps|].next;
    r, q := ThenFresh(states, steps, ReadForVerification(id), i);
    r, q := ThenFresh(r, q, ReadForVerification(id), i);
    assert forall h :: WorksOn(r[|q|], h, id) ==> WorksOn(states[|steps|], h, id);
    r, q := ThenFresh(r, q, MarkVerifying(g, true), i);
    r, q := ThenFresh(r, q, FinishVerification(g, true, x, true), i);
    assert forall h :: WorksOn(r[|q|], h, id) ==> WorksOn(states[|steps|], h, id);
  }

  /**
   Every run with an unverified record can go on so that two verifications of
   it, one after the other, pass with different checksums, although no call
   marks it while it is under verification or failed.
   */
  lemma ChecksumCanBeErased(states: seq<State>, steps: seq<Step>, id: Id, x: string, y: string, i: nat)
      returns (r: seq<State>, q: seq<Step>)
    requires IsRun(states, steps) && Unverified(states[|steps|], id) && FreshFrom(states, steps, i)
    ensures ErasesChecksum(r, q, id, x, y) && states <= r && steps <= q && FreshFrom(r, q, i)
  {
    var g := states[|steps|].next + 1;
    r, q := FirstPasses(states, steps, id, x, i);
    r, q := ThenFresh(r, q, MarkVerifying(g, true), i);
    r, q := ThenFresh(r, q, FinishVerification(g, true, y, true), i);
  }

  /** There is an unverified record in some run from the start. */
  lemma OneUnverified() returns (r: seq<State>, q: seq<Step>)
    ensures IsRun(r, q) && Unverified(r[|q|], "a") && FreshFrom(r, q, 0)
  {
    r, q := [INIT], [];
    r, q := ThenFresh(r, q, StartBackup("a", None, FullBackup, 1), 0);
    r, q := ThenFresh(r, q, AcquireSlot(0), 0);
    r, q := ThenFresh(r, q, FinishBackup(0, true, "", true), 0);
  }

  /** So there is such a run from the start, with one worker at a time and every status moving as it should. */
  lemma ChecksumIsErased(x: string, y: string) returns (r: seq<State>, q: seq<Step>)
    ensures ErasesChecksum(r, q, "a", x, y)
    ensures forall i :: 0 <= i <= |q| ==> Orderly(r[i])
    ensures forall k :: 0 <= k < |q| ==> MovesAt(r, k)
  {
    r, q := OneUnverified();
    r, q := ChecksumCanBeErased(r, q, "a", x, y, 0);
    StatusMoves(r, q, |q|);
  }

  /** A StartRestore call reads the backup, a verification then fails it, and the restore is inserted all the same. */
  lemma RestoreOfFailedPossible(states: seq<State>, steps: seq<Step>, id: Id, restore: Id)
      returns (r: seq<State>, q: seq<Step>)
    requires IsRun(states, steps) && id in states[|steps|].rows && states[|steps|].rows[id].status == Success
    requires restore !in states[|steps|].restores
    ensures IsRun(r, q) && states <= r && steps <= q
    ensures restore in r[|q|].restores && r[|q|].restores[restore] == RestoreRow(id, Running)
    ensures id in r[|q|].rows && r[|q|].rows[id].status == Failed
  {
    var g := states[|steps|].next;
    r, q := Then(states, steps, ReadForRestore(id));
    r, q := Then(r, q, ReadForVerification(id));
    r, q := Then(r, q, MarkVerifying(g + 1, true));
    r, q := Then(r, q, FinishVerification(g + 1, false, "", true));
    r, q := Then(r, q, InsertRestore(g, restore, true));
  }

  /** A run in which two backups succeed and a sweep lists both, to delete the older. */
  lemma ASweepHoldsSuccess() returns (r: seq<State>, q: seq<Step>)
    ensures IsRun(r, q) && Sweeps(r[|q|], 2, "a") && r[|q|].workers[2].todo[0] == "a"
    ensures "a" in r[|q|].rows && r[|q|].rows["a"].status == Success
  {
    r, q := [INIT], [];
    r, q := Then(r, q, StartBackup("a", Some("s"), FullBackup, 1));
    r, q := Then(r, q, AcquireSlot(0));
    r, q := Then(r, q, FinishBackup(0, true, "", true));
    r, q := Then(r, q, StartBackup("b", Some("s"), FullBackup, 2));
    r, q := Then(r, q, AcquireSlot(1));
    r, q := Then(r, q, FinishBackup(1, true, "", true));
    r, q := Then(r, q, StartSweep("s", 1, 0));
    assert IsQueryResult(r[|q|].rows, "s", FullBackup, ["a", "b"]);
    r, q := Then(r, q, SweepList(2, true, ["a", "b"]));
    assert r[|q|].workers[2].todo == ["a", "b"][..1] == ["a"];
  }

  /**
   The window of a sweep is always open: every run in which a sweep holds a
   record that is "success" can go on so that the record is deleted while it
   is "verifying".
   */
  lemma SweepCanDeleteVerifying(states: seq<State>, steps: seq<Step>, g: nat, id: Id)
      returns (r: seq<State>, q: seq<Step>)
    requires IsRun(states, steps) && Sweeps(states[|steps|], g, id) && states[|steps|].workers[g].todo[0] == id
    requires id in states[|steps|].rows && states[|steps|].rows[id].status == Success
    ensures DeletesVerifying(r, q, g, id) && states <= r && steps <= q
  {
    var next := states[|steps|].next;
    RunsKeepInv(states, steps, |steps|);
    assert WorkerOk(states[|steps|], g);
    r, q := Then(states, steps, ReadForVerification(id));
    r, q := Then(r, q, MarkVerifying(next, true));
    r, q := Then(r, q, SweepDelete(g, true));
  }

  /** The last step of this run is the deletion by a sweep of a record that is being verified. */
  ghost predicate DeletesVerifying(states: seq<State>, steps: seq<Step>, g: nat, id: Id) {
    && IsRun(states, steps) && steps != []
    && var j := |steps| - 1;
       && steps[j] == SweepDelete(g, true)
       && Sweeps(states[j], g, id) && states[j].workers[g].todo[0] == id
       && id in states[j].rows && states[j].rows[id].status == Verifying
       && id !in states[j + 1].rows
  }

  /** So there is such a run from the start. */
  lemma SweepDeletesVerifying() returns (r: seq<State>, q: seq<Step>)
    ensures DeletesVerifying(r, q, 2, "a")
  {
    r, q := ASweepHoldsSuccess();
    r, q := SweepCanDeleteVerifying(r, q, 2, "a");
  }
}
