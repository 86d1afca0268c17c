/**
 Provider requests served concurrently. Reading a record, clearing the default
 flags and writing a record are separate database statements, each committed
 by itself, so the statements of different requests may come in any order.
 */
module ProviderRuns {
  import opened Bytes
  import opened Aead
  import opened Providers

  /** The next statement of a request. */
  datatype Phase =
    | Fetching                // GetByID of the set-default handler
    | Reading(p: Provider)    // GetByID in Update, with the submitted record
    | Clearing(row: Provider)
    | Writing(row: Provider)
    | Deleting

  /**
   A request being served, with the nonces it draws. `keys` is a history
   variable: after its fetch, the keys last submitted for the provider then;
   once its record is ready, the keys that record will be read back as.
   */
  datatype Process = Process(req: Request, n1: Option<Bytes>, n2: Option<Bytes>, phase: Phase, keys: Keys)

  datatype State = State(
    table: Table,
    submitted: map<Id, Keys>,     // history: the keys last submitted, for each provider in the table
    used: set<Id>,                // every id ever drawn for a new provider
    running: map<nat, Process>,
    next: nat)

  const INIT: State := State(map[], map[], {}, map[], 0)

  /** A request arrives; or the next statement of a running one succeeds, or fails and ends it. */
  datatype Step = Begin(req: Request, n1: Option<Bytes>, n2: Option<Bytes>) | Go(g: nat) | Fail(g: nat)

  predicate Enabled(s: State, step: Step) {
    match step
    // uuid.New never repeats an id
    case Begin(req, n1, n2) => NonceSized(n1) && NonceSized(n2) && (req.Create? ==> req.id !in s.used && req.id != "")
    case Go(g) => g in s.running
    case Fail(g) => g in s.running
  }

  function BeforeWrite(row: Provider): Phase {
    if row.isDefault then Clearing(row) else Writing(row)
  }

  /** Where a request starts; an incomplete new provider is refused. */
  function First(c: Cipher, req: Request, n1: Option<Bytes>, n2: Option<Bytes>): Option<Phase> {
    match req
    case Create(_, p) => if ValidNew(p) then Some(BeforeWrite(Prepared(c, n1, n2, p))) else None
    case Update(_, p) => Some(Reading(p))
    case SetDefault(_) => Some(Fetching)
    case Delete(_) => Some(Deleting)
  }

  /** The provider whose flag ClearDefault leaves alone. */
  function Except(req: Request): Id {
    if req.Create? then "" else req.id
  }

  function Submitted(s: State, id: Id): Keys {
    if id in s.submitted then s.submitted[id] else ([], [])
  }

  /** An INSERT always adds its row, an UPDATE finds it only if it is still there. */
  predicate Lands(s: State, req: Request) {
    req.Create? || req.id in s.table
  }

  /** The keys Update is called with: set-default passes on the access key it fetched, and a masked secret key. */
  function Sent(pr: Process): Keys {
    match pr.req
    case Create(_, p) => (p.accessKey, p.secretKey)
    case Update(_, p) => (p.accessKey, p.secretKey)
    case SetDefault(_) => (pr.keys.0, MASK)
    case Delete(_) => pr.keys
  }

  /** What a new record will be read back as. */
  function FirstKeys(c: Cipher, req: Request, n1: Option<Bytes>, n2: Option<Bytes>): Keys {
    if req.Create? then (ReadBack(c, n1, req.p.accessKey), ReadBack(c, n2, req.p.secretKey)) else ([], [])
  }

  function Ended(s: State, g: nat): State {
    s.(running := s.running - {g})
  }

  function Advanced(s: State, g: nat, phase: Phase, keys: Keys): State
    requires g in s.running
  {
    s.(running := s.running[g := s.running[g].(phase := phase, keys := keys)])
  }

  /** The next statement of a request succeeds. */
  function Served(c: Cipher, s: State, g: nat): State
    requires g in s.running
  {
    var pr := s.running[g];
    var id := pr.req.id;
    match pr.phase
    case Fetching =>
      if id !in s.table then Ended(s, g)
      else Advanced(s, g, Reading(Masked(c, s.table[id]).(isDefault := true)), Submitted(s, id))
    case Reading(p) =>
      if id !in s.table then Ended(s, g)
      else Advanced(s, g, BeforeWrite(Merged(c, pr.n1, pr.n2, p, s.table[id])),
                    Leaves(c, pr.n1, pr.n2, Sent(pr), Submitted(s, id)))
    case Clearing(row) => Advanced(s, g, Writing(row), pr.keys).(table := Cleared(s.table, Except(pr.req)))
    case Writing(row) =>
      if Lands(s, pr.req)
      then Ended(s, g).(table := s.table[id := row],
                        submitted := s.submitted[id := Intended(pr.req, Submitted(s, id))])
      else Ended(s, g)
    case Deleting => Ended(s, g).(table := s.table - {id}, submitted := s.submitted - {id})
  }

  function Apply(c: Cipher, s: State, step: Step): State
    requires Enabled(s, step)
  {
    match step
    case Begin(req, n1, n2) =>
      var s' := if req.Create? then s.(used := s.used + {req.id}) else s;
      (match First(c, req, n1, n2)
       case None => s'
       case Some(phase) =>
         var pr := Process(req, n1, n2, phase, FirstKeys(c, req, n1, n2));
         s'.(running := s.running[s.next := pr], next := s.next + 1))
    case Go(g) => Served(c, s, g)
    case Fail(g) => Ended(s, g)
  }

  ghost predicate StepAt(c: Cipher, states: seq<State>, steps: seq<Step>, i: nat)
    requires i < |steps| < |states|
  {
    Enabled(states[i], steps[i]) && states[i + 1] == Apply(c, states[i], steps[i])
  }

  ghost predicate IsRun(c: Cipher, states: seq<State>, steps: seq<Step>) {
    && |states| == |steps| + 1
    && states[0] == INIT
    && forall i :: 0 <= i < |steps| ==> StepAt(c, states, steps, i)
  }

  /** A run and one more step. */
  lemma Then(c: Cipher, states: seq<State>, steps: seq<Step>, step: Step)
      returns (states': seq<State>, steps': seq<Step>)
    requires IsRun(c, states, steps) && Enabled(states[|steps|], step)
    ensures IsRun(c, states', steps') && steps' == steps + [step]
    ensures states' == states + [Apply(c, states[|steps|], step)]
    ensures states'[|steps'|] == Apply(c, states[|steps|], step)
  {
    states', steps' := states + [Apply(c, states[|steps|], step)], steps + [step];
    forall i | 0 <= i < |steps'| ensures StepAt(c, states', steps', i) {
      if i < |steps| {
        assert StepAt(c, states, steps, i);
        assert states'[i] == states[i] && states'[i + 1] == states[i + 1] && steps'[i] == steps[i];
      }
    }
  }

  // --------------------------------------------- one request by itself

  /** The statements a request still has before it, at most. */
  function Left(s: State, g: nat): nat {
    if g !in s.running then 0
    else
      match s.running[g].phase
      case Fetching => 4
      case Reading(_) => 3
      case Clearing(_) => 2
      case Writing(_) => 1
      case Deleting => 1
  }

  predicate FailsAt(db: Db, phase: Phase) {
    match phase
    case Fetching => false
    case Reading(_) => false
    case Clearing(_) => db.ClearFails?
    case Writing(_) => !db.Works?
    case Deleting => !db.Works?
  }

  /** The rest of a request with no other in between; `db` says which statement fails, if any. */
  function Finish(c: Cipher, s: State, g: nat, db: Db): State
    decreases Left(s, g)
  {
    if g !in s.running then s
    else if FailsAt(db, s.running[g].phase) then Ended(s, g)
    else Finish(c, Served(c, s, g), g, db)
  }

  /** The table, the ledger and the other requests after the write of `row`. */
  predicate WriteDone(s: State, g: nat, row: Provider, db: Db, t: State)
    requires g in s.running
  {
    var req := s.running[g].req;
    && (Lands(s, req) ==> t.table == WriteWithDefault(s.table, req.id, row, Except(req), db))
    && t.submitted == (if Lands(s, req) && db.Works?
                       then s.submitted[req.id := Intended(req, Submitted(s, req.id))] else s.submitted)
    && t.running == s.running - {g}
  }

  lemma WritingAlone(c: Cipher, s: State, g: nat, db: Db)
    requires g in s.running && s.running[g].phase.Writing?
    ensures var t := Finish(c, s, g, db);
            && t == (if db.Works? then Served(c, s, g) else Ended(s, g))
            && t.running == s.running - {g}
  {
  }

  lemma WriteAlone(c: Cipher, s: State, g: nat, row: Provider, db: Db)
    requires g in s.running && s.running[g].phase == BeforeWrite(row)
    ensures WriteDone(s, g, row, db, Finish(c, s, g, db))
  {
    if row.isDefault && !db.ClearFails? {
      var s1 := Served(c, s, g);
      ClearedLaws(s.table, Except(s.running[g].req));
      assert s1.running - {g} == s.running - {g};
      WritingAlone(c, s1, g, db);
    } else if !row.isDefault {
      WritingAlone(c, s, g, db);
    }
  }

  lemma ReadAlone(c: Cipher, s: State, g: nat, p: Provider, db: Db)
    requires g in s.running && s.running[g].phase == Reading(p) && s.running[g].req.id in s.table
    requires !s.running[g].req.Create?
    ensures var pr := s.running[g];
            WriteDone(s, g, Merged(c, pr.n1, pr.n2, p, s.table[pr.req.id]), db, Finish(c, s, g, db))
  {
    var pr, s1 := s.running[g], Served(c, s, g);
    assert s1.running - {g} == s.running - {g};
    WriteAlone(c, s1, g, Merged(c, pr.n1, pr.n2, p, s.table[pr.req.id]), db);
  }

  lemma FetchAlone(c: Cipher, s: State, g: nat, db: Db)
    requires g in s.running && s.running[g].phase == Fetching && s.running[g].req.id in s.table
    requires !s.running[g].req.Create?
    ensures var pr := s.running[g];
            var row := Merged(c, pr.n1, pr.n2, Masked(c, s.table[pr.req.id]).(isDefault := true), s.table[pr.req.id]);
            WriteDone(s, g, row, db, Finish(c, s, g, db))
  {
    var pr, s1 := s.running[g], Served(c, s, g);
    assert s1.running - {g} == s.running - {g};
    ReadAlone(c, s1, g, Masked(c, s.table[pr.req.id]).(isDefault := true), db);
  }

  /** Served without interruption, the request does what the service's methods do. */
  ghost predicate HandledAlone(c: Cipher, s: State, req: Request, n1: Option<Bytes>, n2: Option<Bytes>, db: Db)
    requires Enabled(s, Begin(req, n1, n2))
  {
    var t := Finish(c, Apply(c, s, Begin(req, n1, n2)), s.next, db);
    && t.table == Handle(c, n1, n2, s.table, req, db)
    && t.submitted == Ledger(s.submitted, s.table, req, db)
    && t.running == s.running
  }

  lemma UpdateAlone(c: Cipher, s: State, id: Id, p: Provider, n1: Option<Bytes>, n2: Option<Bytes>, db: Db)
    requires Enabled(s, Begin(Update(id, p), n1, n2)) && s.next !in s.running && id in s.table
    ensures HandledAlone(c, s, Update(id, p), n1, n2, db)
  {
    var s1 := Apply(c, s, Begin(Update(id, p), n1, n2));
    assert s1.running - {s.next} == s.running;
    ReadAlone(c, s1, s.next, p, db);
  }

  lemma SetDefaultAlone(c: Cipher, s: State, id: Id, n1: Option<Bytes>, n2: Option<Bytes>, db: Db)
    requires Enabled(s, Begin(SetDefault(id), n1, n2)) && s.next !in s.running && id in s.table
    ensures HandledAlone(c, s, SetDefault(id), n1, n2, db)
  {
    var s1 := Apply(c, s, Begin(SetDefault(id), n1, n2));
    assert s1.running - {s.next} == s.running;
    FetchAlone(c, s1, s.next, db);
  }

  lemma CreateAlone(c: Cipher, s: State, id: Id, p: Provider, n1: Option<Bytes>, n2: Option<Bytes>, db: Db)
    requires Enabled(s, Begin(Create(id, p), n1, n2)) && s.next !in s.running && ValidNew(p)
    ensures HandledAlone(c, s, Create(id, p), n1, n2, db)
  {
    var s1 := Apply(c, s, Begin(Create(id, p), n1, n2));
    assert s1.running - {s.next} == s.running;
    WriteAlone(c, s1, s.next, Prepared(c, n1, n2, p), db);
  }

  /** A request for a provider that is not there ends at its first read. */
  lemma MissingAlone(c: Cipher, s: State, req: Request, n1: Option<Bytes>, n2: Option<Bytes>, db: Db)
    requires Enabled(s, Begin(req, n1, n2)) && s.next !in s.running
    requires (req.Update? || req.SetDefault?) && req.id !in s.table
    ensures HandledAlone(c, s, req, n1, n2, db)
  {
    var s1 := Apply(c, s, Begin(req, n1, n2));
    assert s1.running - {s.next} == s.running;
    assert Finish(c, s1, s.next, db) == Ended(s1, s.next);
  }

  lemma DeleteAlone(c: Cipher, s: State, id: Id, n1: Option<Bytes>, n2: Option<Bytes>, db: Db)
    requires Enabled(s, Begin(Delete(id), n1, n2)) && s.next !in s.running
    ensures HandledAlone(c, s, Delete(id), n1, n2, db)
  {
    var s1 := Apply(c, s, Begin(Delete(id), n1, n2));
    assert s1.running - {s.next} == s.running;
    assert Finish(c, s1, s.next, db) == if db.Works? then Served(c, s1, s.next) else Ended(s1, s.next);
  }

  /** Served without interruption, every request does what the service's methods do. */
  lemma AloneIsHandle(c: Cipher, s: State, req: Request, n1: Option<Bytes>, n2: Option<Bytes>, db: Db)
    requires Enabled(s, Begin(req, n1, n2)) && s.next !in s.running
    ensures HandledAlone(c, s, req, n1, n2, db)
  {
    if req.Create? && ValidNew(req.p) {
      CreateAlone(c, s, req.id, req.p, n1, n2, db);
    } else if req.Update? && req.id in s.table {
      UpdateAlone(c, s, req.id, req.p, n1, n2, db);
    } else if req.SetDefault? && req.id in s.table {
      SetDefaultAlone(c, s, req.id, n1, n2, db);
    } else if req.Update? || req.SetDefault? {
      MissingAlone(c, s, req, n1, n2, db);
    } else if req.Delete? {
      DeleteAlone(c, s, req.id, n1, n2, db);
    }
  }

  // ------------------------------------------ how the table changes in a run

  /** Step `k` is the write of request `g`. */
  predicate WritesRow(states: seq<State>, steps: seq<Step>, k: nat, id: Id) {
    && k < |steps| < |states| && steps[k].Go? && steps[k].g in states[k].running
    && states[k].running[steps[k].g].phase.Writing? && states[k].running[steps[k].g].req.id == id
  }

  /** A provider comes only by the insert of a create: an update that comes too late brings nothing back. */
  lemma ProviderComes(c: Cipher, states: seq<State>, steps: seq<Step>, k: nat, id: Id)
    requires IsRun(c, states, steps) && k < |steps| && id !in states[k].table && id in states[k + 1].table
    ensures WritesRow(states, steps, k, id)
    ensures var pr := states[k].running[steps[k].g];
            pr.req.Create? && states[k + 1].table[id] == pr.phase.row
  {
    assert StepAt(c, states, steps, k);
  }

  /** It goes only by a delete of that provider. */
  lemma ProviderGoes(c: Cipher, states: seq<State>, steps: seq<Step>, k: nat, id: Id)
    requires IsRun(c, states, steps) && k < |steps| && id in states[k].table && id !in states[k + 1].table
    ensures steps[k].Go? && steps[k].g in states[k].running
    ensures states[k].running[steps[k].g].req.id == id && states[k].running[steps[k].g].phase.Deleting?
  {
    assert StepAt(c, states, steps, k);
  }

  /** It changes only by a write of that provider, which stores the prepared record, or by a clear of its flag. */
  lemma ProviderChanges(c: Cipher, states: seq<State>, steps: seq<Step>, k: nat, id: Id)
    requires IsRun(c, states, steps) && k < |steps| && id in states[k].table && id in states[k + 1].table
    requires states[k + 1].table[id] != states[k].table[id]
    ensures steps[k].Go? && steps[k].g in states[k].running
    ensures var pr := states[k].running[steps[k].g];
            || (pr.phase.Writing? && pr.req.id == id && states[k + 1].table[id] == pr.phase.row)
            || (pr.phase.Clearing? && (pr.req.Create? || pr.req.id != id)
                && states[k + 1].table[id] == states[k].table[id].(isDefault := false))
  {
    assert StepAt(c, states, steps, k);
  }

  /** A create for this provider is still running. */
  ghost predicate Creates(s: State, id: Id) {
    exists g :: g in s.running && s.running[g].req.Create? && s.running[g].req.id == id
  }

  /** The id was given to a provider that is no more, or never was inserted. */
  ghost predicate Gone(s: State, id: Id) {
    id in s.used && id !in s.table && !Creates(s, id)
  }

  lemma StepKeepsGone(c: Cipher, s: State, step: Step, id: Id)
    requires Enabled(s, step) && Gone(s, id)
    ensures Gone(Apply(c, s, step), id)
  {
    var t := Apply(c, s, step);
    forall g | g in t.running && t.running[g].req.Create? ensures t.running[g].req.id != id {
      if g in s.running && t.running[g].req == s.running[g].req {
        assert !Creates(s, id);
      }
    }
  }

  /** A deleted provider never comes back, however late the requests that read it finish. */
  lemma {:induction false} DeletedProviderStaysDeleted(c: Cipher, states: seq<State>, steps: seq<Step>, i: nat, j: nat,
        id: Id)
    requires IsRun(c, states, steps) && i <= j <= |steps| && Gone(states[i], id)
    ensures Gone(states[j], id)
    decreases j
  {
    if i < j {
      DeletedProviderStaysDeleted(c, states, steps, i, j - 1, id);
      assert StepAt(c, states, steps, j - 1);
      StepKeepsGone(c, states[j - 1], steps[j - 1], id);
    }
  }

  // -------------------------------------------------- at most one default

  /** Step `k` is the next statement of this request. */
  predicate Serves(states: seq<State>, steps: seq<Step>, k: nat, g: nat) {
    k < |steps| < |states| && steps[k] == Go(g) && g in states[k].running
  }

  /** Step `k` writes this provider as the default. */
  predicate MakesDefault(states: seq<State>, steps: seq<Step>, k: nat, id: Id) {
    && k < |steps| < |states| && steps[k].Go? && steps[k].g in states[k].running
    && var pr := states[k].running[steps[k].g];
       pr.req.id == id && pr.phase.Writing? && pr.phase.row.isDefault && Lands(states[k], pr.req)
  }

  /** Step `k` takes the flag away, or the provider. */
  predicate Unmakes(states: seq<State>, steps: seq<Step>, k: nat, id: Id) {
    && k < |steps| < |states| && steps[k].Go? && steps[k].g in states[k].running
    && var pr := states[k].running[steps[k].g];
       match pr.phase
       case Clearing(_) => Except(pr.req) != id
       case Writing(row) => pr.req.id == id && !row.isDefault
       case Deleting => pr.req.id == id
       case _ => false
  }

  /** Step `k` made the provider the default, and nothing undid it before `j`. */
  predicate DefaultSince(states: seq<State>, steps: seq<Step>, k: nat, j: nat, id: Id) {
    MakesDefault(states, steps, k, id) && forall m :: k < m < j ==> !Unmakes(states, steps, m, id)
  }

  lemma DefaultStep(c: Cipher, states: seq<State>, steps: seq<Step>, k: nat, id: Id)
    requires IsRun(c, states, steps) && k < |steps|
    ensures id in Defaults(states[k + 1].table) <==>
            || MakesDefault(states, steps, k, id)
            || (id in Defaults(states[k].table) && !Unmakes(states, steps, k, id))
  {
    assert StepAt(c, states, steps, k);
  }

  /** A provider is default exactly when some write made it so and nothing undid that. */
  lemma {:induction false} DefaultIff(c: Cipher, states: seq<State>, steps: seq<Step>, j: nat, id: Id)
    requires IsRun(c, states, steps) && j <= |steps|
    ensures id in Defaults(states[j].table) <==> exists k: nat :: k < j && DefaultSince(states, steps, k, j, id)
  {
    if j > 0 {
      DefaultIff(c, states, steps, j - 1, id);
      DefaultStep(c, states, steps, j - 1, id);
      if MakesDefault(states, steps, j - 1, id) {
        assert DefaultSince(states, steps, j - 1, j, id);
      } else if id in Defaults(states[j].table) {
        var k: nat :| k < j - 1 && DefaultSince(states, steps, k, j - 1, id);
        assert DefaultSince(states, steps, k, j, id);
      } else if k: nat :| k < j && DefaultSince(states, steps, k, j, id) {
        assert DefaultSince(states, steps, k, j - 1, id);
      }
    }
  }

  /** The clear of request `g`. */
  predicate Clears(states: seq<State>, steps: seq<Step>, k: nat, g: nat) {
    Serves(states, steps, k, g) && states[k].running[g].phase.Clearing?
  }

  /** A request about to write a default has cleared the others before. */
  lemma {:induction false} ClearedBefore(c: Cipher, states: seq<State>, steps: seq<Step>, j: nat, g: nat)
      returns (k: nat)
    requires IsRun(c, states, steps) && j <= |steps|
    requires g in states[j].running && states[j].running[g].phase.Writing? && states[j].running[g].phase.row.isDefault
    ensures k < j && Clears(states, steps, k, g) && states[k].running[g].req == states[j].running[g].req
  {
    assert StepAt(c, states, steps, j - 1);
    if g in states[j - 1].running && states[j - 1].running[g].phase == states[j].running[g].phase
       && states[j - 1].running[g].req == states[j].running[g].req {
      k := ClearedBefore(c, states, steps, j - 1, g);
    } else {
      k := j - 1;
    }
  }

  /**
   The default write at step `w` is overtaken: between the clear and the write
   of its request another provider was made default, and still is.
   */
  ghost predicate Overtaken(states: seq<State>, steps: seq<Step>, w: nat) {
    exists k, m, x :: OvertakenBy(states, steps, w, k, m, x)
  }

  ghost predicate OvertakenBy(states: seq<State>, steps: seq<Step>, w: nat, k: nat, m: nat, x: Id) {
    && k < m < w && w < |steps| < |states| && steps[w].Go? && steps[w].g in states[w].running
    && Clears(states, steps, k, steps[w].g)
    && DefaultSince(states, steps, m, w, x)
    && MakesDefault(states, steps, w, states[w].running[steps[w].g].req.id)
    && x != states[w].running[steps[w].g].req.id
  }

  lemma {:induction false} NoEmptyId(c: Cipher, states: seq<State>, steps: seq<Step>, j: nat)
    requires IsRun(c, states, steps) && j <= |steps|
    ensures "" !in states[j].table && "" !in states[j].used
    ensures forall g :: g in states[j].running && states[j].running[g].req.Create? ==> states[j].running[g].req.id != ""
  {
    if j > 0 {
      NoEmptyId(c, states, steps, j - 1);
      assert StepAt(c, states, steps, j - 1);
    }
  }

  /** Right after a default write its provider is the only default, exactly when the write was not overtaken. */
  lemma DefaultWriteWins(c: Cipher, states: seq<State>, steps: seq<Step>, w: nat, id: Id)
    requires IsRun(c, states, steps) && MakesDefault(states, steps, w, id)
    ensures Defaults(states[w + 1].table) == {id} <==> !Overtaken(states, steps, w)
    ensures id in Defaults(states[w + 1].table)
  {
    DefaultStep(c, states, steps, w, id);
    if Overtaken(states, steps, w) {
      var k, m, x :| OvertakenBy(states, steps, w, k, m, x);
      DefaultIff(c, states, steps, w, x);
      DefaultStep(c, states, steps, w, x);
      assert x in Defaults(states[w + 1].table) && x != id;
    } else {
      var others := Defaults(states[w + 1].table) - {id};
      if others != {} {
        var x :| x in others;
        OtherDefaultOvertakes(c, states, steps, w, id, x);
      }
    }
  }

  lemma OtherDefaultOvertakes(c: Cipher, states: seq<State>, steps: seq<Step>, w: nat, id: Id, x: Id)
    requires IsRun(c, states, steps) && MakesDefault(states, steps, w, id)
    requires x != id && x in Defaults(states[w + 1].table)
    ensures Overtaken(states, steps, w)
  {
    DefaultStep(c, states, steps, w, x);
    DefaultIff(c, states, steps, w, x);
    var m: nat :| m < w && DefaultSince(states, steps, m, w, x);
    var k := ClearedBefore(c, states, steps, w, steps[w].g);
    NoEmptyId(c, states, steps, w);
    assert Unmakes(states, steps, k, x);
    assert MakesDefault(states, steps, m, x) ==> m != k;
    assert OvertakenBy(states, steps, w, k, m, x);
  }

  /**
   At most one provider is default in every state up to `j`, failed requests
   included, exactly when no default write up to there is overtaken by one for
   another provider: in particular whenever such requests do not overlap.
   */
  lemma AtMostOneDefault(c: Cipher, states: seq<State>, steps: seq<Step>, j: nat)
    requires IsRun(c, states, steps) && j <= |steps|
    ensures (forall i :: 0 <= i <= j ==> OneDefault(states[i].table)) <==>
            (forall w :: 0 <= w < j ==> !Overtaken(states, steps, w))
  {
    if forall w :: 0 <= w < j ==> !Overtaken(states, steps, w) {
      forall i | 0 <= i <= j ensures OneDefault(states[i].table) {
        OneDefaultUpTo(c, states, steps, i);
      }
    } else {
      var w :| 0 <= w < j && Overtaken(states, steps, w);
      var id := states[w].running[steps[w].g].req.id;
      DefaultWriteWins(c, states, steps, w, id);
      assert !OneDefault(states[w + 1].table);
    }
  }

  lemma {:induction false} OneDefaultUpTo(c: Cipher, states: seq<State>, steps: seq<Step>, j: nat)
    requires IsRun(c, states, steps) && j <= |steps|
    requires forall w :: 0 <= w < j ==> !Overtaken(states, steps, w)
    ensures OneDefault(states[j].table)
  {
    if j > 0 {
      OneDefaultUpTo(c, states, steps, j - 1);
      assert StepAt(c, states, steps, j - 1);
      var id := if steps[j - 1].Go? then states[j - 1].running[steps[j - 1].g].req.id else "";
      if MakesDefault(states, steps, j - 1, id) {
        DefaultWriteWins(c, states, steps, j - 1, id);
      } else {
        forall x | x in Defaults(states[j].table) ensures x in Defaults(states[j - 1].table) {
          DefaultStep(c, states, steps, j - 1, x);
        }
      }
    }
  }

  /** Two set-default requests at the same point: both about to clear, or both about to write. */
  predicate Both(s: State, g: nat, h: nat, a: Id, b: Id, clearing: bool) {
    About(s, g, a, clearing) && About(s, h, b, clearing) && g != h && a in s.table && b in s.table
  }

  predicate About(s: State, g: nat, id: Id, clearing: bool) {
    && g in s.running && s.running[g].req == SetDefault(id)
    && (if clearing then s.running[g].phase.Clearing? else s.running[g].phase.Writing?)
    && s.running[g].phase.row.isDefault
  }

  lemma BothRead(c: Cipher, states: seq<State>, steps: seq<Step>, a: Id, b: Id) returns (r: seq<State>, q: seq<Step>)
    requires IsRun(c, states, steps) && a in states[|steps|].table && b in states[|steps|].table
    ensures IsRun(c, r, q) && states <= r && steps <= q
    ensures Both(r[|q|], states[|steps|].next, states[|steps|].next + 1, a, b, true)
  {
    var g := states[|steps|].next;
    r, q := Then(c, states, steps, Begin(SetDefault(a), None, None));
    r, q := Then(c, r, q, Begin(SetDefault(b), None, None));
    r, q := Then(c, r, q, Go(g));
    r, q := Then(c, r, q, Go(g));
    r, q := Then(c, r, q, Go(g + 1));
    r, q := Then(c, r, q, Go(g + 1));
  }

  lemma BothClear(c: Cipher, states: seq<State>, steps: seq<Step>, g: nat, h: nat, a: Id, b: Id)
      returns (r: seq<State>, q: seq<Step>)
    requires IsRun(c, states, steps) && Both(states[|steps|], g, h, a, b, true)
    ensures IsRun(c, r, q) && states <= r && steps <= q && Both(r[|q|], g, h, a, b, false)
  {
    r, q := Then(c, states, steps, Go(g));
    r, q := Then(c, r, q, Go(h));
  }

  /** Every run with two providers can go on so that both are default: two set-default requests that overlap. */
  lemma TwoDefaultsPossible(c: Cipher, states: seq<State>, steps: seq<Step>, a: Id, b: Id)
      returns (r: seq<State>, q: seq<Step>)
    requires IsRun(c, states, steps) && a in states[|steps|].table && b in states[|steps|].table && a != b
    ensures IsRun(c, r, q) && states <= r && steps <= q && !OneDefault(r[|q|].table)
  {
    var g := states[|steps|].next;
    r, q := BothRead(c, states, steps, a, b);
    r, q := BothClear(c, r, q, g, g + 1, a, b);
    r, q := Then(c, r, q, Go(g));
    r, q := Then(c, r, q, Go(g + 1));
    assert a in Defaults(r[|q|].table) && b in Defaults(r[|q|].table);
  }

  // ------------------------------------------------- credentials survive

  /** What every provider decrypts to is what was last submitted for it. */
  ghost predicate Kept(c: Cipher, s: State) {
    KeysKept(c, s.table, s.submitted)
  }

  /** A record about to be written will be read back as the keys the provider should then have. */
  ghost predicate UpToDate(s: State, step: Step)
    requires Enabled(s, step)
  {
    step.Go? && s.running[step.g].phase.Writing? && Lands(s, s.running[step.g].req) ==>
      var pr := s.running[step.g];
      pr.keys == Intended(pr.req, Submitted(s, pr.req.id))
  }

  /** What a request carries decrypts to the keys it holds. */
  ghost predicate Carries(c: Cipher, pr: Process) {
    && NonceSized(pr.n1) && NonceSized(pr.n2)
    && match pr.phase
       case Fetching => pr.req.SetDefault?
       case Reading(p) =>
         || (pr.req.Update? && p == pr.req.p)
         || (pr.req.SetDefault? && p.accessKey == pr.keys.0 && p.secretKey == MASK)
       case Clearing(row) => Credentials(c, row) == pr.keys
       case Writing(row) => Credentials(c, row) == pr.keys
       case Deleting => true
  }

  ghost predicate AllCarry(c: Cipher, s: State) {
    forall g :: g in s.running ==> Carries(c, s.running[g])
  }

  /** Every request of the run draws its nonces. */
  predicate Drawn(steps: seq<Step>) {
    forall i :: 0 <= i < |steps| && steps[i].Begin? ==> steps[i].n1.Some? && steps[i].n2.Some?
  }

  lemma ServedCarries(c: Cipher, s: State, g: nat)
    requires c.Sound() && Kept(c, s) && g in s.running && Carries(c, s.running[g])
    requires g in Served(c, s, g).running
    ensures Carries(c, Served(c, s, g).running[g])
  {
    var pr := s.running[g];
    if pr.phase.Reading? {
      MergedKeys(c, pr.n1, pr.n2, pr.phase.p, s.table[pr.req.id]);
    }
  }

  lemma StepCarries(c: Cipher, s: State, step: Step)
    requires c.Sound() && Kept(c, s) && AllCarry(c, s) && Enabled(s, step)
    ensures AllCarry(c, Apply(c, s, step))
  {
    match step
    case Begin(req, n1, n2) =>
      if req.Create? {
        PreparedKeys(c, n1, n2, req.p);
      }
    case Go(g) =>
      if g in Served(c, s, g).running {
        ServedCarries(c, s, g);
      }
    case Fail(g) =>
  }

  /** A step keeps the keys exactly when it is no write, or one that relied on keys still in force. */
  lemma StepKeepsIff(c: Cipher, s: State, step: Step)
    requires c.Sound() && Kept(c, s) && AllCarry(c, s) && Enabled(s, step)
    ensures Kept(c, Apply(c, s, step)) <==> UpToDate(s, step)
  {
    if step.Go? {
      var pr, t := s.running[step.g], Served(c, s, step.g);
      if pr.phase.Clearing? {
        ClearedLaws(s.table, Except(pr.req));
      } else if pr.phase.Writing? && Lands(s, pr.req) {
        assert Credentials(c, t.table[pr.req.id]) == pr.keys;
        assert t.submitted[pr.req.id] == Intended(pr.req, Submitted(s, pr.req.id));
      }
    }
  }

  /**
   Over every run, failed requests included: in every state up to `j` each
   provider decrypts to the keys last submitted for it, exactly when every write
   up to there leaves the keys it should: those it keeps were still in force
   when it was made, and no plaintext stored for want of a nonce decrypts to
   something else.
   */
  lemma CredentialsSurviveIff(c: Cipher, states: seq<State>, steps: seq<Step>, j: nat)
    requires c.Sound() && IsRun(c, states, steps) && j <= |steps|
    ensures (forall i :: 0 <= i <= j ==> Kept(c, states[i])) <==>
            (forall w :: 0 <= w < j ==> StepAt(c, states, steps, w) && UpToDate(states[w], steps[w]))
  {
    if w :| 0 <= w < j && StepAt(c, states, steps, w) && !UpToDate(states[w], steps[w]) {
      StaleWriteLoses(c, states, steps, w);
    } else {
      forall i | 0 <= i <= j ensures Kept(c, states[i]) {
        KeptUpTo(c, states, steps, i);
      }
    }
  }

  lemma StaleWriteLoses(c: Cipher, states: seq<State>, steps: seq<Step>, w: nat)
    requires c.Sound() && IsRun(c, states, steps) && w < |steps|
    requires StepAt(c, states, steps, w) && !UpToDate(states[w], steps[w])
    ensures exists i :: 0 <= i <= w + 1 && !Kept(c, states[i])
  {
    if forall i :: 0 <= i <= w ==> Kept(c, states[i]) {
      CarriedUpTo(c, states, steps, w);
      StepKeepsIff(c, states[w], steps[w]);
      assert !Kept(c, states[w + 1]);
    }
  }

  lemma {:induction false} CarriedUpTo(c: Cipher, states: seq<State>, steps: seq<Step>, j: nat)
    requires c.Sound() && IsRun(c, states, steps) && j <= |steps|
    requires forall i :: 0 <= i < j ==> Kept(c, states[i])
    ensures AllCarry(c, states[j])
  {
    if j > 0 {
      CarriedUpTo(c, states, steps, j - 1);
      assert StepAt(c, states, steps, j - 1);
      StepCarries(c, states[j - 1], steps[j - 1]);
    }
  }

  lemma {:induction false} KeptUpTo(c: Cipher, states: seq<State>, steps: seq<Step>, j: nat)
    requires c.Sound() && IsRun(c, states, steps) && j <= |steps|
    requires forall w :: 0 <= w < j ==> StepAt(c, states, steps, w) && UpToDate(states[w], steps[w])
    ensures Kept(c, states[j]) && AllCarry(c, states[j])
  {
    if j > 0 {
      KeptUpTo(c, states, steps, j - 1);
      assert StepAt(c, states, steps, j - 1);
      StepCarries(c, states[j - 1], steps[j - 1]);
      StepKeepsIff(c, states[j - 1], steps[j - 1]);
    }
  }

  // --- which keys were last submitted, from the run alone

  datatype Which = Access | Secret

  function Pick(keys: Keys, which: Which): Bytes {
    if which.Access? then keys.0 else keys.1
  }

  /** The key a client submits with a request, if it is to replace the stored one. */
  function SubmittedKey(req: Request, which: Which): Option<Bytes> {
    match req
    case Create(_, p) => Some(Pick((p.accessKey, p.secretKey), which))
    case Update(_, p) =>
      var key := Pick((p.accessKey, p.secretKey), which);
      if KeepsKey(key) then None else Some(key)
    case SetDefault(_) => None
    case Delete(_) => None
  }

  /** Step `k` writes a record for which a client submitted this key. */
  predicate Submits(states: seq<State>, steps: seq<Step>, k: nat, id: Id, which: Which) {
    && k < |steps| < |states| && steps[k].Go? && steps[k].g in states[k].running
    && var pr := states[k].running[steps[k].g];
       && pr.phase.Writing? && Lands(states[k], pr.req) && pr.req.id == id
       && SubmittedKey(pr.req, which).Some?
  }

  lemma {:induction false} SameIds(c: Cipher, states: seq<State>, steps: seq<Step>, j: nat)
    requires IsRun(c, states, steps) && j <= |steps|
    ensures states[j].table.Keys == states[j].submitted.Keys
    ensures forall g :: g in states[j].running && states[j].running[g].req.Delete? ==>
              states[j].running[g].phase.Deleting?
  {
    if j > 0 {
      SameIds(c, states, steps, j - 1);
      assert StepAt(c, states, steps, j - 1);
    }
  }

  lemma SubmissionStep(c: Cipher, states: seq<State>, steps: seq<Step>, k: nat, id: Id, which: Which)
    requires IsRun(c, states, steps) && k < |steps| && id in states[k + 1].table
    ensures id in states[k + 1].submitted
    ensures Submits(states, steps, k, id, which) ==>
              Some(Pick(states[k + 1].submitted[id], which)) == SubmittedKey(states[k].running[steps[k].g].req, which)
    ensures !Submits(states, steps, k, id, which) ==>
              && id in states[k].table && id in states[k].submitted
              && Pick(states[k + 1].submitted[id], which) == Pick(states[k].submitted[id], which)
  {
    SameIds(c, states, steps, k);
    SameIds(c, states, steps, k + 1);
    assert StepAt(c, states, steps, k);
  }

  /**
   The history variable says what the run says: for each provider still there,
   either key is the one submitted with the last write that submitted any.
   */
  lemma {:induction false} LastSubmission(c: Cipher, states: seq<State>, steps: seq<Step>, j: nat, id: Id,
        which: Which) returns (k: nat)
    requires IsRun(c, states, steps) && j <= |steps| && id in states[j].table
    ensures id in states[j].submitted
    ensures k < j && Submits(states, steps, k, id, which)
    ensures forall m :: k < m < j ==> !Submits(states, steps, m, id, which)
    ensures Some(Pick(states[j].submitted[id], which)) == SubmittedKey(states[k].running[steps[k].g].req, which)
  {
    SubmissionStep(c, states, steps, j - 1, id, which);
    if Submits(states, steps, j - 1, id, which) {
      k := j - 1;
    } else {
      k := LastSubmission(c, states, steps, j - 1, id, which);
    }
  }

  // --- requests that do not get in each other's way

  /** The first time request `g` reads the record. */
  predicate FirstRead(states: seq<State>, steps: seq<Step>, k: nat, g: nat) {
    && Serves(states, steps, k, g)
    && var pr := states[k].running[g];
       (pr.req.Update? && pr.phase.Reading?) || (pr.req.SetDefault? && pr.phase.Fetching?)
  }

  predicate HasRead(pr: Process) {
    && (pr.req.Update? || pr.req.SetDefault?)
    && (pr.phase.Clearing? || pr.phase.Writing? || (pr.req.SetDefault? && pr.phase.Reading?))
  }

  lemma {:induction false} ReadBefore(c: Cipher, states: seq<State>, steps: seq<Step>, j: nat, g: nat)
      returns (k: nat)
    requires IsRun(c, states, steps) && j <= |steps| && g in states[j].running && HasRead(states[j].running[g])
    ensures k < j && FirstRead(states, steps, k, g) && states[k].running[g].req == states[j].running[g].req
    ensures states[k].running[g].req.id in states[k].table
  {
    assert StepAt(c, states, steps, j - 1);
    if g in states[j - 1].running && HasRead(states[j - 1].running[g])
       && states[j - 1].running[g].req == states[j].running[g].req {
      k := ReadBefore(c, states, steps, j - 1, g);
    } else {
      k := j - 1;
    }
  }

  predicate SubmitsAny(states: seq<State>, steps: seq<Step>, k: nat, id: Id) {
    Submits(states, steps, k, id, Access) || Submits(states, steps, k, id, Secret)
  }

  /** Another key for the same provider is written between the first read and the write of this request. */
  ghost predicate Disturbed(states: seq<State>, steps: seq<Step>, w: nat) {
    exists k, m :: DisturbedBy(states, steps, w, k, m)
  }

  predicate DisturbedBy(states: seq<State>, steps: seq<Step>, w: nat, k: nat, m: nat) {
    && k < m < w && w < |steps| < |states| && steps[w].Go? && steps[w].g in states[w].running
    && FirstRead(states, steps, k, steps[w].g)
    && SubmitsAny(states, steps, m, states[w].running[steps[w].g].req.id)
  }

  lemma SubmittedStays(c: Cipher, states: seq<State>, steps: seq<Step>, k: nat, id: Id)
    requires IsRun(c, states, steps) && k < |steps| && id in states[k + 1].table && !SubmitsAny(states, steps, k, id)
    ensures id in states[k].table && Submitted(states[k + 1], id) == Submitted(states[k], id)
  {
    SubmissionStep(c, states, steps, k, id, Access);
    SubmissionStep(c, states, steps, k, id, Secret);
  }

  lemma {:induction false} AllDrawn(c: Cipher, states: seq<State>, steps: seq<Step>, j: nat)
    requires IsRun(c, states, steps) && Drawn(steps) && j <= |steps|
    ensures HaveNonces(states[j])
  {
    if j > 0 {
      AllDrawn(c, states, steps, j - 1);
      assert StepAt(c, states, steps, j - 1);
      StepKeepsNonces(c, states[j - 1], steps[j - 1]);
    }
  }

  ghost predicate HaveNonces(s: State) {
    forall g :: g in s.running ==> s.running[g].n1.Some? && s.running[g].n2.Some?
  }

  lemma StepKeepsNonces(c: Cipher, s: State, step: Step)
    requires Enabled(s, step) && HaveNonces(s) && (step.Begin? ==> step.n1.Some? && step.n2.Some?)
    ensures HaveNonces(Apply(c, s, step))
  {
  }

  lemma {:induction false} CreatesHold(c: Cipher, states: seq<State>, steps: seq<Step>, j: nat)
    requires IsRun(c, states, steps) && Drawn(steps) && j <= |steps|
    ensures forall g :: g in states[j].running && states[j].running[g].req.Create? ==>
              CreateHolds(states[j].running[g])
  {
    if j > 0 {
      CreatesHold(c, states, steps, j - 1);
      assert StepAt(c, states, steps, j - 1);
    }
  }

  predicate CreateHolds(pr: Process)
    requires pr.req.Create?
  {
    (pr.phase.Clearing? || pr.phase.Writing?) && pr.keys == (pr.req.p.accessKey, pr.req.p.secretKey)
  }

  /** A request that has read holds what it should leave. */
  predicate Holds(pr: Process, now: Keys) {
    HasRead(pr) && pr.keys == if pr.phase.Reading? then now else Intended(pr.req, now)
  }

  lemma ReadHolds(c: Cipher, s: State, g: nat)
    requires g in s.running && g in Served(c, s, g).running && s.running[g].n1.Some? && s.running[g].n2.Some?
    requires (s.running[g].req.Update? && s.running[g].phase.Reading?)
             || (s.running[g].req.SetDefault? && s.running[g].phase.Fetching?)
             || Holds(s.running[g], Submitted(s, s.running[g].req.id))
    ensures Holds(Served(c, s, g).running[g], Submitted(s, s.running[g].req.id))
  {
  }

  /** What an undisturbed request holds is still in force. */
  lemma {:induction false} SeenStays(c: Cipher, states: seq<State>, steps: seq<Step>, k: nat, j: nat, g: nat)
    requires IsRun(c, states, steps) && Drawn(steps) && k < j <= |steps| && FirstRead(states, steps, k, g)
    requires g in states[j].running && states[j].running[g].req == states[k].running[g].req
    requires states[k].running[g].req.id in states[j].table
    requires forall m :: k < m < j ==> !SubmitsAny(states, steps, m, states[k].running[g].req.id)
    ensures Holds(states[j].running[g], Submitted(states[j], states[k].running[g].req.id))
    decreases j
  {
    var id := states[k].running[g].req.id;
    assert StepAt(c, states, steps, j - 1);
    AllDrawn(c, states, steps, j - 1);
    if k == j - 1 {
      assert !SubmitsAny(states, steps, k, id);
      SubmittedStays(c, states, steps, k, id);
      ReadHolds(c, states[k], g);
    } else {
      SubmittedStays(c, states, steps, j - 1, id);
      StillRunning(c, states, steps, k, j - 1, g);
      NumbersGrow(c, states, steps, k, j - 1, g);
      SeenStays(c, states, steps, k, j - 1, g);
      if steps[j - 1] == Go(g) {
        ReadHolds(c, states[j - 1], g);
      }
    }
  }

  /** Numbers are not reused, so the request running under `g` later was running all along. */
  lemma {:induction false} StillRunning(c: Cipher, states: seq<State>, steps: seq<Step>, k: nat, j: nat, g: nat)
    requires IsRun(c, states, steps) && k <= j < |steps| && g in states[k].running && g in states[j + 1].running
    ensures g in states[j].running && states[j].running[g].req == states[k].running[g].req
    ensures states[j + 1].running[g].req == states[k].running[g].req
  {
    NumbersGrow(c, states, steps, k, j, g);
    assert StepAt(c, states, steps, j);
    if k < j {
      StillRunning(c, states, steps, k, j - 1, g);
    }
  }

  lemma {:induction false} NumbersGrow(c: Cipher, states: seq<State>, steps: seq<Step>, k: nat, j: nat, g: nat)
    requires IsRun(c, states, steps) && k <= j <= |steps| && g in states[k].running
    ensures g < states[j].next
  {
    if j > 0 {
      assert StepAt(c, states, steps, j - 1);
      if k < j {
        NumbersGrow(c, states, steps, k, j - 1, g);
      } else if g in states[j - 1].running {
        NumbersGrow(c, states, steps, j - 1, j - 1, g);
      }
    }
  }

  lemma UndisturbedIsUpToDate(c: Cipher, states: seq<State>, steps: seq<Step>, w: nat)
    requires IsRun(c, states, steps) && Drawn(steps) && w < |steps| && !Disturbed(states, steps, w)
    ensures StepAt(c, states, steps, w) && UpToDate(states[w], steps[w])
  {
    assert StepAt(c, states, steps, w);
    SameIds(c, states, steps, w);
    CreatesHold(c, states, steps, w);
    if steps[w].Go? && HasRead(states[w].running[steps[w].g]) && Lands(states[w], states[w].running[steps[w].g].req) {
      var g := steps[w].g;
      var k := ReadBefore(c, states, steps, w, g);
      forall m | k < m < w ensures !SubmitsAny(states, steps, m, states[w].running[g].req.id) {
        assert !DisturbedBy(states, steps, w, k, m);
      }
      SeenStays(c, states, steps, k, w, g);
    }
  }

  /**
   As long as no client's key is written between another request's first read
   of the same provider and its write, every provider always decrypts to the
   keys last submitted for it, whatever requests fail.
   */
  lemma CredentialsSurvive(c: Cipher, states: seq<State>, steps: seq<Step>, j: nat)
    requires c.Sound() && IsRun(c, states, steps) && Drawn(steps) && j <= |steps|
    requires forall w :: 0 <= w < j ==> !Disturbed(states, steps, w)
    ensures forall i :: 0 <= i <= j ==> Kept(c, states[i])
  {
    forall w | 0 <= w < j ensures StepAt(c, states, steps, w) && UpToDate(states[w], steps[w]) {
      UndisturbedIsUpToDate(c, states, steps, w);
    }
    CredentialsSurviveIff(c, states, steps, j);
  }

  // --- an update that is lost

  /** A set-default request has read the record twice, and will write back its present secret key. */
  predicate HoldsSecret(s: State, g: nat, id: Id, secret: Bytes) {
    && g in s.running && s.running[g].req == SetDefault(id)
    && s.running[g].phase.Clearing? && s.running[g].phase.row.secretKey == secret
    && id in s.table
  }

  lemma SetDefaultReads(c: Cipher, states: seq<State>, steps: seq<Step>, id: Id, n: Option<Bytes>)
      returns (r: seq<State>, q: seq<Step>)
    requires IsRun(c, states, steps) && id in states[|steps|].table && NonceSized(n)
    ensures IsRun(c, r, q) && states <= r && steps <= q
    ensures HoldsSecret(r[|q|], states[|steps|].next, id, states[|steps|].table[id].secretKey)
    ensures r[|q|].next == states[|steps|].next + 1
  {
    var g := states[|steps|].next;
    r, q := Then(c, states, steps, Begin(SetDefault(id), n, n));
    r, q := Then(c, r, q, Go(g));
    r, q := Then(c, r, q, Go(g));
  }

  /** Meanwhile an update with a new secret key is served from start to end. */
  lemma SecretUpdated(c: Cipher, states: seq<State>, steps: seq<Step>, g: nat, id: Id, secret: Bytes, p: Provider,
        n: Option<Bytes>) returns (r: seq<State>, q: seq<Step>)
    requires IsRun(c, states, steps) && HoldsSecret(states[|steps|], g, id, secret) && g < states[|steps|].next
    requires !p.isDefault && !KeepsKey(p.secretKey) && NonceSized(n)
    ensures IsRun(c, r, q) && states <= r && steps <= q
    ensures HoldsSecret(r[|q|], g, id, secret)
    ensures id in r[|q|].submitted && r[|q|].submitted[id].1 == p.secretKey
  {
    var h := states[|steps|].next;
    r, q := Then(c, states, steps, Begin(Update(id, p), n, n));
    r, q := Then(c, r, q, Go(h));
    r, q := Then(c, r, q, Go(h));
  }

  /**
   So a submitted key can be lost: every run in which the keys are kept can go
   on with a set-default request that overlaps an update of the secret key, and
   afterwards the provider decrypts to the secret key it had before.
   */
  lemma UpdateCanBeLost(c: Cipher, states: seq<State>, steps: seq<Step>, id: Id, p: Provider,
        n: Option<Bytes>) returns (r: seq<State>, q: seq<Step>)
    requires IsRun(c, states, steps) && Kept(c, states[|steps|]) && id in states[|steps|].table
    requires NonceSized(n) && !p.isDefault && !KeepsKey(p.secretKey)
    requires p.secretKey != states[|steps|].submitted[id].1
    ensures IsRun(c, r, q) && states <= r && steps <= q
    ensures id in r[|q|].table && id in r[|q|].submitted
    ensures r[|q|].submitted[id].1 == p.secretKey
    ensures Credentials(c, r[|q|].table[id]).1 == states[|steps|].submitted[id].1 != p.secretKey
  {
    var g, secret := states[|steps|].next, states[|steps|].table[id].secretKey;
    r, q := SetDefaultReads(c, states, steps, id, n);
    r, q := SecretUpdated(c, r, q, g, id, secret, p, n);
    r, q := Then(c, r, q, Go(g));
    r, q := Then(c, r, q, Go(g));
  }
}
