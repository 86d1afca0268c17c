/**
 The backups table, the record updates of the backup service, and retention.
 The service's methods are proved against functions on the table.
 */
module BackupRecords {
  import opened Bytes

  type Id = string

  datatype Kind = FullBackup | IncrementalBackup

  datatype Status = Running | Success | Failed | Verifying

  datatype VerifyStatus = Pending | InProgress | Passed | NotPassed

  /** The columns of a backup that decide its fate. */
  datatype Row = Row(schedule: Option<Id>, kind: Kind, createdAt: int,
                     status: Status, verify: VerifyStatus, checksum: string)

  type Table = map<Id, Row>

  // ------------------------------------------------------- record updates

  function Started(schedule: Option<Id>, kind: Kind, now: int): Row {
    Row(schedule, kind, now, Running, Pending, "")
  }

  /** completeBackup or failBackup; only a completed full backup with encryption sets a checksum. */
  function Ended(row: Row, ok: bool, checksum: string): Row {
    if ok then row.(status := Success, checksum := checksum) else row.(status := Failed)
  }

  function VerifyStarted(row: Row): Row {
    row.(status := Verifying, verify := InProgress)
  }

  /** The success path of runVerification, or failVerification. */
  function VerifyEnded(row: Row, passed: bool, checksum: string): Row {
    if passed then row.(status := Success, verify := Passed, checksum := checksum)
    else row.(status := Failed, verify := NotPassed)
  }

  /** UPDATE ... WHERE id = $13: nothing happens to a row that is gone. */
  function Updated(t: Table, id: Id, row: Row): Table {
    if id in t then t[id := row] else t
  }

  // -------------------------------------------------------------- retention

  predicate IsSuccessOf(row: Row, schedule: Id, kind: Kind) {
    row.schedule == Some(schedule) && row.kind == kind && row.status == Success
  }

  function Successes(t: Table, schedule: Id, kind: Kind): (ids: set<Id>)
    ensures forall id :: id in ids <==>
              id in t && t[id].schedule == Some(schedule) && t[id].kind == kind && t[id].status == Success
  {
    set id | id in t && IsSuccessOf(t[id], schedule, kind)
  }

  /** No record listed twice. */
  predicate Distinct(q: seq<Id>) {
    forall i, j :: 0 <= i < j < |q| ==> q[i] != q[j]
  }

  predicate OldestFirst(t: Table, q: seq<Id>) {
    forall i, j :: 0 <= i < j < |q| && q[i] in t && q[j] in t ==> t[q[i]].createdAt <= t[q[j]].createdAt
  }

  function Members(q: seq<Id>): set<Id> {
    set id | id in q
  }

  /**
   A possible answer to the retention query: the successful backups of a
   schedule and type, oldest first; rows created at the same instant may come
   in any order.
   */
  predicate IsQueryResult(t: Table, schedule: Id, kind: Kind, q: seq<Id>) {
    Distinct(q) && Members(q) == Successes(t, schedule, kind) && OldestFirst(t, q)
  }

  /** `bs[:len(bs)-keepCount]`, or nothing when there are few enough. */
  function Oldest(q: seq<Id>, keep: nat): seq<Id> {
    if |q| <= keep then [] else q[..|q| - keep]
  }

  function Newest(q: seq<Id>, keep: nat): seq<Id> {
    if |q| <= keep then q else q[|q| - keep..]
  }

  /** How one pass over a type went: whether the listing worked, what it listed, which deletes failed. */
  datatype Pass = Pass(listed: bool, q: seq<Id>, failed: set<Id>)

  /** The table after one pass. A limit that is not positive disables it. */
  function Swept(t: Table, keep: int, p: Pass): Table {
    if keep <= 0 || !p.listed then t else t - (Members(Oldest(p.q, keep)) - p.failed)
  }

  lemma DistinctMembers(q: seq<Id>)
    requires Distinct(q)
    ensures |Members(q)| == |q|
    decreases |q|
  {
    if q != [] {
      var last := |q| - 1;
      DistinctMembers(q[..last]);
      assert Members(q) == Members(q[..last]) + {q[last]};
      assert q[last] !in q[..last];
    }
  }

  lemma Split(q: seq<Id>, keep: nat)
    requires Distinct(q)
    ensures q == Oldest(q, keep) + Newest(q, keep)
    ensures Members(q) == Members(Oldest(q, keep)) + Members(Newest(q, keep))
    ensures Members(Oldest(q, keep)) !! Members(Newest(q, keep))
    ensures |Members(Newest(q, keep))| == if |q| <= keep then |q| else keep
  {
    assert q == Oldest(q, keep) + Newest(q, keep);
    DistinctMembers(Newest(q, keep));
  }

  /**
   One pass keeps exactly the newest min(n, keep) successful backups of its
   schedule and type, and those whose delete failed; nothing it keeps among the
   newest is older than anything it removes; every other record is left alone.
   */
  lemma PassKeepsNewest(t: Table, schedule: Id, kind: Kind, keep: int, p: Pass)
    requires keep > 0 && p.listed && IsQueryResult(t, schedule, kind, p.q)
    ensures var t' := Swept(t, keep, p);
            var n := |Successes(t, schedule, kind)|;
            var kept := Members(Newest(p.q, keep));
            && kept <= Successes(t, schedule, kind)
            && |kept| == (if n <= keep then n else keep)
            && Successes(t', schedule, kind) == kept + (Successes(t, schedule, kind) - kept) * p.failed
            && (forall a, b :: a in kept && b in t && b !in t' ==> t[b].createdAt <= t[a].createdAt)
            && (forall id :: id in t && !IsSuccessOf(t[id], schedule, kind) ==> id in t')
            && (forall id :: id in t' ==> id in t && t'[id] == t[id])
  {
    Split(p.q, keep);
    DistinctMembers(p.q);
    SweptSuccesses(t, schedule, kind, keep, p);
    forall a, b | a in Members(Newest(p.q, keep)) && b in t && b !in Swept(t, keep, p)
      ensures t[b].createdAt <= t[a].createdAt
    {
      NewestAreNewer(t, p.q, keep, a, b);
    }
  }

  lemma SweptSuccesses(t: Table, schedule: Id, kind: Kind, keep: int, p: Pass)
    requires keep > 0 && p.listed && IsQueryResult(t, schedule, kind, p.q)
    ensures var kept := Members(Newest(p.q, keep));
            Successes(Swept(t, keep, p), schedule, kind) == kept + (Successes(t, schedule, kind) - kept) * p.failed
  {
    Split(p.q, keep);
    SuccessesWithout(t, schedule, kind, Members(Oldest(p.q, keep)) - p.failed);
    SetAlgebra(Members(Oldest(p.q, keep)), Members(Newest(p.q, keep)), p.failed);
  }

  lemma SuccessesWithout(t: Table, schedule: Id, kind: Kind, gone: set<Id>)
    ensures Successes(t - gone, schedule, kind) == Successes(t, schedule, kind) - gone
  {
  }

  lemma SetAlgebra(gone: set<Id>, kept: set<Id>, failed: set<Id>)
    requires gone !! kept
    ensures (gone + kept) - (gone - failed) == kept + ((gone + kept) - kept) * failed
  {
  }

  lemma NewestAreNewer(t: Table, q: seq<Id>, keep: nat, a: Id, b: Id)
    requires OldestFirst(t, q) && a in t && b in t
    requires a in Members(Newest(q, keep)) && b in Members(Oldest(q, keep))
    ensures t[b].createdAt <= t[a].createdAt
  {
    var i :| 0 <= i < |Oldest(q, keep)| && Oldest(q, keep)[i] == b;
    var j :| 0 <= j < |Newest(q, keep)| && Newest(q, keep)[j] == a;
    assert q[i] == b && q[|q| - keep + j] == a;
  }

  lemma FewListedIdle(t: Table, schedule: Id, kind: Kind, keep: int, p: Pass)
    requires keep > 0 && p.listed && IsQueryResult(t, schedule, kind, p.q)
    requires |Successes(t, schedule, kind)| <= keep
    ensures Swept(t, keep, p) == t
  {
    DistinctMembers(p.q);
    assert Oldest(p.q, keep) == [];
    assert Members([]) - p.failed == {};
  }

  /** A pass over one type never changes what a pass over the other would see. */
  lemma PassesAreIndependent(t: Table, schedule: Id, kind: Kind, other: Kind, keep: int, p: Pass)
    requires kind != other
    requires keep > 0 && p.listed ==> IsQueryResult(t, schedule, kind, p.q)
    ensures Successes(Swept(t, keep, p), schedule, other) == Successes(t, schedule, other)
  {
    if keep > 0 && p.listed {
      var gone := Members(Oldest(p.q, keep)) - p.failed;
      assert gone !! Successes(t, schedule, other) by {
        Split(p.q, keep);
        assert gone <= Successes(t, schedule, kind);
      }
      SuccessesWithout(t, schedule, other, gone);
    }
  }

  /** What an enforcement with working deletes must leave of one type. */
  function Remaining(t: Table, schedule: Id, kind: Kind, keep: int, p: Pass): set<Id> {
    if keep > 0 then Members(Newest(p.q, keep)) else Successes(t, schedule, kind)
  }

  /** This pass, if it is not disabled, listed these backups and all its deletes worked. */
  predicate Worked(t: Table, schedule: Id, kind: Kind, keep: int, p: Pass) {
    keep > 0 ==> p.listed && p.failed == {} && IsQueryResult(t, schedule, kind, p.q)
  }

  /**
   A whole enforcement with working deletes: each type with a positive limit is
   left with exactly its newest min(n, keep) successful backups, a type whose
   limit is not positive keeps them all, and no other record is touched.
   */
  lemma EnforcementKeepsNewest(t: Table, schedule: Id, keepFull: int, keepIncr: int, full: Pass, incr: Pass)
    requires Worked(t, schedule, FullBackup, keepFull, full)
    requires Worked(Swept(t, keepFull, full), schedule, IncrementalBackup, keepIncr, incr)
    ensures var t' := Swept(Swept(t, keepFull, full), keepIncr, incr);
            && Successes(t', schedule, FullBackup) == Remaining(t, schedule, FullBackup, keepFull, full)
            && Successes(t', schedule, IncrementalBackup) == Remaining(t, schedule, IncrementalBackup, keepIncr, incr)
            && Worked(t, schedule, IncrementalBackup, keepIncr, incr)
            && (forall id :: id in t && !(t[id].schedule == Some(schedule) && t[id].status == Success) ==>
                  id in t' && t'[id] == t[id])
  {
    var mid := Swept(t, keepFull, full);
    PassLeaves(t, schedule, FullBackup, keepFull, full);
    PassesAreIndependent(t, schedule, FullBackup, IncrementalBackup, keepFull, full);
    if keepIncr > 0 {
      SameQuery(t, keepFull, full, schedule, IncrementalBackup, incr.q);
    }
    PassLeaves(mid, schedule, IncrementalBackup, keepIncr, incr);
    PassesAreIndependent(mid, schedule, IncrementalBackup, FullBackup, keepIncr, incr);
  }

  lemma SameQuery(t: Table, keep: int, p: Pass, schedule: Id, kind: Kind, q: seq<Id>)
    requires Successes(Swept(t, keep, p), schedule, kind) == Successes(t, schedule, kind)
    requires IsQueryResult(Swept(t, keep, p), schedule, kind, q)
    ensures IsQueryResult(t, schedule, kind, q)
  {
    forall i | 0 <= i < |q| ensures q[i] in Swept(t, keep, p) {
      assert q[i] in Members(q);
    }
  }

  /** Of a type with a positive limit, an enforcement with working deletes leaves no more than that. */
  lemma EnforcementBounds(t: Table, schedule: Id, keepFull: int, keepIncr: int, full: Pass, incr: Pass)
    requires Worked(t, schedule, FullBackup, keepFull, full)
    requires Worked(Swept(t, keepFull, full), schedule, IncrementalBackup, keepIncr, incr)
    ensures var t' := Swept(Swept(t, keepFull, full), keepIncr, incr);
            && (keepFull > 0 ==> |Successes(t', schedule, FullBackup)| <= keepFull)
            && (keepIncr > 0 ==> |Successes(t', schedule, IncrementalBackup)| <= keepIncr)
  {
    EnforcementKeepsNewest(t, schedule, keepFull, keepIncr, full, incr);
    if keepFull > 0 {
      Split(full.q, keepFull);
    }
    if keepIncr > 0 {
      Split(incr.q, keepIncr);
    }
  }

  /**
   When every delete of an enforcement succeeds, a second one, full pass and
   incremental pass, deletes nothing: whatever order ties come in, whichever
   limits are positive, and even if some of its own listings or deletes fail.
   */
  lemma SecondEnforcementIsIdle(t: Table, schedule: Id, keepFull: int, keepIncr: int,
        full: Pass, incr: Pass, fullAgain: Pass, incrAgain: Pass)
    requires Worked(t, schedule, FullBackup, keepFull, full)
    requires Worked(Swept(t, keepFull, full), schedule, IncrementalBackup, keepIncr, incr)
    requires var u := Swept(Swept(t, keepFull, full), keepIncr, incr);
             && (keepFull > 0 && fullAgain.listed ==> IsQueryResult(u, schedule, FullBackup, fullAgain.q))
             && (keepIncr > 0 && incrAgain.listed ==>
                   IsQueryResult(Swept(u, keepFull, fullAgain), schedule, IncrementalBackup, incrAgain.q))
    ensures var u := Swept(Swept(t, keepFull, full), keepIncr, incr);
            Swept(Swept(u, keepFull, fullAgain), keepIncr, incrAgain) == u
  {
    var u := Swept(Swept(t, keepFull, full), keepIncr, incr);
    EnforcementBounds(t, schedule, keepFull, keepIncr, full, incr);
    IdleWhenFew(u, schedule, FullBackup, keepFull, fullAgain);
    IdleWhenFew(u, schedule, IncrementalBackup, keepIncr, incrAgain);
  }

  lemma IdleWhenFew(t: Table, schedule: Id, kind: Kind, keep: int, p: Pass)
    requires keep > 0 ==> |Successes(t, schedule, kind)| <= keep
    requires keep > 0 && p.listed ==> IsQueryResult(t, schedule, kind, p.q)
    ensures Swept(t, keep, p) == t
  {
    if keep > 0 && p.listed {
      FewListedIdle(t, schedule, kind, keep, p);
    }
  }

  lemma PassLeaves(t: Table, schedule: Id, kind: Kind, keep: int, p: Pass)
    requires Worked(t, schedule, kind, keep, p)
    ensures Successes(Swept(t, keep, p), schedule, kind) == Remaining(t, schedule, kind, keep, p)
    ensures forall id :: id in t && !IsSuccessOf(t[id], schedule, kind) ==>
              id in Swept(t, keep, p) && Swept(t, keep, p)[id] == t[id]
  {
    if keep > 0 {
      SweptSuccesses(t, schedule, kind, keep, p);
      NoneFailed(Successes(t, schedule, kind), Members(Newest(p.q, keep)));
      Split(p.q, keep);
    }
  }

  lemma NoneFailed(all: set<Id>, kept: set<Id>)
    ensures kept + (all - kept) * {} == kept
  {
  }

  lemma InsertedOnce(a: seq<Id>, b: seq<Id>, id: Id)
    requires Distinct(a + b) && id !in a + b
    ensures Distinct(a + [id] + b)
    ensures Members(a + [id] + b) == Members(a + b) + {id}
  {
    var q, r := a + b, a + [id] + b;
    forall i, j | 0 <= i < j < |r| ensures r[i] != r[j] {
      var i', j' := if i < |a| then i else i - 1, if j < |a| then j else j - 1;
      assert i != |a| ==> r[i] == q[i'];
      assert j != |a| ==> r[j] == q[j'];
    }
  }

  lemma InsertedInOrder(t: Table, a: seq<Id>, b: seq<Id>, id: Id)
    requires OldestFirst(t, a + b) && id in t && forall x :: x in a + b ==> x in t
    requires forall i :: 0 <= i < |a| ==> t[(a + b)[i]].createdAt <= t[id].createdAt
    requires b != [] ==> t[id].createdAt <= t[b[0]].createdAt
    ensures OldestFirst(t, a + [id] + b)
  {
    var q, r := a + b, a + [id] + b;
    forall i, j | 0 <= i < j < |r| ensures t[r[i]].createdAt <= t[r[j]].createdAt {
      var i', j' := if i < |a| then i else i - 1, if j < |a| then j else j - 1;
      assert i != |a| ==> r[i] == q[i'] && q[i'] in t;
      assert j != |a| ==> r[j] == q[j'] && q[j'] in t;
      if i == |a| {
        assert q[|a|] == b[0] && q[|a|] in t;
      }
    }
  }

  // ------------------------------------------------------------ the service

  /** The in-memory record a goroutine works on. */
  class Backup {
    const id: Id
    var row: Row

    constructor (id: Id, row: Row)
      ensures this.id == id && this.row == row
    {
      this.id, this.row := id, row;
    }
  }

  /**
   Every call to the database may fail; how it goes is an argument: `works`
   for one call, `broken` for the records whose deletes fail.
   */
  class BackupService {
    var rows: Table

    constructor ()
      ensures rows == map[]
    {
      rows := map[];
    }

    /** The repository's Update: it reports no error for a row that is gone. */
    method Update(b: Backup, works: bool) returns (ok: bool)
      modifies this
      ensures ok == works
      ensures works && b.id in old(rows) ==> rows == old(rows)[b.id := b.row]
      ensures !works || b.id !in old(rows) ==> rows == old(rows)
    {
      if !works {
        return false;
      }
      if b.id in rows {
        rows := rows[b.id := b.row];
      }
      ok := true;
    }

    /** StartBackup up to its Create; `id` is the fresh UUID. */
    method StartBackup(id: Id, schedule: Option<Id>, kind: Kind, now: int, works: bool) returns (b: Backup?)
      requires id !in rows
      modifies this
      ensures b != null <==> works
      ensures b != null ==> fresh(b) && b.id == id && b.row == Started(schedule, kind, now)
      ensures b != null ==> b.row.schedule == schedule && b.row.kind == kind && b.row.createdAt == now
      ensures b != null ==> b.row.status == Running && b.row.verify == Pending && b.row.checksum == ""
      ensures rows == if b != null then old(rows)[id := b.row] else old(rows)
    {
      if !works {
        return null;
      }
      b := new Backup(id, Row(schedule, kind, now, Running, Pending, ""));
      rows := rows[id := b.row];
    }

    /** A failing update is only logged, here and in the next two. */
    method CompleteBackup(b: Backup, checksum: string, works: bool)
      modifies this, b
      ensures b.row == Ended(old(b.row), true, checksum)
      ensures b.row == old(b.row).(status := Success, checksum := checksum)
      ensures rows == if works then Updated(old(rows), b.id, b.row) else old(rows)
    {
      b.row := b.row.(status := Success);
      b.row := b.row.(checksum := checksum);
      var ok := Update(b, works);
    }

    method FailBackup(b: Backup, works: bool)
      modifies this, b
      ensures b.row == Ended(old(b.row), false, "")
      ensures b.row == old(b.row).(status := Failed)
      ensures rows == if works then Updated(old(rows), b.id, b.row) else old(rows)
    {
      b.row := b.row.(status := Failed);
      var ok := Update(b, works);
    }

    /** StartVerification: refused exactly when the record is missing, not "success", or cannot be updated. */
    method StartVerification(id: Id, works: bool) returns (b: Backup?)
      modifies this
      ensures b != null <==> id in old(rows) && old(rows)[id].status == Success && works
      ensures b != null ==> fresh(b) && b.id == id && b.row == VerifyStarted(old(rows)[id])
      ensures b != null ==> b.row == old(rows)[id].(status := Verifying, verify := InProgress)
      ensures rows == if b != null then old(rows)[id := b.row] else old(rows)
    {
      if id !in rows || rows[id].status != Success {
        return null;
      }
      var copy := new Backup(id, rows[id]);
      copy.row := copy.row.(verify := InProgress);
      copy.row := copy.row.(status := Verifying);
      var ok := Update(copy, works);
      b := if ok then copy else null;
    }

    /** The last part of runVerification, given the verdict of the streamed check. */
    method FinishVerification(b: Backup, passed: bool, checksum: string, works: bool)
      modifies this, b
      ensures b.row == VerifyEnded(old(b.row), passed, checksum)
      ensures passed ==> b.row == old(b.row).(status := Success, verify := Passed, checksum := checksum)
      ensures !passed ==> b.row == old(b.row).(status := Failed, verify := NotPassed)
      ensures rows == if works then Updated(old(rows), b.id, b.row) else old(rows)
    {
      if passed {
        b.row := b.row.(checksum := checksum, verify := Passed, status := Success);
      } else {
        b.row := b.row.(verify := NotPassed, status := Failed);
      }
      var ok := Update(b, works);
    }

    /** Fails exactly when the record is gone or the table cannot be changed. A failing object delete is only logged. */
    method Delete(id: Id, works: bool) returns (ok: bool)
      modifies this
      ensures ok <==> id in old(rows) && works
      ensures rows == if works then old(rows) - {id} else old(rows)
    {
      if id !in rows || !works {
        return false;
      }
      rows := rows - {id};
      ok := true;
    }

    /** Where a record goes in a list that is oldest first. */
    method Insert(q: seq<Id>, id: Id) returns (r: seq<Id>)
      requires Distinct(q) && OldestFirst(rows, q) && id !in q
      requires id in rows && forall x :: x in q ==> x in rows
      ensures Distinct(r) && OldestFirst(rows, r) && Members(r) == Members(q) + {id}
    {
      var k := 0;
      while k < |q| && rows[q[k]].createdAt <= rows[id].createdAt
        invariant 0 <= k <= |q|
        invariant forall i :: 0 <= i < k ==> rows[q[i]].createdAt <= rows[id].createdAt
      {
        k := k + 1;
      }
      r := q[..k] + [id] + q[k..];
      assert q == q[..k] + q[k..];
      InsertedOnce(q[..k], q[k..], id);
      InsertedInOrder(rows, q[..k], q[k..], id);
    }

    /** The SELECT ... ORDER BY created_at ASC behind the retention listing. */
    method QuerySuccesses(schedule: Id, kind: Kind) returns (q: seq<Id>)
      ensures IsQueryResult(rows, schedule, kind, q)
    {
      q := [];
      var left := Successes(rows, schedule, kind);
      while left != {}
        invariant left <= Successes(rows, schedule, kind)
        invariant Distinct(q) && OldestFirst(rows, q)
        invariant Members(q) == Successes(rows, schedule, kind) - left
        decreases left
      {
        var id :| id in left;
        assert id !in Members(q);
        assert forall x :: x in q ==> x in Members(q);
        q := Insert(q, id);
        left := left - {id};
      }
    }

    method ListOldestByBackupType(schedule: Id, kind: Kind, keep: nat) returns (list: seq<Id>)
      ensures exists q :: IsQueryResult(rows, schedule, kind, q) && list == Oldest(q, keep)
      ensures forall id :: id in list ==>
                id in rows && rows[id].schedule == Some(schedule) && rows[id].kind == kind && rows[id].status == Success
    {
      var bs := QuerySuccesses(schedule, kind);
      assert forall id :: id in bs ==> id in Members(bs);
      if |bs| <= keep {
        return [];
      }
      list := bs[..|bs| - keep];
    }

    /** The deletes of one pass: every record is tried, whether or not earlier deletes failed. */
    method DeleteAll(ids: seq<Id>, broken: set<Id>)
      modifies this
      ensures rows == old(rows) - (Members(ids) - broken)
    {
      var i := 0;
      while i < |ids|
        invariant 0 <= i <= |ids|
        invariant rows == old(rows) - (Members(ids[..i]) - broken)
      {
        assert ids[..i + 1] == ids[..i] + [ids[i]];
        assert Members(ids[..i + 1]) == Members(ids[..i]) + {ids[i]};
        var ok := Delete(ids[i], ids[i] !in broken);
        i := i + 1;
      }
      assert ids[..i] == ids;
    }

    /** One half of EnforceRetention; nothing is deleted when the listing fails. */
    method EnforceType(schedule: Id, kind: Kind, keep: int, listed: bool, broken: set<Id>) returns (ghost p: Pass)
      modifies this
      ensures p.listed == listed && p.failed == broken
      ensures rows == Swept(old(rows), keep, p)
      ensures !listed || keep <= 0 ==> rows == old(rows)
      ensures p.listed && keep > 0 ==> IsQueryResult(old(rows), schedule, kind, p.q)
    {
      p := Pass(listed, [], broken);
      if keep > 0 && listed {
        var list := ListOldestByBackupType(schedule, kind, keep);
        ghost var q :| IsQueryResult(rows, schedule, kind, q) && list == Oldest(q, keep);
        DeleteAll(list, broken);
        p := Pass(true, q, broken);
      }
    }

    /** `listFull` and `listIncr` say whether the two listings work. */
    method EnforceRetention(schedule: Id, keepFull: int, keepIncr: int, listFull: bool, listIncr: bool,
          broken: set<Id>) returns (ghost full: Pass, ghost incr: Pass)
      modifies this
      ensures full.listed == listFull && incr.listed == listIncr && full.failed == incr.failed == broken
      ensures rows == Swept(Swept(old(rows), keepFull, full), keepIncr, incr)
      ensures (!listFull || keepFull <= 0) && (!listIncr || keepIncr <= 0) ==> rows == old(rows)
      ensures listFull && keepFull > 0 ==> IsQueryResult(old(rows), schedule, FullBackup, full.q)
      ensures listIncr && keepIncr > 0 ==>
                IsQueryResult(Swept(old(rows), keepFull, full), schedule, IncrementalBackup, incr.q)
    {
      full := EnforceType(schedule, FullBackup, keepFull, listFull, broken);
      incr := EnforceType(schedule, IncrementalBackup, keepIncr, listIncr, broken);
    }
  }
}
