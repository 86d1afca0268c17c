/**
 The backup scheduler: its map from schedules to cron entries, kept beside
 the cron engine it drives.
 */
module Scheduler {

  type ScheduleId = string
  type EntryId = nat

  /** The part of a schedule that decides whether and when it fires. */
  datatype Schedule = Schedule(id: ScheduleId, cronExpr: string, enabled: bool)

  /** robfig/cron: live entries by number; numbers are never reused. */
  class Cron {
    /** Whether the cron parser accepts an expression. */
    const parses: string -> bool
    var live: map<EntryId, Schedule>
    var last: EntryId

    ghost predicate Valid()
      reads this
    {
      forall e :: e in live ==> e <= last
    }

    constructor (parses: string -> bool)
      ensures Valid() && live == map[] && this.parses == parses
    {
      this.parses := parses;
      live, last := map[], 0;
    }

    method AddFunc(sch: Schedule) returns (ok: bool, e: EntryId)
      requires Valid()
      modifies this
      ensures Valid() && ok == parses(sch.cronExpr)
      ensures ok ==> e !in old(live) && live == old(live)[e := sch]
      ensures !ok ==> live == old(live)
    {
      ok, e := parses(sch.cronExpr), last + 1;
      if ok {
        last := e;
        live := live[e := sch];
      }
    }

    method Remove(e: EntryId)
      requires Valid()
      modifies this
      ensures Valid() && live == old(live) - {e}
    {
      live := live - {e};
    }
  }

  // ------------------------------------------------- what should be firing

  /** The schedules that fire, by id: the simple truth the two maps must agree with. */
  type Active = map<ScheduleId, Schedule>

  datatype Event = Add(sch: Schedule) | Remove(id: ScheduleId)

  /** A schedule fires after it was added enabled with a good expression; a bad one silences it. */
  function Effect(a: Active, parses: string -> bool, ev: Event): Active {
    match ev
    case Add(sch) => if sch.enabled && parses(sch.cronExpr) then a[sch.id := sch] else a - {sch.id}
    case Remove(id) => a - {id}
  }

  function Replay(parses: string -> bool, log: seq<Event>): Active {
    if log == [] then map[] else Effect(Replay(parses, log[..|log| - 1]), parses, log[|log| - 1])
  }

  function EventId(ev: Event): ScheduleId {
    match ev case Add(sch) => sch.id case Remove(id) => id
  }

  /** Event `i` is the last one about this schedule. */
  predicate LastAbout(log: seq<Event>, i: nat, id: ScheduleId) {
    && i < |log| && EventId(log[i]) == id
    && forall j :: i < j < |log| ==> EventId(log[j]) != id
  }

  /**
   A schedule fires exactly when the last event about it was an Add, enabled
   and with an expression that parses; and then it fires as added there.
   */
  lemma {:induction false} LastEventDecides(parses: string -> bool, log: seq<Event>, i: nat, id: ScheduleId)
    requires LastAbout(log, i, id)
    ensures id in Replay(parses, log) <==> log[i].Add? && log[i].sch.enabled && parses(log[i].sch.cronExpr)
    ensures id in Replay(parses, log) ==> Replay(parses, log)[id] == log[i].sch
  {
    var n := |log| - 1;
    if i < n {
      assert log[..n][i] == log[i];
      LastEventDecides(parses, log[..n], i, id);
    }
  }

  /** And never when there was none. */
  lemma {:induction false} UnmentionedIsSilent(parses: string -> bool, log: seq<Event>, id: ScheduleId)
    requires forall i :: 0 <= i < |log| ==> EventId(log[i]) != id
    ensures id !in Replay(parses, log)
  {
    if log != [] {
      UnmentionedIsSilent(parses, log[..|log| - 1], id);
    }
  }

  // ----------------------------------------------------------- the scheduler

  class BackupScheduler {
    const cron: Cron
    var entries: map<ScheduleId, EntryId>
    /** All calls so far, for stating what the maps must hold. */
    ghost var log: seq<Event>

    /** `entries` is a bijection onto the live cron entries. */
    ghost predicate Bijection()
      reads this, cron
    {
      && (forall id :: id in entries ==> entries[id] in cron.live && cron.live[entries[id]].id == id)
      && (forall e :: e in cron.live ==> cron.live[e].id in entries && entries[cron.live[e].id] == e)
    }

    /** And the live jobs are exactly those that should fire. */
    ghost predicate Valid()
      reads this, cron
    {
      && cron.Valid() && Bijection()
      && entries.Keys == Replay(cron.parses, log).Keys
      && forall id :: id in entries ==> cron.live[entries[id]] == Replay(cron.parses, log)[id]
    }

    constructor (cron: Cron)
      requires cron.Valid() && cron.live == map[]
      ensures Valid() && this.cron == cron && entries == map[] && log == []
    {
      this.cron := cron;
      entries, log := map[], [];
    }

    /** The unexported addJob, for a schedule with no entry. */
    method AddEntry(sch: Schedule) returns (ok: bool)
      requires cron.Valid() && Bijection() && sch.id !in entries
      modifies this`entries, cron
      ensures cron.Valid() && Bijection()
      ensures ok == cron.parses(sch.cronExpr)
      ensures entries.Keys == if ok then old(entries).Keys + {sch.id} else old(entries).Keys
      ensures ok ==> cron.live[entries[sch.id]] == sch
      ensures forall id :: id in old(entries) ==>
                entries[id] == old(entries)[id] && cron.live[entries[id]] == old(cron.live[entries[id]])
    {
      var e;
      ok, e := cron.AddFunc(sch);
      if ok {
        entries := entries[sch.id := e];
      }
    }

    method DropEntry(id: ScheduleId)
      requires cron.Valid() && Bijection()
      modifies this`entries, cron
      ensures cron.Valid() && Bijection()
      ensures entries == old(entries) - {id}
      ensures forall x :: x in entries ==> cron.live[entries[x]] == old(cron.live[entries[x]])
    {
      if id in entries {
        cron.Remove(entries[id]);
        entries := entries - {id};
      }
    }

    method AddJob(sch: Schedule) returns (ok: bool)
      requires Valid()
      modifies this, cron
      ensures Valid() && log == old(log) + [Add(sch)]
      ensures ok <==> !sch.enabled || cron.parses(sch.cronExpr)
    {
      LogStep(Add(sch));
      ghost var active := Replay(cron.parses, log);
      log := log + [Add(sch)];
      DropEntry(sch.id);
      assert entries.Keys == active.Keys - {sch.id};
      if !sch.enabled {
        return true;
      }
      ok := AddEntry(sch);
    }

    method RemoveJob(id: ScheduleId)
      requires Valid()
      modifies this, cron
      ensures Valid() && log == old(log) + [Remove(id)]
    {
      LogStep(Remove(id));
      log := log + [Remove(id)];
      DropEntry(id);
    }

    lemma LogStep(ev: Event)
      ensures Replay(cron.parses, log + [ev]) == Effect(Replay(cron.parses, log), cron.parses, ev)
    {
      assert (log + [ev])[..|log|] == log;
    }

    /**
     Start on an empty scheduler. The loop only looks at enabled schedules and
     drops no earlier entry, so the ids of the list must be distinct, as the
     primary keys they are.
     */
    method Start(schedules: seq<Schedule>)
      requires Valid() && log == [] && entries == map[]
      requires forall i, j :: 0 <= i < j < |schedules| ==> schedules[i].id != schedules[j].id
      modifies this, cron
      ensures Valid() && log == seq(|schedules|, i requires 0 <= i < |schedules| => Add(schedules[i]))
    {
      var i := 0;
      while i < |schedules|
        invariant 0 <= i <= |schedules| && |log| == i
        invariant Valid()
        invariant forall k :: 0 <= k < i ==> log[k] == Add(schedules[k])
        invariant forall id :: id in entries ==> exists k :: 0 <= k < i && schedules[k].id == id
      {
        var sch := schedules[i];
        LogStep(Add(sch));
        log := log + [Add(sch)];
        if sch.enabled {
          var ok := AddEntry(sch);
        }
        i := i + 1;
      }
    }
  }
}
