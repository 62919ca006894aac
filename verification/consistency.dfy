/** How the two halves of the scheduler fit together: the schedule registers a
    trigger for every (day, offset, time) at which the resolvers can report a
    profile to open or to close. */
module ScheduleConsistency {
  import opened JsParseInt
  import opened BusinessHours
  import opened BusinessHourQueries
  import opened ScheduleDeriver

  /** A registered group for (day, utc) lists `start` among its opening times. */
  ghost predicate OpeningRegistered(sched: seq<CronGroup>, day: string, utc: int, start: string) {
    exists i :: 0 <= i < |sched| && sched[i].day == day && sched[i].utc == utc && start in sched[i].start
  }

  /** A registered group for (day, utc) lists `finish` among its closing times. */
  ghost predicate ClosingRegistered(sched: seq<CronGroup>, day: string, utc: int, finish: string) {
    exists i :: 0 <= i < |sched| && sched[i].day == day && sched[i].utc == utc && finish in sched[i].finish
  }

  /** A group exists for `(day, utc)` whenever the store has an open entry there. */
  lemma GroupFor(store: Store, day: string, utc: int) returns (i: nat)
    requires HasOpenEntry(store, day, utc)
    ensures var sched := FindHoursToScheduleJobs(store);
      i < |sched| && sched[i].day == day && sched[i].utc == utc
  {
    var sched := FindHoursToScheduleJobs(store);
    assert (day, utc) in GroupKeys(sched);
    i := KeyIndex(sched, (day, utc));
  }

  /** Whenever the open resolver returns an id, the trigger it answered was registered. */
  lemma OpeningsAreScheduled(store: Store, kind: BusinessHourType, day: string, start: string, utc: string, id: string)
    requires id in FindActiveBusinessHoursIdsToOpen(store, kind, day, start, utc)
    ensures ParseInt(utc).Some?
    ensures OpeningRegistered(FindHoursToScheduleJobs(store), day, ParseInt(utc).value, start)
  {
    var p :| p in store && p.id == id && OpenTrigger(p, kind, day, start, utc);
    var j :| 0 <= j < |p.workHours| && p.workHours[j].day == day && p.workHours[j].start == start && p.workHours[j].open;
    var w := p.workHours[j];
    var u := p.timezone.utc;
    assert HasOpenEntry(store, day, u) by {
      assert p in store && w in p.workHours;
    }
    var i := GroupFor(store, day, u);
    var sched := FindHoursToScheduleJobs(store);
    assert start in OpenStarts(store, day, u) by {
      assert p in store && w in p.workHours;
    }
    assert start in Seqs.Elems(sched[i].start);
  }

  /** Whenever the close resolver returns an id, the trigger it answered was registered. */
  lemma ClosingsAreScheduled(store: Store, kind: BusinessHourType, day: string, finish: string, utc: string, id: string)
    requires id in FindActiveBusinessHoursIdsToClose(store, kind, day, finish, utc)
    ensures ParseInt(utc).Some?
    ensures ClosingRegistered(FindHoursToScheduleJobs(store), day, ParseInt(utc).value, finish)
  {
    var p :| p in store && p.id == id && CloseTrigger(p, kind, day, finish, utc);
    var j :| 0 <= j < |p.workHours| && p.workHours[j].day == day && p.workHours[j].finish == finish && p.workHours[j].open;
    var w := p.workHours[j];
    var u := p.timezone.utc;
    assert HasOpenEntry(store, day, u) by {
      assert p in store && w in p.workHours;
    }
    var i := GroupFor(store, day, u);
    var sched := FindHoursToScheduleJobs(store);
    assert finish in OpenFinishes(store, day, u) by {
      assert p in store && w in p.workHours;
    }
    assert finish in Seqs.Elems(sched[i].finish);
  }

  /** Conversely, a trigger fired with the rendered offset of a profile opens it
      whenever the profile is active, has the trigger's type and has an open entry
      on `day` starting at `start`. */
  lemma ScheduledTriggerOpens(store: Store, p: Profile, kind: BusinessHourType, day: string, start: string, j: nat)
    requires p in store && p.kind == kind && p.active
    requires j < |p.workHours| && p.workHours[j].day == day && p.workHours[j].start == start && p.workHours[j].open
    ensures p.id in FindActiveBusinessHoursIdsToOpen(store, kind, day, start, JsString(p.timezone.utc))
  {
    ParseIntOfRendering(p.timezone.utc, []);
    assert JsString(p.timezone.utc) + [] == JsString(p.timezone.utc);
    assert OpenTrigger(p, kind, day, start, JsString(p.timezone.utc));
  }

  /** The same for the close trigger and an open entry finishing at `finish`. */
  lemma ScheduledTriggerCloses(store: Store, p: Profile, kind: BusinessHourType, day: string, finish: string, j: nat)
    requires p in store && p.kind == kind && p.active
    requires j < |p.workHours| && p.workHours[j].day == day && p.workHours[j].finish == finish && p.workHours[j].open
    ensures p.id in FindActiveBusinessHoursIdsToClose(store, kind, day, finish, JsString(p.timezone.utc))
  {
    ParseIntOfRendering(p.timezone.utc, []);
    assert JsString(p.timezone.utc) + [] == JsString(p.timezone.utc);
    assert CloseTrigger(p, kind, day, finish, JsString(p.timezone.utc));
  }
}
