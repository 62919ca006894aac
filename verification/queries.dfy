/** The read queries of the business-hours repository: the default-profile lookup,
    the by-day lookup, and the two activation resolvers a firing trigger calls. */
module BusinessHourQueries {
  import opened Wrappers
  import opened Seqs
  import opened JsParseInt
  import opened BusinessHours

  /** `{ array: { $elemMatch: cond } }`: some ONE element of the array meets the whole
      condition. */
  function ElemMatch(ws: seq<WorkHour>, cond: WorkHour -> bool): (r: bool)
    ensures r <==> exists i :: 0 <= i < |ws| && cond(ws[i])
  {
    if |ws| == 0 then false
    else if cond(ws[0]) then true
    else
      var rest := ElemMatch(ws[1..], cond);
      assert forall i :: 1 <= i < |ws| ==> ws[i] == ws[1..][i - 1];
      rest
  }

  /** `findOne({ type: SINGLE })`: the first SINGLE profile in natural order. */
  function FindOneDefaultBusinessHour(store: Store): (r: Option<Profile>)
    ensures r.Some? <==> exists p :: p in store && p.kind == Single
    ensures r.Some? ==> r.value in store && r.value.kind == Single
  {
    match FirstIndex(store, (p: Profile) => p.kind == Single)
    case None => None
    case Some(i) => Some(store[i])
  }

  /** The store-level invariant callers of insert keep: at most one SINGLE profile. */
  predicate AtMostOneSingle(store: Store) {
    forall i, j :: 0 <= i < j < |store| && store[i].kind == Single ==> store[j].kind != Single
  }

  /** Under the one-global-profile invariant the lookup returns THE global profile. */
  lemma DefaultIsTheGlobalProfile(store: Store, p: Profile)
    requires AtMostOneSingle(store)
    requires p in store && p.kind == Single
    ensures FindOneDefaultBusinessHour(store) == Some(p)
  {
    var r := FindOneDefaultBusinessHour(store);
    var i :| 0 <= i < |store| && store[i] == p;
    var j :| 0 <= j < |store| && store[j] == r.value;
    assert i == j;
  }

  /** The query `{ active: true, workHours: { $elemMatch: { day, open: true } } }`. */
  predicate ActiveAndOpenOn(p: Profile, day: string) {
    p.active && ElemMatch(p.workHours, (w: WorkHour) => w.day == day && w.open)
  }

  /** The active profiles with an open entry for `day`, each as often as it is stored. */
  function FindActiveAndOpenBusinessHoursByDay(store: Store, day: string): (r: seq<Profile>)
    ensures forall p :: p in r <==>
      p in store && p.active && exists i :: 0 <= i < |p.workHours| && p.workHours[i].day == day && p.workHours[i].open
    ensures forall p :: p in r ==> multiset(r)[p] == multiset(store)[p]
  {
    Filter(store, (p: Profile) => ActiveAndOpenOn(p, day))
  }

  /** The query of the open resolver: given type, active, offset equal to
      `parseInt(utc)` (NaN equals no stored offset), and one entry open on `day`
      that starts at `start`. */
  predicate OpensAt(p: Profile, kind: BusinessHourType, day: string, start: string, utc: string) {
    && p.kind == kind
    && p.active
    && ParseInt(utc) == Some(p.timezone.utc)
    && ElemMatch(p.workHours, (w: WorkHour) => w.day == day && w.start == start && w.open)
  }

  /** The query of the close resolver: as `OpensAt`, with `finish` for `start`;
      the entry must still be open. */
  predicate ClosesAt(p: Profile, kind: BusinessHourType, day: string, finish: string, utc: string) {
    && p.kind == kind
    && p.active
    && ParseInt(utc) == Some(p.timezone.utc)
    && ElemMatch(p.workHours, (w: WorkHour) => w.day == day && w.finish == finish && w.open)
  }

  /** When a profile must open at a trigger, stated entry by entry: it has the
      trigger's type, is active, its offset is the parsed `utc`, and one single
      entry is open on `day` and starts at `start`. */
  ghost predicate OpenTrigger(p: Profile, kind: BusinessHourType, day: string, start: string, utc: string) {
    && p.kind == kind && p.active && ParseInt(utc) == Some(p.timezone.utc)
    && exists i :: 0 <= i < |p.workHours| && p.workHours[i].day == day && p.workHours[i].start == start && p.workHours[i].open
  }

  /** When a profile must close at a trigger: as `OpenTrigger`, with `finish`. */
  ghost predicate CloseTrigger(p: Profile, kind: BusinessHourType, day: string, finish: string, utc: string) {
    && p.kind == kind && p.active && ParseInt(utc) == Some(p.timezone.utc)
    && exists i :: 0 <= i < |p.workHours| && p.workHours[i].day == day && p.workHours[i].finish == finish && p.workHours[i].open
  }

  /** The ids of the profiles to open when the trigger (kind, day, start, utc) fires. */
  function FindActiveBusinessHoursIdsToOpen(store: Store, kind: BusinessHourType, day: string, start: string, utc: string)
    : (ids: seq<string>)
    ensures |ids| <= |store|
    ensures forall id :: id in ids <==> exists p :: p in store && p.id == id && OpenTrigger(p, kind, day, start, utc)
    ensures ParseInt(utc).None? ==> ids == []
    ensures UniqueIds(store) ==> Distinct(ids)
  {
    FoundIds(store, (p: Profile) => OpensAt(p, kind, day, start, utc));
    IdsOf(Filter(store, (p: Profile) => OpensAt(p, kind, day, start, utc)))
  }

  /** The ids of the profiles to close when the trigger (kind, day, finish, utc) fires. */
  function FindActiveBusinessHoursIdsToClose(store: Store, kind: BusinessHourType, day: string, finish: string, utc: string)
    : (ids: seq<string>)
    ensures |ids| <= |store|
    ensures forall id :: id in ids <==> exists p :: p in store && p.id == id && CloseTrigger(p, kind, day, finish, utc)
    ensures ParseInt(utc).None? ==> ids == []
    ensures UniqueIds(store) ==> Distinct(ids)
  {
    FoundIds(store, (p: Profile) => ClosesAt(p, kind, day, finish, utc));
    IdsOf(Filter(store, (p: Profile) => ClosesAt(p, kind, day, finish, utc)))
  }

  /** Neither resolver returns a profile of the other type or an inactive profile. */
  lemma ResolversRespectTypeAndActive(store: Store, p: Profile, kind: BusinessHourType, day: string, time: string, utc: string)
    requires UniqueIds(store)
    requires p in store
    requires p.kind != kind || !p.active
    ensures p.id !in FindActiveBusinessHoursIdsToOpen(store, kind, day, time, utc)
    ensures p.id !in FindActiveBusinessHoursIdsToClose(store, kind, day, time, utc)
  {
  }

  /** `$elemMatch` requires one entry to match day, time and `open` together. A
      profile in which no single entry is open on `day` and starts at `t` is not
      opened at `t`, however the day, the time and `open` are spread over its
      other entries. */
  lemma SplitMatchNotOpened(store: Store, p: Profile, kind: BusinessHourType, day: string, t: string, utc: string)
    requires UniqueIds(store) && p in store
    requires forall j :: 0 <= j < |p.workHours| ==>
      !(p.workHours[j].day == day && p.workHours[j].start == t && p.workHours[j].open)
    ensures p.id !in FindActiveBusinessHoursIdsToOpen(store, kind, day, t, utc)
  {
  }

  /** Likewise, a profile in which no single entry is open on `day` and finishes
      at `t` is not closed at `t`. */
  lemma SplitMatchNotClosed(store: Store, p: Profile, kind: BusinessHourType, day: string, t: string, utc: string)
    requires UniqueIds(store) && p in store
    requires forall j :: 0 <= j < |p.workHours| ==>
      !(p.workHours[j].day == day && p.workHours[j].finish == t && p.workHours[j].open)
    ensures p.id !in FindActiveBusinessHoursIdsToClose(store, kind, day, t, utc)
  {
  }
}
