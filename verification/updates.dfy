/** The write operations of the business-hours repository: insertion, the field-wise
    `updateOne` by id, and the legacy positional update of one weekday of the
    global profile. Each returns the new store with the driver's counts. */
module BusinessHourUpdates {
  import opened Wrappers
  import opened Seqs
  import opened BusinessHours

  /** The store after an update, with `matchedCount` and `modifiedCount`. */
  datatype UpdateResult = UpdateResult(store: Store, matchedCount: nat, modifiedCount: nat)

  /** The document handed to `insertOne`. Its `_id` may be absent, in which case
      the generated one is used. */
  datatype ProfileData = ProfileData(
    id: Option<string>,
    kind: BusinessHourType,
    active: bool,
    timezone: Timezone,
    workHours: seq<WorkHour>)

  /** `insertOne(data)`: the document `{ _id: <generated id>, ...data }` is appended.
      The spread comes last, so an `_id` carried by `data` replaces the generated
      one (the ObjectId, here the parameter `freshId`). The `_id` index rejects a
      key already stored: that duplicate-key error is `None`. */
  function InsertOne(store: Store, freshId: string, data: ProfileData): (r: Option<Store>)
    ensures var id := data.id.GetOr(freshId);
      r.None? <==> exists i :: 0 <= i < |store| && store[i].id == id
    ensures r.Some? ==> |r.value| == |store| + 1 && r.value[..|store|] == store
    ensures r.Some? ==> r.value[|store|].id == data.id.GetOr(freshId)
    ensures r.Some? ==> r.value[|store|].kind == data.kind && r.value[|store|].active == data.active
    ensures r.Some? ==> r.value[|store|].timezone == data.timezone && r.value[|store|].workHours == data.workHours
    ensures r.Some? && UniqueIds(store) ==> UniqueIds(r.value)
  {
    var id := data.id.GetOr(freshId);
    if exists i :: 0 <= i < |store| && store[i].id == id then None
    else Some(store + [Profile(id, data.kind, data.active, data.timezone, data.workHours)])
  }

  // ---------------------------------------------------------------- updateOne

  /** The top-level fields of `data` in `updateOne(_id, data)`; `None` is a key
      absent from `data`. `_id` is not among them. */
  datatype ProfilePatch = ProfilePatch(
    kind: Option<BusinessHourType>,
    active: Option<bool>,
    timezone: Option<Timezone>,
    workHours: Option<seq<WorkHour>>)

  /** `$set: { ...data }` on one document. */
  function SetFields(p: Profile, patch: ProfilePatch): Profile {
    p.(kind := patch.kind.GetOr(p.kind),
       active := patch.active.GetOr(p.active),
       timezone := patch.timezone.GetOr(p.timezone),
       workHours := patch.workHours.GetOr(p.workHours))
  }

  /** What `$set` promises, field by field: a field present in the patch takes the
      patch's value, every other field (and `_id`) keeps its value. */
  predicate FieldsSet(before: Profile, after: Profile, patch: ProfilePatch) {
    && after.id == before.id
    && (if patch.kind.Some? then after.kind == patch.kind.value else after.kind == before.kind)
    && (if patch.active.Some? then after.active == patch.active.value else after.active == before.active)
    && (if patch.timezone.Some? then after.timezone == patch.timezone.value else after.timezone == before.timezone)
    && (if patch.workHours.Some? then after.workHours == patch.workHours.value else after.workHours == before.workHours)
  }

  /** `i` is the first document, in natural order, whose `_id` is `id`. */
  predicate FirstWithId(store: Store, id: string, i: int) {
    0 <= i < |store| && store[i].id == id && forall k :: 0 <= k < i ==> store[k].id != id
  }

  /** `updateOne({ _id }, { $set: data })`: at most one document, the one with the
      given id, is changed, field-wise, and keeps its id. */
  function UpdateOne(store: Store, id: string, patch: ProfilePatch): (r: UpdateResult)
    ensures |r.store| == |store|
    ensures r.matchedCount == 1 <==> exists i :: 0 <= i < |store| && store[i].id == id
    ensures r.matchedCount <= 1 && r.modifiedCount <= r.matchedCount
    ensures r.modifiedCount == 1 <==> r.store != store
    ensures forall i :: 0 <= i < |store| ==> r.store[i].id == store[i].id
    ensures forall i :: 0 <= i < |store| && r.store[i] != store[i] ==> FirstWithId(store, id, i)
    ensures forall i :: FirstWithId(store, id, i) ==> FieldsSet(store[i], r.store[i], patch)
  {
    match FirstIndex(store, (p: Profile) => p.id == id)
    case None => UpdateResult(store, 0, 0)
    case Some(i) =>
      var p := SetFields(store[i], patch);
      assert p == store[i] ==> store[i := p] == store;
      assert p != store[i] ==> store[i := p][i] != store[i];
      UpdateResult(store[i := p], 1, if p == store[i] then 0 else 1)
  }

  /** Repeating an `updateOne` changes nothing more: the same document matches
      and nothing is modified. */
  lemma UpdateOneIdempotent(store: Store, id: string, patch: ProfilePatch)
    ensures var r1 := UpdateOne(store, id, patch);
      var r2 := UpdateOne(r1.store, id, patch);
      r2.store == r1.store && r2.matchedCount == r1.matchedCount && r2.modifiedCount == 0
  {
    var r1 := UpdateOne(store, id, patch);
    var r2 := UpdateOne(r1.store, id, patch);
    match FirstIndex(store, (p: Profile) => p.id == id)
    case None =>
    case Some(i) =>
      assert FirstWithId(store, id, i);
      assert FirstWithId(r1.store, id, i);
      assert r1.store[i] == SetFields(store[i], patch);
      assert SetFields(r1.store[i], patch) == r1.store[i];
  }

  // ------------------------------------------------ updateDayOfGlobalBusinessHour

  /** The argument of the legacy update: one weekday, without its `code`. */
  datatype DayPatch = DayPatch(day: string, start: string, finish: string, open: bool)

  /** The profile has an entry for `day` (the array query `'workHours.day': day`). */
  predicate HasDayEntry(p: Profile, day: string) {
    exists j :: 0 <= j < |p.workHours| && p.workHours[j].day == day
  }

  /** `i` is the document `updateOne` picks for `{ type: SINGLE, 'workHours.day': day }`:
      the first SINGLE profile that has an entry for `day`. */
  predicate IsGlobalTarget(store: Store, day: string, i: int) {
    && 0 <= i < |store| && store[i].kind == Single && HasDayEntry(store[i], day)
    && forall k :: 0 <= k < i ==> !(store[k].kind == Single && HasDayEntry(store[k], day))
  }

  /** `j` is the element the positional operator `workHours.$` designates: the
      first entry whose `day` matched the query. */
  predicate IsFirstDayEntry(ws: seq<WorkHour>, day: string, j: int) {
    0 <= j < |ws| && ws[j].day == day && forall k :: 0 <= k < j ==> ws[k].day != day
  }

  /** Only `start`, `finish` and `open` of an entry may differ. */
  predicate EntryFramed(before: WorkHour, after: WorkHour) {
    after.day == before.day && after.code == before.code
  }

  /** Only entry contents may differ: same id, type, flag, timezone and number of entries. */
  predicate ProfileFramed(before: Profile, after: Profile) {
    && after.id == before.id && after.kind == before.kind && after.active == before.active
    && after.timezone == before.timezone && |after.workHours| == |before.workHours|
    && forall j :: 0 <= j < |before.workHours| ==> EntryFramed(before.workHours[j], after.workHours[j])
  }

  /** The positional `$set` on one profile that has an entry for `day`: the first
      such entry takes the new `start`, `finish` and `open`. */
  function SetDayEntry(p: Profile, d: DayPatch): (q: Profile)
    requires HasDayEntry(p, d.day)
    ensures ProfileFramed(p, q)
    ensures forall j :: 0 <= j < |p.workHours| && q.workHours[j] != p.workHours[j] ==>
      IsFirstDayEntry(p.workHours, d.day, j)
    ensures forall j :: IsFirstDayEntry(p.workHours, d.day, j) ==>
      q.workHours[j].start == d.start && q.workHours[j].finish == d.finish && q.workHours[j].open == d.open
  {
    var ws := p.workHours;
    var j := FirstIndex(ws, (w: WorkHour) => w.day == d.day).value;
    assert forall k :: IsFirstDayEntry(ws, d.day, k) ==> k == j;
    p.(workHours := ws[j := ws[j].(start := d.start, finish := d.finish, open := d.open)])
  }

  lemma GlobalTargetUnique(store: Store, day: string, i: int, k: int)
    requires IsGlobalTarget(store, day, i) && IsGlobalTarget(store, day, k)
    ensures i == k
  {
  }

  /** `updateOne({ type: SINGLE, 'workHours.day': day.day },
      { $set: { 'workHours.$.start', 'workHours.$.finish', 'workHours.$.open' } })`. */
  function UpdateDayOfGlobalBusinessHour(store: Store, d: DayPatch): (r: UpdateResult)
    ensures |r.store| == |store|
    ensures r.matchedCount == 1 <==> exists i :: 0 <= i < |store| && store[i].kind == Single && HasDayEntry(store[i], d.day)
    ensures r.matchedCount <= 1 && r.modifiedCount <= r.matchedCount
    ensures r.modifiedCount == 1 <==> r.store != store
    ensures forall i :: 0 <= i < |store| ==> ProfileFramed(store[i], r.store[i])
    ensures forall i :: 0 <= i < |store| ==> |r.store[i].workHours| == |store[i].workHours|
    ensures forall i :: 0 <= i < |store| && r.store[i] != store[i] ==> IsGlobalTarget(store, d.day, i)
    ensures forall i, j :: 0 <= i < |store| && 0 <= j < |store[i].workHours| ==>
      (r.store[i].workHours[j] != store[i].workHours[j] ==> IsFirstDayEntry(store[i].workHours, d.day, j))
    ensures forall i, j :: IsGlobalTarget(store, d.day, i) && IsFirstDayEntry(store[i].workHours, d.day, j) ==>
      r.store[i].workHours[j].start == d.start && r.store[i].workHours[j].finish == d.finish
      && r.store[i].workHours[j].open == d.open
  {
    match FirstIndex(store, (p: Profile) => p.kind == Single && HasDayEntry(p, d.day))
    case None => UpdateResult(store, 0, 0)
    case Some(i) =>
      var p := SetDayEntry(store[i], d);
      assert IsGlobalTarget(store, d.day, i);
      RewriteTarget(store, d, i);
      UpdateResult(store[i := p], 1, if p == store[i] then 0 else 1)
  }

  /** What rewriting the target profile `i` does to the whole store. */
  lemma RewriteTarget(store: Store, d: DayPatch, i: nat)
    requires IsGlobalTarget(store, d.day, i)
    ensures var s' := store[i := SetDayEntry(store[i], d)];
      && (s' == store <==> SetDayEntry(store[i], d) == store[i])
      && (forall k :: 0 <= k < |store| ==> ProfileFramed(store[k], s'[k]))
      && (forall k :: 0 <= k < |store| && s'[k] != store[k] ==> IsGlobalTarget(store, d.day, k))
  {
    var p := SetDayEntry(store[i], d);
    var s' := store[i := p];
    assert p != store[i] ==> s'[i] != store[i];
    forall k | 0 <= k < |store| && s'[k] != store[k]
      ensures IsGlobalTarget(store, d.day, k)
    {
      assert k == i;
    }
  }

  /** Framing keeps the days, hence which entry the positional operator picks. */
  lemma FramedKeepsDays(p: Profile, q: Profile, day: string)
    requires ProfileFramed(p, q)
    ensures HasDayEntry(p, day) <==> HasDayEntry(q, day)
    ensures forall j :: IsFirstDayEntry(p.workHours, day, j) <==> IsFirstDayEntry(q.workHours, day, j)
  {
    assert forall j :: 0 <= j < |p.workHours| ==> EntryFramed(p.workHours[j], q.workHours[j]);
  }

  lemma SetDayEntryTwice(p: Profile, d: DayPatch)
    requires HasDayEntry(p, d.day)
    ensures HasDayEntry(SetDayEntry(p, d), d.day)
    ensures SetDayEntry(SetDayEntry(p, d), d) == SetDayEntry(p, d)
  {
    var q := SetDayEntry(p, d);
    FramedKeepsDays(p, q, d.day);
    var q2 := SetDayEntry(q, d);
    assert ProfileFramed(q, q2);
    assert q2.workHours == q.workHours;
  }

  /** When profile `i` is the target, the legacy update rewrites exactly it. */
  lemma UpdateDayAt(store: Store, d: DayPatch, i: nat)
    requires IsGlobalTarget(store, d.day, i)
    ensures UpdateDayOfGlobalBusinessHour(store, d).store == store[i := SetDayEntry(store[i], d)]
    ensures UpdateDayOfGlobalBusinessHour(store, d).matchedCount == 1
  {
    match FirstIndex(store, (p: Profile) => p.kind == Single && HasDayEntry(p, d.day))
    case None =>
      assert false;
    case Some(k) =>
      assert IsGlobalTarget(store, d.day, k);
      GlobalTargetUnique(store, d.day, i, k);
  }

  /** Rewriting the target keeps it the target. */
  lemma RewriteKeepsTarget(store: Store, d: DayPatch, i: nat)
    requires IsGlobalTarget(store, d.day, i)
    ensures IsGlobalTarget(store[i := SetDayEntry(store[i], d)], d.day, i)
  {
    FramedKeepsDays(store[i], SetDayEntry(store[i], d), d.day);
  }

  /** Updating the rewritten store finds the target again and rewrites nothing. */
  lemma UpdateDayTwiceAt(store: Store, d: DayPatch, i: nat)
    requires IsGlobalTarget(store, d.day, i)
    ensures var s1 := store[i := SetDayEntry(store[i], d)];
      UpdateDayOfGlobalBusinessHour(s1, d) == UpdateResult(s1, 1, 0)
  {
    var s1 := store[i := SetDayEntry(store[i], d)];
    RewriteKeepsTarget(store, d, i);
    SetDayEntryTwice(store[i], d);
    UpdateDayAt(s1, d, i);
    assert s1[i := SetDayEntry(s1[i], d)] == s1;
  }

  /** Repeating the legacy update changes nothing more and matches as often:
      the same profile and entry are found again and already hold the values. */
  lemma UpdateDayIdempotent(store: Store, d: DayPatch)
    ensures var r1 := UpdateDayOfGlobalBusinessHour(store, d);
      var r2 := UpdateDayOfGlobalBusinessHour(r1.store, d);
      r2.store == r1.store && r2.matchedCount == r1.matchedCount && r2.modifiedCount == 0
  {
    match FirstIndex(store, (p: Profile) => p.kind == Single && HasDayEntry(p, d.day))
    case None =>
    case Some(i) =>
      assert IsGlobalTarget(store, d.day, i);
      UpdateDayAt(store, d, i);
      UpdateDayTwiceAt(store, d, i);
  }
}
