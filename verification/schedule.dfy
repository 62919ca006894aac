/** `findHoursToScheduleJobs`: the aggregation that turns every profile's work hours
    into one cron registration per (day, utc offset), stated as an explicit
    project / unwind / match / group pipeline over the store. */
module ScheduleDeriver {
  import opened Seqs
  import opened BusinessHours

  /** One document after `$project { workHours, timezone }` and `$unwind workHours`. */
  datatype Row = Row(timezone: Timezone, workHour: WorkHour)

  /** IWorkHoursForCreateCronJobs: the distinct opening and closing times of a
      (day, utc) group. */
  datatype CronGroup = CronGroup(day: string, utc: int, start: seq<string>, finish: seq<string>)

  /** The `$group` key `{ hour: workHours.day, utc: timezone.utc }`. */
  type Key = (string, int)

  function RowKey(row: Row): Key {
    (row.workHour.day, row.timezone.utc)
  }

  function GroupKey(g: CronGroup): Key {
    (g.day, g.utc)
  }

  /** `$unwind` of one profile: one row per work-hour entry, in order. */
  function UnwindProfile(tz: Timezone, ws: seq<WorkHour>): (rows: seq<Row>)
    ensures forall row :: row in rows <==> row.timezone == tz && row.workHour in ws
  {
    if |ws| == 0 then []
    else
      assert ws == [ws[0]] + ws[1..];
      [Row(tz, ws[0])] + UnwindProfile(tz, ws[1..])
  }

  /** `$project` then `$unwind` over the whole collection. */
  function Unwind(store: Store): (rows: seq<Row>)
    ensures forall row :: row in rows <==>
      exists p :: p in store && row.timezone == p.timezone && row.workHour in p.workHours
  {
    if |store| == 0 then []
    else
      assert store == [store[0]] + store[1..];
      UnwindProfile(store[0].timezone, store[0].workHours) + Unwind(store[1..])
  }

  /** `$match { workHours.open: true }`. */
  function OpenRows(store: Store): seq<Row> {
    Filter(Unwind(store), (row: Row) => row.workHour.open)
  }

  /** The keys present among rows and among groups. */
  ghost function RowKeys(rows: seq<Row>): set<Key> {
    set row | row in rows :: RowKey(row)
  }

  ghost function GroupKeys(gs: seq<CronGroup>): set<Key> {
    set g | g in gs :: GroupKey(g)
  }

  /** What `$addToSet` accumulates for a key: the start and finish times of its rows. */
  ghost function StartsOf(rows: seq<Row>, k: Key): set<string> {
    set row | row in rows && RowKey(row) == k :: row.workHour.start
  }

  ghost function FinishesOf(rows: seq<Row>, k: Key): set<string> {
    set row | row in rows && RowKey(row) == k :: row.workHour.finish
  }

  /** No two groups share a key. */
  predicate KeysUnique(gs: seq<CronGroup>) {
    forall i, j :: 0 <= i < j < |gs| ==> GroupKey(gs[i]) != GroupKey(gs[j])
  }

  /** A group holds exactly the distinct times of its key's rows. */
  ghost predicate GroupOf(rows: seq<Row>, g: CronGroup) {
    && Distinct(g.start) && Distinct(g.finish)
    && Elems(g.start) == StartsOf(rows, GroupKey(g))
    && Elems(g.finish) == FinishesOf(rows, GroupKey(g))
  }

  /** `gs` is a correct `$group` result for `rows`: one group per key present,
      each holding exactly that key's distinct times. */
  ghost predicate Grouping(rows: seq<Row>, gs: seq<CronGroup>) {
    && KeysUnique(gs)
    && GroupKeys(gs) == RowKeys(rows)
    && forall i :: 0 <= i < |gs| ==> GroupOf(rows, gs[i])
  }

  /** Fold one row into the groups: `$addToSet` its times into the group of its
      key, or open a new group for a key not seen before. */
  function AddRow(gs: seq<CronGroup>, row: Row): seq<CronGroup> {
    match FirstIndex(gs, (g: CronGroup) => GroupKey(g) == RowKey(row))
    case Some(i) =>
      gs[i := gs[i].(start := AddToSet(gs[i].start, row.workHour.start),
                     finish := AddToSet(gs[i].finish, row.workHour.finish))]
    case None =>
      gs + [CronGroup(row.workHour.day, row.timezone.utc, [row.workHour.start], [row.workHour.finish])]
  }

  lemma ConsRow(row: Row, rows: seq<Row>, k: Key)
    ensures RowKeys([row] + rows) == RowKeys(rows) + {RowKey(row)}
    ensures StartsOf([row] + rows, k) == StartsOf(rows, k) + (if RowKey(row) == k then {row.workHour.start} else {})
    ensures FinishesOf([row] + rows, k) == FinishesOf(rows, k) + (if RowKey(row) == k then {row.workHour.finish} else {})
  {
    var all := [row] + rows;
    assert forall r :: r in all <==> r == row || r in rows;
  }

  lemma AbsentKeyHasNoTimes(rows: seq<Row>, k: Key)
    requires k !in RowKeys(rows)
    ensures StartsOf(rows, k) == {} && FinishesOf(rows, k) == {}
  {
  }

  lemma SameKeysSameGroupKeys(gs: seq<CronGroup>, r: seq<CronGroup>)
    requires |r| == |gs|
    requires forall j :: 0 <= j < |gs| ==> GroupKey(r[j]) == GroupKey(gs[j])
    ensures GroupKeys(r) == GroupKeys(gs)
  {
    forall key | key in GroupKeys(gs) ensures key in GroupKeys(r) {
      var j :| 0 <= j < |gs| && GroupKey(gs[j]) == key;
      assert r[j] in r;
    }
    forall key | key in GroupKeys(r) ensures key in GroupKeys(gs) {
      var j :| 0 <= j < |r| && GroupKey(r[j]) == key;
      assert gs[j] in gs;
    }
  }

  /** The row's key already has group `i`: its times are added to that group. */
  lemma MergeRowGroups(rows: seq<Row>, gs: seq<CronGroup>, row: Row, i: nat)
    requires Grouping(rows, gs)
    requires i < |gs| && GroupKey(gs[i]) == RowKey(row)
    ensures Grouping([row] + rows, AddRow(gs, row))
  {
    var all := [row] + rows;
    var k := RowKey(row);
    var r := AddRow(gs, row);
    assert FirstIndex(gs, (g: CronGroup) => GroupKey(g) == k).Some?;
    assert forall j :: 0 <= j < |gs| ==> GroupKey(r[j]) == GroupKey(gs[j]);
    SameKeysSameGroupKeys(gs, r);
    assert gs[i] in gs;
    ConsRow(row, rows, k);
    forall j | 0 <= j < |r|
      ensures GroupOf(all, r[j])
    {
      assert GroupOf(rows, gs[j]);
      ConsRow(row, rows, GroupKey(gs[j]));
    }
  }

  /** The row's key has no group yet: a new group holds the row's times alone. */
  lemma NewRowGroup(rows: seq<Row>, gs: seq<CronGroup>, row: Row)
    requires Grouping(rows, gs)
    requires forall j :: 0 <= j < |gs| ==> GroupKey(gs[j]) != RowKey(row)
    ensures Grouping([row] + rows, AddRow(gs, row))
  {
    var all := [row] + rows;
    var k := RowKey(row);
    var r := AddRow(gs, row);
    var ng := CronGroup(row.workHour.day, row.timezone.utc, [row.workHour.start], [row.workHour.finish]);
    assert r == gs + [ng];
    assert k !in GroupKeys(gs);
    AbsentKeyHasNoTimes(rows, k);
    ConsRow(row, rows, k);
    assert GroupKey(ng) == k;
    forall key | key in GroupKeys(r) ensures key in GroupKeys(gs) + {k} {
      var g :| g in r && GroupKey(g) == key;
      if g != ng {
        assert g in gs;
      }
    }
    forall key | key in GroupKeys(gs) + {k} ensures key in GroupKeys(r) {
      if key == k {
        assert ng in r;
      } else {
        var g :| g in gs && GroupKey(g) == key;
        assert g in r;
      }
    }
    assert Elems(ng.start) == {row.workHour.start};
    assert Elems(ng.finish) == {row.workHour.finish};
    forall j | 0 <= j < |r|
      ensures GroupOf(all, r[j])
    {
      if j < |gs| {
        assert GroupOf(rows, gs[j]);
        ConsRow(row, rows, GroupKey(gs[j]));
      }
    }
  }

  /** Folding a row into a correct grouping of `rows` gives a correct grouping of
      the row followed by `rows`. */
  lemma AddRowGroups(rows: seq<Row>, gs: seq<CronGroup>, row: Row)
    requires Grouping(rows, gs)
    ensures Grouping([row] + rows, AddRow(gs, row))
  {
    match FirstIndex(gs, (g: CronGroup) => GroupKey(g) == RowKey(row))
    case Some(i) => MergeRowGroups(rows, gs, row, i);
    case None => NewRowGroup(rows, gs, row);
  }

  /** `$group` with `$addToSet` on start and finish, folding the rows from last to first. */
  function Group(rows: seq<Row>): (gs: seq<CronGroup>)
    ensures Grouping(rows, gs)
  {
    if |rows| == 0 then []
    else
      var rest := Group(rows[1..]);
      assert rows == [rows[0]] + rows[1..];
      AddRowGroups(rows[1..], rest, rows[0]);
      AddRow(rest, rows[0])
  }

  /** Some profile, active or not, has an open entry on `day` and offset `utc`. */
  ghost predicate HasOpenEntry(store: Store, day: string, utc: int) {
    exists p, w :: p in store && w in p.workHours && w.open && w.day == day && p.timezone.utc == utc
  }

  /** All start (finish) times of the open entries on `day` of profiles with offset `utc`. */
  ghost function OpenStarts(store: Store, day: string, utc: int): set<string> {
    set p, w | p in store && w in p.workHours && w.open && w.day == day && p.timezone.utc == utc :: w.start
  }

  ghost function OpenFinishes(store: Store, day: string, utc: int): set<string> {
    set p, w | p in store && w in p.workHours && w.open && w.day == day && p.timezone.utc == utc :: w.finish
  }

  /** A row survives `$unwind` and `$match` iff it is an open entry of some
      profile, paired with that profile's timezone. */
  lemma OpenRowMember(store: Store, row: Row)
    ensures row in OpenRows(store) <==>
      row.workHour.open && exists p :: p in store && row.timezone == p.timezone && row.workHour in p.workHours
  {
  }

  /** The open rows have a key exactly where the store has an open entry. */
  lemma OpenRowKeys(store: Store, day: string, utc: int)
    ensures (day, utc) in RowKeys(OpenRows(store)) <==> HasOpenEntry(store, day, utc)
  {
    var rows := OpenRows(store);
    if (day, utc) in RowKeys(rows) {
      var row :| row in rows && RowKey(row) == (day, utc);
      OpenRowMember(store, row);
      var p :| p in store && row.timezone == p.timezone && row.workHour in p.workHours;
      assert p.timezone.utc == utc;
    }
    if HasOpenEntry(store, day, utc) {
      var p, w :| p in store && w in p.workHours && w.open && w.day == day && p.timezone.utc == utc;
      OpenRowMember(store, Row(p.timezone, w));
      assert RowKey(Row(p.timezone, w)) in RowKeys(rows);
    }
  }

  /** The start times the open rows collect for a key are the store's open starts. */
  lemma OpenRowStarts(store: Store, day: string, utc: int)
    ensures StartsOf(OpenRows(store), (day, utc)) == OpenStarts(store, day, utc)
  {
    var rows := OpenRows(store);
    forall t | t in StartsOf(rows, (day, utc)) ensures t in OpenStarts(store, day, utc) {
      var row :| row in rows && RowKey(row) == (day, utc) && row.workHour.start == t;
      OpenRowMember(store, row);
      var p :| p in store && row.timezone == p.timezone && row.workHour in p.workHours;
    }
    forall t | t in OpenStarts(store, day, utc) ensures t in StartsOf(rows, (day, utc)) {
      var p, w :| p in store && w in p.workHours && w.open && w.day == day && p.timezone.utc == utc && w.start == t;
      OpenRowMember(store, Row(p.timezone, w));
    }
  }

  /** The finish times the open rows collect for a key are the store's open finishes. */
  lemma OpenRowFinishes(store: Store, day: string, utc: int)
    ensures FinishesOf(OpenRows(store), (day, utc)) == OpenFinishes(store, day, utc)
  {
    var rows := OpenRows(store);
    forall t | t in FinishesOf(rows, (day, utc)) ensures t in OpenFinishes(store, day, utc) {
      var row :| row in rows && RowKey(row) == (day, utc) && row.workHour.finish == t;
      OpenRowMember(store, row);
      var p :| p in store && row.timezone == p.timezone && row.workHour in p.workHours;
    }
    forall t | t in OpenFinishes(store, day, utc) ensures t in FinishesOf(rows, (day, utc)) {
      var p, w :| p in store && w in p.workHours && w.open && w.day == day && p.timezone.utc == utc && w.finish == t;
      OpenRowMember(store, Row(p.timezone, w));
    }
  }

  /** The open rows say the same as the store's open entries. */
  lemma OpenRowsOfStore(store: Store, day: string, utc: int)
    ensures (day, utc) in RowKeys(OpenRows(store)) <==> HasOpenEntry(store, day, utc)
    ensures StartsOf(OpenRows(store), (day, utc)) == OpenStarts(store, day, utc)
    ensures FinishesOf(OpenRows(store), (day, utc)) == OpenFinishes(store, day, utc)
  {
    OpenRowKeys(store, day, utc);
    OpenRowStarts(store, day, utc);
    OpenRowFinishes(store, day, utc);
  }

  /** The schedule the timer registers: one group per (day, utc) that has an open
      entry anywhere in the store, each listing the distinct start and finish
      times of exactly those entries. */
  function FindHoursToScheduleJobs(store: Store): (sched: seq<CronGroup>)
    ensures KeysUnique(sched)
    ensures forall day, utc :: (day, utc) in GroupKeys(sched) <==> HasOpenEntry(store, day, utc)
    ensures forall i :: 0 <= i < |sched| ==> Distinct(sched[i].start) && Distinct(sched[i].finish)
    ensures forall i :: 0 <= i < |sched| ==>
      Elems(sched[i].start) == OpenStarts(store, sched[i].day, sched[i].utc)
    ensures forall i :: 0 <= i < |sched| ==>
      Elems(sched[i].finish) == OpenFinishes(store, sched[i].day, sched[i].utc)
  {
    var rows := OpenRows(store);
    forall day, utc {
      OpenRowsOfStore(store, day, utc);
    }
    Group(rows)
  }

  /** The store with every entry whose `open` is false removed. */
  function DropClosedEntries(store: Store): (r: Store)
    ensures |r| == |store|
    ensures forall i :: 0 <= i < |store| ==> r[i].timezone == store[i].timezone
    ensures forall i :: 0 <= i < |store| ==>
      r[i].workHours == Filter(store[i].workHours, (w: WorkHour) => w.open)
  {
    if |store| == 0 then []
    else
      [store[0].(workHours := Filter(store[0].workHours, (w: WorkHour) => w.open))]
      + DropClosedEntries(store[1..])
  }

  lemma {:induction false} UnwindProfileOpen(tz: Timezone, ws: seq<WorkHour>)
    ensures Filter(UnwindProfile(tz, ws), (row: Row) => row.workHour.open)
         == UnwindProfile(tz, Filter(ws, (w: WorkHour) => w.open))
  {
    if |ws| > 0 {
      UnwindProfileOpen(tz, ws[1..]);
      FilterConcat([Row(tz, ws[0])], UnwindProfile(tz, ws[1..]), (row: Row) => row.workHour.open);
    }
  }

  lemma {:induction false} UnwindOfDropClosed(store: Store)
    ensures OpenRows(store) == Unwind(DropClosedEntries(store))
  {
    if |store| > 0 {
      var d := DropClosedEntries(store);
      assert d[1..] == DropClosedEntries(store[1..]);
      UnwindOfDropClosed(store[1..]);
      FilterConcat(UnwindProfile(store[0].timezone, store[0].workHours), Unwind(store[1..]),
        (row: Row) => row.workHour.open);
      UnwindProfileOpen(store[0].timezone, store[0].workHours);
    }
  }

  lemma DropClosedAllOpen(store: Store, row: Row)
    requires row in Unwind(DropClosedEntries(store))
    ensures row.workHour.open
  {
    var d := DropClosedEntries(store);
    var p :| p in d && row.timezone == p.timezone && row.workHour in p.workHours;
    var i :| 0 <= i < |d| && d[i] == p;
    assert row.workHour in Filter(store[i].workHours, (w: WorkHour) => w.open);
  }

  /** Entries with `open` false contribute nothing: removing them all leaves the
      schedule exactly as it was. */
  lemma ClosedEntriesIgnored(store: Store)
    ensures FindHoursToScheduleJobs(DropClosedEntries(store)) == FindHoursToScheduleJobs(store)
  {
    var d := DropClosedEntries(store);
    UnwindOfDropClosed(store);
    forall row | row in Unwind(d) ensures row.workHour.open {
      DropClosedAllOpen(store, row);
    }
    FilterAllKept(Unwind(d), (row: Row) => row.workHour.open);
    assert OpenRows(d) == OpenRows(store);
  }

  /** Two stores that agree on every profile's timezone and work hours, in order. */
  predicate SameHours(s1: Store, s2: Store) {
    && |s1| == |s2|
    && forall i :: 0 <= i < |s1| ==> s1[i].timezone == s2[i].timezone && s1[i].workHours == s2[i].workHours
  }

  /** The schedule reads only timezones and work hours: in particular it does not
      depend on which profiles are active, nor on their ids or types. */
  lemma {:induction false} ScheduleIgnoresActive(s1: Store, s2: Store)
    requires SameHours(s1, s2)
    ensures Unwind(s1) == Unwind(s2)
    ensures FindHoursToScheduleJobs(s1) == FindHoursToScheduleJobs(s2)
  {
    if |s1| > 0 {
      ScheduleIgnoresActive(s1[1..], s2[1..]);
    }
  }

  /** The index of the group with a key that is present. */
  lemma KeyIndex(gs: seq<CronGroup>, k: Key) returns (i: nat)
    requires k in GroupKeys(gs)
    ensures i < |gs| && GroupKey(gs[i]) == k
  {
    var g :| g in gs && GroupKey(g) == k;
    i :| 0 <= i < |gs| && gs[i] == g;
  }

  /** Every open time is registered in exactly one group, exactly once: two
      profiles with the same open time on the same day and offset yield a single
      trigger. */
  lemma TriggerRegisteredOnce(store: Store, day: string, utc: int, t: string)
    requires t in OpenStarts(store, day, utc)
    ensures var sched := FindHoursToScheduleJobs(store);
      exists i :: 0 <= i < |sched| && GroupKey(sched[i]) == (day, utc)
        && multiset(sched[i].start)[t] == 1
        && forall j :: 0 <= j < |sched| && GroupKey(sched[j]) == (day, utc) ==> j == i
  {
    var sched := FindHoursToScheduleJobs(store);
    var p, w :| p in store && w in p.workHours && w.open && w.day == day && p.timezone.utc == utc && w.start == t;
    assert HasOpenEntry(store, day, utc);
    var i := KeyIndex(sched, (day, utc));
    assert Elems(sched[i].start) == OpenStarts(store, day, utc);
    assert t in sched[i].start;
    DistinctOccursOnce(sched[i].start, t);
    assert forall j :: 0 <= j < |sched| && GroupKey(sched[j]) == (day, utc) ==> j == i by {
      assert KeysUnique(sched);
    }
  }
}
