/** The documents of the live-chat business-hours collection. */
module BusinessHours {
  import opened Seqs

  /** LivechatBussinessHourTypes: the one legacy global profile, or a named one. */
  datatype BusinessHourType = Single | Multiple

  /** `timezone` of a profile; `utc` is the whole-hour offset the schedule is bucketed by. */
  datatype Timezone = Timezone(name: string, utc: int)

  /** One entry of `workHours`: a weekday with one opening and one closing time.
      `code` is carried through unchanged by every operation here. */
  datatype WorkHour = WorkHour(day: string, start: string, finish: string, open: bool, code: int)

  /** A business-hour profile. The document field `type` is called `kind`,
      because `type` is a keyword. */
  datatype Profile = Profile(
    id: string,
    kind: BusinessHourType,
    active: bool,
    timezone: Timezone,
    workHours: seq<WorkHour>)

  /** The collection, in natural (insertion) order. */
  type Store = seq<Profile>

  /** `_id` is the collection's primary key. */
  predicate UniqueIds(ps: seq<Profile>) {
    forall i, j :: 0 <= i < j < |ps| ==> ps[i].id != ps[j].id
  }

  /** The `_id`s of a sequence of documents, in order (the `.map(b => b._id)`). */
  function IdsOf(ps: seq<Profile>): (ids: seq<string>)
    ensures |ids| == |ps|
    ensures forall i :: 0 <= i < |ps| ==> ids[i] == ps[i].id
  {
    if |ps| == 0 then [] else [ps[0].id] + IdsOf(ps[1..])
  }

  lemma IdsOfMembership(ps: seq<Profile>, id: string)
    ensures id in IdsOf(ps) <==> exists p :: p in ps && p.id == id
  {
    var ids := IdsOf(ps);
    if id in ids {
      var i :| 0 <= i < |ids| && ids[i] == id;
      assert ps[i] in ps;
    }
  }

  lemma ConsUniqueIds(p: Profile, rest: seq<Profile>)
    requires UniqueIds(rest)
    requires forall q :: q in rest ==> q.id != p.id
    ensures UniqueIds([p] + rest)
  {
    var r := [p] + rest;
    forall i, j | 0 <= i < j < |r|
      ensures r[i].id != r[j].id
    {
      assert r[j] == rest[j - 1];
      if i == 0 {
        assert r[j] in rest;
      } else {
        assert r[i] == rest[i - 1];
      }
    }
  }

  /** Filtering keeps keys unique. */
  lemma {:induction false} FilterKeepsIdsUnique(ps: seq<Profile>, keep: Profile -> bool)
    requires UniqueIds(ps)
    ensures UniqueIds(Filter(ps, keep))
  {
    if |ps| > 0 {
      FilterKeepsIdsUnique(ps[1..], keep);
      var rest := Filter(ps[1..], keep);
      forall q | q in rest
        ensures q.id != ps[0].id
      {
        var j :| 0 <= j < |ps[1..]| && ps[1..][j] == q;
        assert ps[j + 1] == q;
      }
      if keep(ps[0]) {
        ConsUniqueIds(ps[0], rest);
      }
    }
  }

  /** The ids of the documents a `find` selects: exactly the ids of the matching
      documents, each once when the store's keys are unique. */
  lemma FoundIds(ps: seq<Profile>, keep: Profile -> bool)
    ensures forall id :: id in IdsOf(Filter(ps, keep)) <==> exists p :: p in ps && keep(p) && p.id == id
    ensures UniqueIds(ps) ==> Distinct(IdsOf(Filter(ps, keep)))
  {
    forall id ensures id in IdsOf(Filter(ps, keep)) <==> exists p :: p in Filter(ps, keep) && p.id == id {
      IdsOfMembership(Filter(ps, keep), id);
    }
    if UniqueIds(ps) {
      FilterKeepsIdsUnique(ps, keep);
    }
  }
}
