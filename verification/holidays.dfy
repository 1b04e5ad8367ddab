/**
 * backend/routes/holidays.js: an organization's calendar of holidays,
 * events and exam periods.
 */
module Holidays {
  import opened Wrappers
  import opened Domain
  import opened Query
  import opened Store
  import opened Auth

  const HolidayInvalid: string := "HolidayEvent validation failed"

  /** Body of `POST /holidays`; the organization always comes from the caller. */
  datatype NewHoliday = NewHoliday(
    name: Option<string>, description: Option<string>, kind: Option<string>,
    startDate: Option<int>, endDate: Option<int>, isSchoolClosed: Option<bool>)

  /** The query string of `GET /holidays`. */
  datatype HolidayQuery = HolidayQuery(startDate: Option<int>, endDate: Option<int>, kind: Option<string>)

  function ParseHolidayType(s: string): (r: Option<HolidayType>)
    ensures r.Some? ==> HolidayTypeName(r.value) == s
    ensures r.None? <==> forall t: HolidayType :: HolidayTypeName(t) != s
  {
    if s == "holiday" then Some(Holiday)
    else if s == "event" then Some(Event)
    else if s == "exam_period" then Some(ExamPeriod)
    else None
  }

  /** `POST /holidays` (admins): name, kind and both dates are required; nothing orders the dates. */
  function NewHolidayRecord(caller: User, body: NewHoliday, id: Id): (r: Outcome<HolidayEvent>)
    requires caller.organizationId.Some?
    ensures r.Created? <==>
      Truthy(body.name) && body.kind.Some? && ParseHolidayType(body.kind.value).Some?
      && body.startDate.Some? && body.endDate.Some?
    ensures !r.Created? ==> r == BadRequest(HolidayInvalid)
    ensures r.Created? ==>
      && r.value.id == id && r.value.organizationId == caller.organizationId.value
      && r.value.name == body.name.value && r.value.description == body.description
      && HolidayTypeName(r.value.kind) == body.kind.value
      && r.value.startDate == body.startDate.value && r.value.endDate == body.endDate.value
      && r.value.isSchoolClosed == body.isSchoolClosed.GetOr(false)
  {
    if !Truthy(body.name) || body.kind.None? || ParseHolidayType(body.kind.value).None?
       || body.startDate.None? || body.endDate.None? then
      BadRequest(HolidayInvalid)
    else
      Created(HolidayEvent(id, caller.organizationId.value, body.name.value, body.description,
        ParseHolidayType(body.kind.value).value, body.startDate.value, body.endDate.value,
        body.isSchoolClosed.GetOr(false)))
  }

  method CreateHoliday(db: Db, caller: User, body: NewHoliday) returns (r: Outcome<HolidayEvent>)
    requires db.Valid() && Admitted(caller, [Admin])
    modifies db`holidays, db`nextId
    ensures db.Valid()
    ensures r == NewHolidayRecord(caller, body, old(db.nextId))
    ensures r.Created? ==> db.holidays == old(db.holidays) + [r.value] && db.nextId == old(db.nextId) + 1
    ensures !r.Created? ==> unchanged(db`holidays, db`nextId)
  {
    r := NewHolidayRecord(caller, body, db.nextId);
    if r.Created? {
      var _ := db.FreshId();
      db.holidays := db.holidays + [r.value];
    }
  }

  /**
   * The date filter: with both ends, an event that starts in the range,
   * ends in it, or spans it; with one end, an event not entirely on the
   * wrong side of it.
   */
  predicate InWindow(h: HolidayEvent, startDate: Option<int>, endDate: Option<int>) {
    if startDate.Some? && endDate.Some? then
      var s, e := startDate.value, endDate.value;
      || (s <= h.startDate <= e)
      || (s <= h.endDate <= e)
      || (h.startDate <= s && e <= h.endDate)
    else if startDate.Some? then h.endDate >= startDate.value
    else if endDate.Some? then h.startDate <= endDate.value
    else true
  }

  /** For a well-formed event and range the three cases are exactly interval overlap. */
  lemma WindowIsOverlap(h: HolidayEvent, s: int, e: int)
    requires s <= e && h.startDate <= h.endDate
    ensures InWindow(h, Some(s), Some(e)) <==> h.startDate <= e && s <= h.endDate
  {
  }

  /** An event that ends before it starts slips through a one-sided window it never touches. */
  lemma InvertedEventMatchesEitherSide(h: HolidayEvent, s: int)
    requires h.endDate >= s && h.startDate > h.endDate
    ensures InWindow(h, Some(s), None) && InWindow(h, None, Some(h.startDate))
  {
  }

  predicate HolidayMatches(caller: User, q: HolidayQuery, h: HolidayEvent) {
    && Some(h.organizationId) == caller.organizationId
    && (Truthy(q.kind) ==> HolidayTypeName(h.kind) == q.kind.value)
    && InWindow(h, q.startDate, q.endDate)
  }

  function StartKey(h: HolidayEvent): int {
    h.startDate
  }

  function MatchingHolidays(hs: seq<HolidayEvent>, caller: User, q: HolidayQuery): (r: seq<HolidayEvent>)
    ensures forall h :: h in r <==> h in hs && HolidayMatches(caller, q, h)
  {
    Filter(hs, (h: HolidayEvent) => HolidayMatches(caller, q, h))
  }

  /** `GET /holidays`: the organization's matching events, earliest start first. */
  function ListHolidays(hs: seq<HolidayEvent>, caller: User, q: HolidayQuery): (r: Outcome<seq<HolidayEvent>>)
    ensures r.Ok?
    ensures SortedBy(r.value, StartKey)
    ensures multiset(r.value) == multiset(MatchingHolidays(hs, caller, q))
    ensures forall h :: h in r.value <==> h in hs && HolidayMatches(caller, q, h)
  {
    var sorted := SortBy(MatchingHolidays(hs, caller, q), StartKey);
    assert forall h :: h in sorted <==> h in multiset(sorted);
    Ok(sorted)
  }

  /** `HolidayEvent.findOneAndDelete({_id: id, organizationId})`. */
  function OrgHolidayIndex(hs: seq<HolidayEvent>, id: Id, org: Option<Id>): (k: int)
    ensures -1 <= k < |hs|
    ensures k >= 0 ==> hs[k].id == id && Some(hs[k].organizationId) == org
    ensures k == -1 <==> forall j :: 0 <= j < |hs| ==> !(hs[j].id == id && Some(hs[j].organizationId) == org)
  {
    FindFirst(hs, (h: HolidayEvent) => h.id == id && Some(h.organizationId) == org)
  }

  /** `DELETE /holidays/:id` (admins): only an event of the admin's own organization goes. */
  method DeleteHoliday(db: Db, caller: User, id: Id) returns (r: Outcome<()>)
    requires db.Valid() && Admitted(caller, [Admin])
    modifies db`holidays
    ensures db.Valid()
    ensures OrgHolidayIndex(old(db.holidays), id, caller.organizationId) < 0 ==>
      r == NotFound("Holiday/event not found") && db.holidays == old(db.holidays)
    ensures OrgHolidayIndex(old(db.holidays), id, caller.organizationId) >= 0 ==>
      r == Ok(()) && db.holidays == RemoveAt(old(db.holidays), OrgHolidayIndex(old(db.holidays), id, caller.organizationId))
  {
    var k := OrgHolidayIndex(db.holidays, id, caller.organizationId);
    if k < 0 {
      return NotFound("Holiday/event not found");
    }
    db.holidays := RemoveAt(db.holidays, k);
    r := Ok(());
  }

  /** Deleting never touches another organization's calendar. */
  lemma {:induction false} DeleteSparesOtherOrganizations(hs: seq<HolidayEvent>, id: Id, org: Option<Id>, h: HolidayEvent)
    requires OrgHolidayIndex(hs, id, org) >= 0
    requires h in hs && Some(h.organizationId) != org
    ensures h in RemoveAt(hs, OrgHolidayIndex(hs, id, org))
  {
    var k := OrgHolidayIndex(hs, id, org);
    var i :| 0 <= i < |hs| && hs[i] == h;
    assert i != k;
    var r := RemoveAt(hs, k);
    if i < k {
      assert r[i] == h;
    } else {
      assert r[i - 1] == h;
    }
  }
}
