/**
 * The `POST /` handler that creates a facility
 * (server/routes/cruds/createFacilities.js): a case-insensitive duplicate
 * check over every facility, enabled or not, then an insert that returns the
 * new row. There is no transaction; a unique violation raised by the insert
 * (another request won the race) is answered like a duplicate.
 */
module CreateFacilities {
  import opened Wrappers
  import opened Text
  import opened Schema
  import opened Store
  import opened Responses

  datatype FacilityRequest = FacilityRequest(name: string, capacity: int, location: string)

  const DuplicateMessage := "Facility name already " + "exists (case-insensitive)."
  const ConstraintMessage := "Facility name already exists."

  /** The two queries the handler sends, each of which may fail. */
  datatype Step = DuplicateCheck | Insert

  /** For each step that fails, the SQLSTATE code of the error it throws. */
  type Faults = map<Step, string>

  /** Some facility, enabled or not, already has this name, ignoring case. */
  predicate FacilityNameTaken(facilities: seq<Facility>, name: string) {
    exists i :: 0 <= i < |facilities| && Lower(facilities[i].name) == Lower(name)
  }

  /** `SELECT id FROM "Facilities" WHERE LOWER(name) = LOWER($1)`. */
  function DuplicateQuery(facilities: seq<Facility>, name: string): seq<int> {
    FacilityIds(Where(facilities, (f: Facility) => Lower(f.name) == Lower(name)))
  }

  lemma DuplicateQueryFinds(facilities: seq<Facility>, name: string)
    ensures |DuplicateQuery(facilities, name)| > 0 <==> FacilityNameTaken(facilities, name)
  {
    WhereFindsMatch(facilities, (f: Facility) => Lower(f.name) == Lower(name));
  }

  /** The row the insert creates: the request's fields, a fresh id, enabled. */
  function NewFacility(facilities: seq<Facility>, req: FacilityRequest): Facility {
    Facility(FreshId(FacilityIds(facilities)), req.name, req.capacity, req.location, true)
  }

  /** The `catch` block's answer to an error with code `code`. */
  function CatchResponse(code: string): Response {
    if code == UniqueViolation then Response(400, false, Some(ConstraintMessage), None)
    else Response(500, false, None, None)
  }

  /** The response the handler sends, given the table and the failing steps. */
  function FacilityResponse(facilities: seq<Facility>, req: FacilityRequest, faults: Faults): Response {
    if DuplicateCheck in faults then CatchResponse(faults[DuplicateCheck])
    else if FacilityNameTaken(facilities, req.name) then Response(400, false, Some(DuplicateMessage), None)
    else if Insert in faults then CatchResponse(faults[Insert])
    else Response(200, true, None, Some(NewFacility(facilities, req)))
  }

  /** The table after the request: the returned row appended, if there is one. */
  function FacilitiesAfter(facilities: seq<Facility>, req: FacilityRequest, faults: Faults): seq<Facility> {
    var r := FacilityResponse(facilities, req, faults);
    if r.facility.Some? then facilities + [r.facility.value] else facilities
  }

  /** The handler (createFacilities.js, lines 9-51). */
  method HandleCreateFacility(db: Database, req: FacilityRequest, faults: Faults) returns (resp: Response)
    modifies db
    ensures resp == FacilityResponse(old(db.facilities), req, faults)
    ensures db.facilities == FacilitiesAfter(old(db.facilities), req, faults)
    ensures db.drivers == old(db.drivers) && db.driverVehicles == old(db.driverVehicles)
  {
    if DuplicateCheck in faults {
      return CatchResponse(faults[DuplicateCheck]);
    }
    var existing := DuplicateQuery(db.facilities, req.name);
    DuplicateQueryFinds(db.facilities, req.name);
    if |existing| > 0 {
      return Response(400, false, Some(DuplicateMessage), None);
    }

    if Insert in faults {
      return CatchResponse(faults[Insert]);
    }
    var row := db.InsertFacility(req.name, req.capacity, req.location);
    return Response(200, true, None, Some(row));
  }

  // ---- Properties ----

  /**
   * A name that some facility already has, in any case and whatever that
   * facility's `enabled` flag, is answered 400 and inserts nothing.
   */
  lemma DuplicateRejected(facilities: seq<Facility>, req: FacilityRequest, faults: Faults)
    requires DuplicateCheck !in faults
    requires FacilityNameTaken(facilities, req.name)
    ensures FacilityResponse(facilities, req, faults) == Response(400, false, Some(DuplicateMessage), None)
    ensures FacilitiesAfter(facilities, req, faults) == facilities
  {
  }

  /** Flipping any facility's `enabled` flag does not change whether a name is taken. */
  lemma EnabledFlagIgnored(facilities: seq<Facility>, k: nat, enabled: bool, name: string)
    requires k < |facilities|
    ensures FacilityNameTaken(facilities[k := facilities[k].(enabled := enabled)], name)
        == FacilityNameTaken(facilities, name)
  {
    var flipped := facilities[k := facilities[k].(enabled := enabled)];
    assert forall i :: 0 <= i < |facilities| ==> flipped[i].name == facilities[i].name;
    if FacilityNameTaken(flipped, name) {
      var i :| 0 <= i < |flipped| && Lower(flipped[i].name) == Lower(name);
      assert Lower(facilities[i].name) == Lower(name);
    }
    if FacilityNameTaken(facilities, name) {
      var i :| 0 <= i < |facilities| && Lower(facilities[i].name) == Lower(name);
      assert Lower(flipped[i].name) == Lower(name);
    }
  }

  /** Whether a facility name is taken does not depend on the case the request spells it in. */
  lemma FacilityNameCaseIrrelevant(facilities: seq<Facility>, name: string)
    ensures FacilityNameTaken(facilities, Lower(name)) == FacilityNameTaken(facilities, name)
  {
    LowerIdempotent(name);
  }

  /**
   * A new name with no database error inserts exactly one enabled row with the
   * request's name, capacity and location, and returns that very row.
   */
  lemma NewNameInserted(facilities: seq<Facility>, req: FacilityRequest)
    requires !FacilityNameTaken(facilities, req.name)
    ensures var r := FacilityResponse(facilities, req, map[]);
      && r.status == 200 && r.success && r.message.None? && r.facility.Some?
      && FacilitiesAfter(facilities, req, map[]) == facilities + [r.facility.value]
      && r.facility.value.name == req.name && r.facility.value.capacity == req.capacity
      && r.facility.value.location == req.location && r.facility.value.enabled
      && (forall i :: 0 <= i < |facilities| ==> facilities[i].id != r.facility.value.id)
  {
    var ids := FacilityIds(facilities);
    assert forall i :: 0 <= i < |facilities| ==> ids[i] == facilities[i].id;
  }

  /**
   * An error the insert throws with code 23505 (a duplicate inserted by
   * another request after the check) is answered 400 and changes nothing.
   */
  lemma RaceOnInsertRejected(facilities: seq<Facility>, req: FacilityRequest)
    requires !FacilityNameTaken(facilities, req.name)
    ensures var faults := map[Insert := UniqueViolation];
      && FacilityResponse(facilities, req, faults) == Response(400, false, Some(ConstraintMessage), None)
      && FacilitiesAfter(facilities, req, faults) == facilities
  {
  }

  /** Any other error is answered 500 with only `success: false`, and changes nothing. */
  lemma OtherErrorFails(facilities: seq<Facility>, req: FacilityRequest, faults: Faults, s: Step)
    requires s in faults && faults[s] != UniqueViolation
    requires s == DuplicateCheck || (DuplicateCheck !in faults && !FacilityNameTaken(facilities, req.name))
    ensures FacilityResponse(facilities, req, faults) == Response(500, false, None, None)
    ensures FacilitiesAfter(facilities, req, faults) == facilities
  {
  }

  /**
   * Only a success changes the table; every answer is 200, 400 or 500, with
   * `success` and the returned row exactly for 200 and no message for 500.
   */
  lemma OutcomeShape(facilities: seq<Facility>, req: FacilityRequest, faults: Faults)
    ensures var r := FacilityResponse(facilities, req, faults);
      && (r.success <==> r.status == 200)
      && (r.status == 200 <==> r.facility.Some?)
      && r.status in {200, 400, 500}
      && (r.status == 500 ==> r.message.None?)
      && (r.status != 200 ==> FacilitiesAfter(facilities, req, faults) == facilities)
  {
  }

  /**
   * Two requests in a row whose names differ only in case: the second is
   * answered 400 and the table ends up holding exactly one facility of that
   * name (the first one's, when the name was new).
   */
  lemma SecondCaseVariantRejected(facilities: seq<Facility>, first: FacilityRequest, second: FacilityRequest)
    requires Lower(first.name) == Lower(second.name)
    ensures var mid := FacilitiesAfter(facilities, first, map[]);
      && FacilityResponse(mid, second, map[]) == Response(400, false, Some(DuplicateMessage), None)
      && FacilitiesAfter(mid, second, map[]) == mid
      && (!FacilityNameTaken(facilities, first.name) ==> mid == facilities + [NewFacility(facilities, first)])
  {
    var mid := FacilitiesAfter(facilities, first, map[]);
    if !FacilityNameTaken(facilities, first.name) {
      assert mid[|facilities|].name == first.name;
    } else {
      var i :| 0 <= i < |facilities| && Lower(facilities[i].name) == Lower(first.name);
      assert Lower(mid[i].name) == Lower(second.name);
    }
  }

  /** No two facilities share a case-insensitive name. */
  ghost predicate NamesUnique(facilities: seq<Facility>) {
    forall i, j :: 0 <= i < |facilities| && 0 <= j < |facilities| && i != j ==>
      Lower(facilities[i].name) != Lower(facilities[j].name)
  }

  /** The handler keeps facility names unique, whatever the request and the failures. */
  lemma CreateKeepsNamesUnique(facilities: seq<Facility>, req: FacilityRequest, faults: Faults)
    requires NamesUnique(facilities)
    ensures NamesUnique(FacilitiesAfter(facilities, req, faults))
  {
    var post := FacilitiesAfter(facilities, req, faults);
    if post != facilities {
      var n := |facilities|;
      forall i, j | 0 <= i < |post| && 0 <= j < |post| && i != j
        ensures Lower(post[i].name) != Lower(post[j].name)
      {
        if i == n {
          assert post[j] == facilities[j];
        } else if j == n {
          assert post[i] == facilities[i];
        } else {
          assert post[i] == facilities[i] && post[j] == facilities[j];
        }
      }
    }
  }
}
