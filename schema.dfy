/**
 * The three tables the handlers touch, as in-memory sequences of rows, and the
 * two things the database does for them that the model needs: filtering rows
 * (a `SELECT ... WHERE`) and handing out a new serial id.
 */
module Schema {

  /** A row of `"Drivers"`; `licenseNumber` is the column `liscence_id_number`. */
  datatype Driver = Driver(
    id: int,
    name: string,
    age: int,
    gender: string,
    contactNumber: string,
    licenseNumber: string,
    enabled: bool)

  /** A row of `"DriverVehicles"`, linking a driver to a vehicle it may drive. */
  datatype DriverVehicle = DriverVehicle(driverId: int, vehicleId: int, enabled: bool)

  /** A row of `"Facilities"`. */
  datatype Facility = Facility(id: int, name: string, capacity: int, location: string, enabled: bool)

  /** The whole store: what a transaction snapshot saves and ROLLBACK restores. */
  datatype Tables = Tables(
    drivers: seq<Driver>,
    driverVehicles: seq<DriverVehicle>,
    facilities: seq<Facility>)

  /** The rows that satisfy `p`, in table order. */
  function Where<T>(rows: seq<T>, p: T -> bool): seq<T> {
    if rows == [] then []
    else (if p(rows[0]) then [rows[0]] else []) + Where(rows[1..], p)
  }

  /** A `WHERE` query returns some row exactly when some row satisfies its condition. */
  lemma {:induction false} WhereFindsMatch<T>(rows: seq<T>, p: T -> bool)
    ensures |Where(rows, p)| > 0 <==> exists i :: 0 <= i < |rows| && p(rows[i])
  {
    if rows != [] {
      WhereFindsMatch(rows[1..], p);
      if exists j :: 0 <= j < |rows[1..]| && p(rows[1..][j]) {
        var j :| 0 <= j < |rows[1..]| && p(rows[1..][j]);
        assert p(rows[j + 1]);
      }
      if exists i :: 0 <= i < |rows| && p(rows[i]) {
        var i :| 0 <= i < |rows| && p(rows[i]);
        if i > 0 {
          assert p(rows[1..][i - 1]);
        }
      }
    }
  }

  function DriverIds(rows: seq<Driver>): seq<int> {
    seq(|rows|, i requires 0 <= i < |rows| => rows[i].id)
  }

  function FacilityIds(rows: seq<Facility>): seq<int> {
    seq(|rows|, i requires 0 <= i < |rows| => rows[i].id)
  }

  /** The id a serial column gives the next row: positive and larger than every id in use. */
  function FreshId(ids: seq<int>): (id: int)
    ensures id >= 1
    ensures forall k :: 0 <= k < |ids| ==> ids[k] < id
  {
    if ids == [] then 1
    else
      var later := FreshId(ids[1..]);
      if ids[0] < later then later else ids[0] + 1
  }
}
