/**
 * The relational store as mutable state: a `Database` object holding the three
 * tables, and a `Connection` checked out of the pool, whose open transaction is
 * a snapshot of the tables taken at BEGIN and restored at ROLLBACK.
 */
module Store {
  import opened Wrappers
  import opened Schema
  import opened Placeholders

  class Database {
    var drivers: seq<Driver>
    var driverVehicles: seq<DriverVehicle>
    var facilities: seq<Facility>

    constructor (t: Tables)
      ensures State() == t
    {
      drivers, driverVehicles, facilities := t.drivers, t.driverVehicles, t.facilities;
    }

    function State(): Tables
      reads this
    {
      Tables(drivers, driverVehicles, facilities)
    }

    /** Puts every table back to the saved contents. */
    method Restore(t: Tables)
      modifies this
      ensures State() == t
    {
      drivers, driverVehicles, facilities := t.drivers, t.driverVehicles, t.facilities;
    }

    /** `INSERT INTO "Drivers" (...) VALUES ($1, $2, $3, $4, $5, true) RETURNING id`. */
    method InsertDriver(name: string, age: int, gender: string, contactNumber: string, licenseNumber: string)
      returns (id: int)
      modifies this
      ensures id == FreshId(DriverIds(old(drivers)))
      ensures drivers == old(drivers) + [Driver(id, name, age, gender, contactNumber, licenseNumber, true)]
      ensures driverVehicles == old(driverVehicles) && facilities == old(facilities)
    {
      id := FreshId(DriverIds(drivers));
      drivers := drivers + [Driver(id, name, age, gender, contactNumber, licenseNumber, true)];
    }

    /** `INSERT INTO "DriverVehicles" (driver_id, vehicle_id, enabled) VALUES <values>` with `params`. */
    method InsertDriverVehicles(values: string, params: seq<int>)
      requires BindValues(values, params).Some?
      modifies this
      ensures driverVehicles == old(driverVehicles) + BindValues(values, params).value
      ensures drivers == old(drivers) && facilities == old(facilities)
    {
      driverVehicles := driverVehicles + BindValues(values, params).value;
    }

    /** `INSERT INTO "Facilities" (name, capacity, location, enabled) VALUES ($1, $2, $3, true) RETURNING *`. */
    method InsertFacility(name: string, capacity: int, location: string) returns (row: Facility)
      modifies this
      ensures row == Facility(FreshId(FacilityIds(old(facilities))), name, capacity, location, true)
      ensures facilities == old(facilities) + [row]
      ensures drivers == old(drivers) && driverVehicles == old(driverVehicles)
    {
      row := Facility(FreshId(FacilityIds(facilities)), name, capacity, location, true);
      facilities := facilities + [row];
    }
  }

  /** A client checked out of the pool with `pool.connect()`. */
  class Connection {
    const db: Database
    /** The tables as they were at BEGIN, while a transaction is open. */
    var transaction: Option<Tables>
    var released: bool

    constructor (db: Database)
      ensures this.db == db && transaction == None && !released
    {
      this.db := db;
      transaction := None;
      released := false;
    }

    /** `BEGIN`: opens a transaction over the current tables. */
    method Begin()
      requires transaction.None?
      modifies this
      ensures transaction == Some(db.State()) && released == old(released)
    {
      transaction := Some(db.State());
    }

    /** `ROLLBACK`: undoes everything since BEGIN; outside a transaction it changes nothing. */
    method Rollback()
      modifies this, db
      ensures transaction == None && released == old(released)
      ensures db.State() == if old(transaction).Some? then old(transaction).value else old(db.State())
    {
      if transaction.Some? {
        db.Restore(transaction.value);
      }
      transaction := None;
    }

    /** `COMMIT`: keeps the tables as they are and closes the transaction. */
    method Commit()
      modifies this
      ensures transaction == None && released == old(released)
    {
      transaction := None;
    }

    /** `client.release()`: hands the client back to the pool. */
    method Release()
      modifies this
      ensures released && transaction == old(transaction)
    {
      released := true;
    }
  }
}
