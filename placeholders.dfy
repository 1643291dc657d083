/**
 * The VALUES list the driver handler builds for its bulk insert into
 * `"DriverVehicles"` (createDriver.js, lines 88-90), and how the database
 * reads that list back against the parameter array: a parser for
 * `($1, $k, true)` tuples and a binder that turns each tuple into a row.
 */
module Placeholders {
  import opened Wrappers
  import opened Text
  import opened Schema

  const TupleHead := "($1, $"
  const TupleTail := ", true)"

  /** The tuple `($1, $k, true)`: driver id from parameter 1, vehicle id from parameter `k`. */
  function Tuple(k: nat): string {
    TupleHead + Decimal(k) + TupleTail
  }

  /** `vehicles.map((_, i) => `($1, $${i + 2}, true)`).join(',')`. */
  function ValuesList(vehicles: seq<int>): string {
    Join(seq(|vehicles|, i requires 0 <= i < |vehicles| => Tuple(i + 2)), ",")
  }

  /** The parameter numbers `2, 3, ..., n + 1`. */
  function ParamNumbers(n: nat): seq<nat> {
    seq(n, i requires 0 <= i < n => i + 2)
  }

  /** The tuples for a list of parameter numbers, in order. */
  function TuplesOf(ks: seq<nat>): seq<string> {
    seq(|ks|, i requires 0 <= i < |ks| => Tuple(ks[i]))
  }

  /** Reads one tuple at the front of `s`: its parameter number and what follows it. */
  function ParseTuple(s: string): (r: Option<(nat, string)>)
    ensures r.Some? ==> |r.value.1| < |s|
  {
    if |s| < |TupleHead| || s[..|TupleHead|] != TupleHead then None
    else
      var t := s[|TupleHead|..];
      var n := DigitRun(t);
      var after := t[n..];
      if n == 0 || |after| < |TupleTail| || after[..|TupleTail|] != TupleTail then None
      else Some((DecimalValue(t[..n]), after[|TupleTail|..]))
  }

  /** Reads one or more comma-separated tuples that make up all of `s`. */
  function ParseTuples(s: string): Option<seq<nat>>
    decreases |s|
  {
    match ParseTuple(s)
    case None => None
    case Some(p) =>
      if p.1 == [] then Some([p.0])
      else if p.1[0] != ',' then None
      else
        match ParseTuples(p.1[1..])
        case None => None
        case Some(ks) => Some([p.0] + ks)
  }

  /** Reads a whole VALUES list; the empty list reads as no tuples. */
  function ParseValues(s: string): Option<seq<nat>> {
    if s == [] then Some([]) else ParseTuples(s)
  }

  /**
   * What the database inserts for `VALUES <values>` with parameters `params`:
   * one row per tuple, or None when the list is empty, unreadable or names a
   * parameter that is not there.
   */
  function BindValues(values: string, params: seq<int>): Option<seq<DriverVehicle>> {
    match ParseValues(values)
    case None => None
    case Some(ks) =>
      if ks == [] || |params| == 0 || exists i :: 0 <= i < |ks| && !(1 <= ks[i] <= |params|) then None
      else Some(seq(|ks|, i requires 0 <= i < |ks| => DriverVehicle(params[0], params[ks[i] - 1], true)))
  }

  /** The rows `(driverId, v, true)`, one per vehicle, in order. */
  function Links(driverId: int, vehicles: seq<int>): seq<DriverVehicle> {
    seq(|vehicles|, i requires 0 <= i < |vehicles| => DriverVehicle(driverId, vehicles[i], true))
  }

  /** A tuple followed by a comma or by nothing is read back exactly. */
  lemma ParseTupleOf(k: nat, rest: string)
    requires rest == [] || rest[0] == ','
    ensures ParseTuple(Tuple(k) + rest) == Some((k, rest))
  {
    var s := Tuple(k) + rest;
    var d := Decimal(k);
    assert s == TupleHead + (d + (TupleTail + rest));
    assert s[..|TupleHead|] == TupleHead;
    var t := s[|TupleHead|..];
    assert t == d + (TupleTail + rest);
    DigitRunOf(d, TupleTail + rest);
    assert t[..|d|] == d;
    DecimalRoundTrip(k);
    var after := t[|d|..];
    assert after == TupleTail + rest;
    assert after[..|TupleTail|] == TupleTail;
    assert after[|TupleTail|..] == rest;
  }

  /** A non-empty comma-join of tuples is read back as its parameter numbers. */
  lemma {:induction false} ParseJoinedTuples(ks: seq<nat>)
    requires |ks| >= 1
    ensures ParseTuples(Join(TuplesOf(ks), ",")) == Some(ks)
  {
    var parts := TuplesOf(ks);
    var first := Tuple(ks[0]);
    assert parts[0] == first;
    if |ks| == 1 {
      assert Join(parts, ",") == first + "" == first;
      ParseTupleOf(ks[0], "");
      assert [ks[0]] == ks;
    } else {
      var rest := Join(TuplesOf(ks[1..]), ",");
      assert parts[1..] == TuplesOf(ks[1..]);
      assert Join(parts, ",") == first + "," + rest;
      assert first + "," + rest == first + ("," + rest);
      ParseTupleOf(ks[0], "," + rest);
      assert ("," + rest)[1..] == rest;
      ParseJoinedTuples(ks[1..]);
      assert [ks[0]] + ks[1..] == ks;
    }
  }

  /**
   * The VALUES list for N vehicles reads back as exactly N tuples, the i-th of
   * which (counting from 0) names parameter i + 2; for no vehicles it is empty.
   */
  lemma ValuesListReadsBack(vehicles: seq<int>)
    ensures ParseValues(ValuesList(vehicles)) == Some(ParamNumbers(|vehicles|))
    ensures ValuesList(vehicles) == [] <==> vehicles == []
  {
    var ks := ParamNumbers(|vehicles|);
    assert seq(|vehicles|, i requires 0 <= i < |vehicles| => Tuple(i + 2)) == TuplesOf(ks);
    if vehicles != [] {
      ParseJoinedTuples(ks);
    }
  }

  /**
   * With parameters `[driverId] + vehicles`, the VALUES list binds to one
   * enabled link per vehicle, in order, all carrying the new driver id:
   * placeholder k names vehicle k - 1.
   */
  lemma BindsEveryVehicle(driverId: int, vehicles: seq<int>)
    requires |vehicles| >= 1
    ensures BindValues(ValuesList(vehicles), [driverId] + vehicles) == Some(Links(driverId, vehicles))
  {
    ValuesListReadsBack(vehicles);
    var params := [driverId] + vehicles;
    var ks := ParamNumbers(|vehicles|);
    assert ks != [] && |ks| == |vehicles|;
    assert !exists i :: 0 <= i < |ks| && !(1 <= ks[i] <= |params|);
    BoundParamNumbers(driverId, vehicles);
  }

  /** Binding placeholders 2 .. n + 1 reads back the vehicles in order. */
  lemma BoundParamNumbers(driverId: int, vehicles: seq<int>)
    ensures var params := [driverId] + vehicles;
            var ks := ParamNumbers(|vehicles|);
            seq(|ks|, i requires 0 <= i < |ks| => DriverVehicle(params[0], params[ks[i] - 1], true))
            == Links(driverId, vehicles)
  {
    var params := [driverId] + vehicles;
    var ks := ParamNumbers(|vehicles|);
    var bound := seq(|ks|, i requires 0 <= i < |ks| => DriverVehicle(params[0], params[ks[i] - 1], true));
    assert forall i :: 0 <= i < |ks| ==> bound[i] == Links(driverId, vehicles)[i];
  }
}
