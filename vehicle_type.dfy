/**
 * The space-pool resolver: which vehicle type id holds the capacity a request
 * draws on, and which vehicle type ids' reservations count against that pool.
 * Cars and SUVs share the car pool; every other type has a pool of its own.
 */
module VehicleTypes {
  import opened Models

  /** ASCII lower-casing of one character. */
  function LowerChar(c: char): char
  {
    if 'A' <= c <= 'Z' then (c as int + 32) as char else c
  }

  function ToLower(s: string): (r: string)
    ensures |r| == |s|
    ensures forall i :: 0 <= i < |s| ==> r[i] == LowerChar(s[i])
  {
    seq(|s|, i requires 0 <= i < |s| => LowerChar(s[i]))
  }

  /** The id whose vehicle_spaces row holds the capacity: SUVs use the car pool, id 1. */
  function MapVehicleTypeIDForSpace(vehicleTypeId: int, vehicleTypeName: string): (r: int)
    ensures ToLower(vehicleTypeName) == "suv" ==> r == 1
    ensures ToLower(vehicleTypeName) != "suv" ==> r == vehicleTypeId
  {
    if ToLower(vehicleTypeName) == "suv" then 1 else vehicleTypeId
  }

  /** Resolving the pool id of an already resolved id changes nothing. */
  lemma MapVehicleTypeIDForSpaceIdempotent(vehicleTypeId: int, vehicleTypeName: string)
    ensures MapVehicleTypeIDForSpace(MapVehicleTypeIDForSpace(vehicleTypeId, vehicleTypeName), vehicleTypeName)
         == MapVehicleTypeIDForSpace(vehicleTypeId, vehicleTypeName)
  {
  }

  predicate IsCarPool(name: string)
  {
    name == "car" || name == "suv"
  }

  /**
   * Whether a stored vehicle type name shares the pool of the (already
   * lower-cased) requested name. Stored names are compared exactly.
   */
  predicate InPool(storedName: string, requested: string)
  {
    if IsCarPool(requested) then IsCarPool(storedName) else storedName == requested
  }

  /** The ids of the vehicle types, in table order. */
  function Ids(types: seq<VehicleType>): (r: seq<int>)
    ensures |r| == |types|
    ensures forall i :: 0 <= i < |types| ==> r[i] == types[i].id
  {
    seq(|types|, i requires 0 <= i < |types| => types[i].id)
  }

  /** Reference definition of the pool: member ids in table order, for a lower-cased name. */
  function PoolIds(types: seq<VehicleType>, requested: string): seq<int>
  {
    if types == [] then []
    else
      var last := types[|types| - 1];
      PoolIds(types[..|types| - 1], requested) + (if InPool(last.name, requested) then [last.id] else [])
  }

  /** `a` is `b` with some elements left out, order kept. */
  predicate Subsequence(a: seq<int>, b: seq<int>)
  {
    if a == [] then true
    else if b == [] then false
    else (a[|a| - 1] == b[|b| - 1] && Subsequence(a[..|a| - 1], b[..|b| - 1]))
         || Subsequence(a, b[..|b| - 1])
  }

  /** The loop of utils.VehicleTypeIDsForSpace, proved to compute the pool. */
  method VehicleTypeIDsForSpace(types: seq<VehicleType>, vehicleTypeName: string) returns (ids: seq<int>)
    ensures ids == PoolIds(types, ToLower(vehicleTypeName))
  {
    ids := [];
    var name := ToLower(vehicleTypeName);
    for i := 0 to |types|
      invariant ids == PoolIds(types[..i], name)
    {
      assert types[..i + 1][..i] == types[..i];
      var vt := types[i];
      if name == "car" || name == "suv" {
        if vt.name == "car" || vt.name == "suv" {
          ids := ids + [vt.id];
        }
      } else if vt.name == name {
        ids := ids + [vt.id];
      }
    }
    assert types[..|types|] == types;
  }

  /** An id is in the pool exactly when some vehicle type with that id has a matching name. */
  lemma {:induction false} PoolIdsMembership(types: seq<VehicleType>, requested: string, x: int)
    ensures x in PoolIds(types, requested)
        <==> exists i :: 0 <= i < |types| && types[i].id == x && InPool(types[i].name, requested)
  {
    if types != [] {
      var front := types[..|types| - 1];
      PoolIdsMembership(front, requested, x);
      if exists i :: 0 <= i < |types| && types[i].id == x && InPool(types[i].name, requested) {
        var i :| 0 <= i < |types| && types[i].id == x && InPool(types[i].name, requested);
        if i < |types| - 1 {
          assert front[i] == types[i];
        }
      }
      if exists i :: 0 <= i < |front| && front[i].id == x && InPool(front[i].name, requested) {
        var i :| 0 <= i < |front| && front[i].id == x && InPool(front[i].name, requested);
        assert types[i] == front[i];
      }
    }
  }

  /** The pool lists vehicle type ids in table order, skipping non-members. */
  lemma {:induction false} PoolIdsSubsequence(types: seq<VehicleType>, requested: string)
    ensures Subsequence(PoolIds(types, requested), Ids(types))
  {
    if types != [] {
      var front := types[..|types| - 1];
      var last := types[|types| - 1];
      PoolIdsSubsequence(front, requested);
      assert Ids(types)[..|types| - 1] == Ids(front);
      var p := PoolIds(types, requested);
      if InPool(last.name, requested) {
        assert p[..|p| - 1] == PoolIds(front, requested);
      } else {
        assert p == PoolIds(front, requested);
        SubsequenceOfEmpty(p);
      }
    }
  }

  lemma SubsequenceOfEmpty(a: seq<int>)
    ensures a != [] ==> !Subsequence(a, [])
  {
  }

  /** Requests for "car" and for "suv", in any case, resolve to the same pool. */
  lemma {:induction false} CarAndSuvSharePool(types: seq<VehicleType>, name1: string, name2: string)
    requires IsCarPool(ToLower(name1)) && IsCarPool(ToLower(name2))
    ensures PoolIds(types, ToLower(name1)) == PoolIds(types, ToLower(name2))
  {
    if types != [] {
      CarAndSuvSharePool(types[..|types| - 1], name1, name2);
    }
  }

  /** Only table entries named exactly "car" or "suv" join the car pool: "Car" does not. */
  lemma {:induction false} CarPoolIsCaseSensitive(types: seq<VehicleType>, requested: string, i: int)
    requires IsCarPool(requested)
    requires 0 <= i < |types| && !IsCarPool(types[i].name)
    requires forall j :: 0 <= j < |types| && j != i ==> types[j].id != types[i].id
    ensures types[i].id !in PoolIds(types, requested)
  {
    PoolIdsMembership(types, requested, types[i].id);
  }

  /** For a name outside the car pool, members are the entries whose stored name is the lower-cased request. */
  lemma {:induction false} OtherPoolMembers(types: seq<VehicleType>, name: string)
    requires !IsCarPool(ToLower(name))
    ensures PoolIds(types, ToLower(name)) == []
        <==> forall i :: 0 <= i < |types| ==> types[i].name != ToLower(name)
  {
    if types != [] {
      var front := types[..|types| - 1];
      OtherPoolMembers(front, name);
      if forall i :: 0 <= i < |front| ==> front[i].name != ToLower(name) {
        forall i | 0 <= i < |types| - 1 ensures types[i].name != ToLower(name) {
          assert types[i] == front[i];
        }
      }
    }
  }
}
