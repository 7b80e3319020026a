/**
 * The external map dataset: an ordered list of county outlines, each with
 * a join key, an SVG path the model never interprets, and an optional
 * English name.
 */
module Geometry {
  import opened Wrappers

  datatype Location = Location(id: string, path: string, name: Option<string>)

  /** Whether the record at `i` matches `target` under `loc.id === target`; `null` matches nothing. */
  predicate Matches(locs: seq<Location>, i: int, target: Option<string>)
    requires 0 <= i < |locs|
  {
    Some(locs[i].id) == target
  }

  /** `v` is the record at the first index that matches `target`. */
  ghost predicate IsFirstMatch(locs: seq<Location>, target: Option<string>, v: Location) {
    exists i :: 0 <= i < |locs| && locs[i] == v && Matches(locs, i, target)
                && forall j :: 0 <= j < i ==> !Matches(locs, j, target)
  }

  /** `locations.find(loc => loc.id === target)`: the first record whose id is `target`. */
  function Find(locs: seq<Location>, target: Option<string>): (r: Option<Location>)
    ensures r.None? <==> forall i :: 0 <= i < |locs| ==> !Matches(locs, i, target)
    ensures r.Some? ==> IsFirstMatch(locs, target, r.value)
    ensures r.Some? ==> Some(r.value.id) == target
  {
    if locs == [] then None
    else if Some(locs[0].id) == target then
      assert Matches(locs, 0, target);
      Some(locs[0])
    else
      var r := Find(locs[1..], target);
      if r.Some? then FirstMatchShift(locs, target, r.value); r
      else
        assert forall i :: 1 <= i < |locs| ==> Matches(locs, i, target) == Matches(locs[1..], i - 1, target);
        r
  }

  /** A first match in the tail is a first match of the whole list when the head does not match. */
  lemma FirstMatchShift(locs: seq<Location>, target: Option<string>, v: Location)
    requires |locs| > 0 && !Matches(locs, 0, target)
    requires IsFirstMatch(locs[1..], target, v)
    ensures IsFirstMatch(locs, target, v)
  {
    var k :| 0 <= k < |locs[1..]| && locs[1..][k] == v && Matches(locs[1..], k, target)
             && forall j :: 0 <= j < k ==> !Matches(locs[1..], j, target);
    assert locs[k + 1] == v && Matches(locs, k + 1, target);
    forall j | 0 <= j < k + 1
      ensures !Matches(locs, j, target)
    {
      if j > 0 {
        assert Matches(locs, j, target) == Matches(locs[1..], j - 1, target);
      }
    }
  }

  /** Whether the dataset has a record with this id. */
  predicate Has(locs: seq<Location>, id: string) {
    exists i :: 0 <= i < |locs| && locs[i].id == id
  }

  /** `find` succeeds exactly for ids the dataset holds. */
  lemma FindHas(locs: seq<Location>, id: string)
    ensures Find(locs, Some(id)).Some? <==> Has(locs, id)
  {
    if Has(locs, id) {
      var i :| 0 <= i < |locs| && locs[i].id == id;
      assert Matches(locs, i, Some(id));
    }
  }
}
