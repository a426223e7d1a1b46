/**
 The launch table the dashboard reads once at start-up: one record per launch,
 in file order, never changed afterwards.
 */
module Launches {
  import opened Wrappers

  /** The `class` column: 1 for a successful outcome, 0 for a failure. */
  type OutcomeClass = c: int | 0 <= c <= 1

  /**
   One row of the table: the `Launch Site`, `Payload Mass (kg)`, `class` and
   `Booster Version Category` columns.
   */
  datatype LaunchRecord = LaunchRecord(
    launchSite: string,
    payloadMass: int,
    outcome: OutcomeClass,
    boosterCategory: string)

  /** The `Launch Site` column, row by row. */
  function Sites(d: seq<LaunchRecord>): (r: seq<string>)
    ensures |r| == |d|
    ensures forall i :: 0 <= i < |d| ==> r[i] == d[i].launchSite
  {
    seq(|d|, i requires 0 <= i < |d| => d[i].launchSite)
  }

  lemma SitesAppend(d: seq<LaunchRecord>, x: LaunchRecord)
    ensures Sites(d + [x]) == Sites(d) + [x.launchSite]
  {
  }

  /**
   The smallest and largest payload of the table; `None` for a table with no
   rows, whose column minimum and maximum are undefined.
   */
  function PayloadBounds(d: seq<LaunchRecord>): (r: Option<(int, int)>)
    ensures r.None? <==> |d| == 0
    ensures r.Some? ==> forall x :: x in d ==> r.value.0 <= x.payloadMass <= r.value.1
    ensures r.Some? ==> exists x :: x in d && x.payloadMass == r.value.0
    ensures r.Some? ==> exists x :: x in d && x.payloadMass == r.value.1
  {
    if |d| == 0 then None
    else
      var p := d[0].payloadMass;
      assert d == [d[0]] + d[1..];
      match PayloadBounds(d[1..])
      case None => Some((p, p))
      case Some((lo, hi)) =>
        Some((if p < lo then p else lo, if p > hi then p else hi))
  }
}
