/**
 What the dashboard's row selection guarantees across calls: the closed payload
 range, the start-up slider value, the "ALL" sentinel, sites missing from the
 table, how the scatter rows refine the pie rows, and how the dropdown's sites
 split the table.
 */
module DashboardProperties {
  import opened Wrappers
  import opened Sequences
  import opened Launches
  import opened Dashboard

  /** Both bounds are inclusive: the range [v, v] keeps exactly the rows of payload v. */
  lemma PointRangeKeepsExactPayload(d: seq<LaunchRecord>, v: int)
    ensures forall x :: x in FilterByPayload(d, v, v) <==> x in d && x.payloadMass == v
    ensures forall x: LaunchRecord :: x.payloadMass == v ==> multiset(FilterByPayload(d, v, v))[x] == multiset(d)[x]
  {
  }

  /** An inverted range is not an error: it selects no row, whatever the site. */
  lemma InvertedRangeSelectsNothing(d: seq<LaunchRecord>, selectedSite: SiteSelection, low: int, high: int)
    requires low > high
    ensures FilterByPayload(d, low, high) == []
    ensures ScatterRows(d, selectedSite, (low, high)) == []
    ensures ScatterPoints(d, selectedSite, (low, high)) == []
  {
  }

  /**
   The slider starts at [smallest payload, largest payload] of the table, so at
   start-up, with every site selected, the scatter chart and the pie chart are
   both handed the whole table.
   */
  lemma StartupRangeKeepsEveryRow(d: seq<LaunchRecord>)
    requires |d| > 0
    ensures PayloadBounds(d).Some?
    ensures FilterByPayload(d, PayloadBounds(d).value.0, PayloadBounds(d).value.1) == d
    ensures ScatterRows(d, Some(ALL), PayloadBounds(d).value) == d == PieRows(d, Some(ALL))
  {
    var (lo, hi) := PayloadBounds(d).value;
    WhereKeepsAll(d, (x: LaunchRecord) => lo <= x.payloadMass && x.payloadMass <= hi);
  }

  /** With "ALL" the scatter rows are the payload-masked rows, with no site restriction. */
  lemma ScatterAllSitesIsPayloadMask(d: seq<LaunchRecord>, payloadRange: (int, int))
    ensures ScatterRows(d, Some(ALL), payloadRange) == FilterByPayload(d, payloadRange.0, payloadRange.1)
  {
  }

  /**
   With a concrete site the scatter rows are the payload-masked rows of that
   site; the two masks may be applied in either order.
   */
  lemma ScatterSiteIsBothMasks(d: seq<LaunchRecord>, site: SiteSelection, payloadRange: (int, int))
    requires site != Some(ALL)
    ensures ScatterRows(d, site, payloadRange) == FilterBySite(FilterByPayload(d, payloadRange.0, payloadRange.1), site)
    ensures ScatterRows(d, site, payloadRange) == FilterByPayload(FilterBySite(d, site), payloadRange.0, payloadRange.1)
  {
    var (low, high) := payloadRange;
    WhereCommutes(d, (x: LaunchRecord) => low <= x.payloadMass && x.payloadMass <= high,
                     (x: LaunchRecord) => site == Some(x.launchSite));
  }

  /** Applying the site mask a second time changes nothing. */
  lemma SiteMaskIdempotent(d: seq<LaunchRecord>, site: SiteSelection)
    ensures FilterBySite(FilterBySite(d, site), site) == FilterBySite(d, site)
  {
    WhereKeepsAll(FilterBySite(d, site), (x: LaunchRecord) => site == Some(x.launchSite));
  }

  /**
   A site that no row has, or a cleared dropdown, selects nothing in either
   chart; this is not an error.
   */
  lemma UnknownSiteSelectsNothing(d: seq<LaunchRecord>, site: SiteSelection, payloadRange: (int, int))
    requires site != Some(ALL) && (site.None? || site.value !in Sites(d))
    ensures PieRows(d, site) == []
    ensures ScatterRows(d, site, payloadRange) == []
  {
  }

  /**
   The scatter rows are the pie rows for the same site selection further
   restricted by the payload slider; the slider never changes the pie rows.
   */
  lemma ScatterRefinesPie(d: seq<LaunchRecord>, selectedSite: SiteSelection, payloadRange: (int, int))
    ensures ScatterRows(d, selectedSite, payloadRange) ==
            FilterByPayload(PieRows(d, selectedSite), payloadRange.0, payloadRange.1)
    ensures IsSubsequence(ScatterRows(d, selectedSite, payloadRange), PieRows(d, selectedSite))
  {
    if selectedSite != Some(ALL) {
      ScatterSiteIsBothMasks(d, selectedSite, payloadRange);
    }
  }

  /** Every site the dropdown offers selects at least one pie row. */
  lemma OfferedSitesHaveRows(d: seq<LaunchRecord>)
    ensures forall i :: 1 <= i < |DropdownOptions(d)| ==> |PieRows(d, Some(DropdownOptions(d)[i].value))| > 0
  {
  }

  /** Sum of the pie-row counts over a list of site selections. */
  function PieRowsAcross(selections: seq<string>, d: seq<LaunchRecord>): nat
  {
    if |selections| == 0 then 0
    else PieRowsAcross(selections[..|selections| - 1], d) + |PieRows(d, Some(selections[|selections| - 1]))|
  }

  lemma {:induction false} PieRowsAcrossCountsSites(sites: seq<string>, d: seq<LaunchRecord>)
    requires ALL !in sites
    ensures PieRowsAcross(sites, d) == CountAcross(sites, Sites(d))
  {
    if |sites| != 0 {
      var n := |sites| - 1;
      assert sites == sites[..n] + [sites[n]];
      PieRowsAcrossCountsSites(sites[..n], d);
    }
  }

  /**
   When no site is literally named "ALL", the single-site pie rows of the
   dropdown's sites (its options after the first, which are the distinct values
   of the site column in first-seen order) split the table: every row belongs to
   exactly one of them.
   */
  lemma OfferedSitesPartitionTable(d: seq<LaunchRecord>)
    requires ALL !in Sites(d)
    ensures PieRowsAcross(Unique(Sites(d)), d) == |d|
  {
    PieRowsAcrossCountsSites(Unique(Sites(d)), d);
    UniqueCountsCoverAll(Sites(d));
  }

  /** The table of the worked cases below: sites A and B, A with a success at 3000 kg and a failure at 5000 kg, B with a success at 9000 kg. */
  function ExampleTable(): seq<LaunchRecord>
  {
    [LaunchRecord("A", 3000, 1, "v1"), LaunchRecord("A", 5000, 0, "v1"), LaunchRecord("B", 9000, 1, "ft")]
  }

  /** With every site and the range [4000, 10000] the scatter chart gets the points at 5000 and 9000 kg. */
  lemma ExampleScatter()
    ensures ScatterPoints(ExampleTable(), Some(ALL), (4000, 10000)) == [ScatterPoint(5000, 0, "v1"), ScatterPoint(9000, 1, "ft")]
  {
  }

  /** The pie chart for site A gets A's two rows. */
  lemma ExamplePie()
    ensures PieRows(ExampleTable(), Some("A")) == ExampleTable()[..2]
  {
    var d := ExampleTable();
    var keep := (x: LaunchRecord) => Some("A") == Some(x.launchSite);
    assert Where(d[2..], keep) == [];
    assert Where(d[1..], keep) == [d[1]];
    assert Where(d, keep) == [d[0], d[1]];
  }

  /** The dropdown offers "All Sites", then A, then B. */
  lemma ExampleDropdown()
    ensures DropdownOptions(ExampleTable()) ==
            [DropdownOption(ALL_LABEL, ALL), DropdownOption("A", "A"), DropdownOption("B", "B")]
  {
  }
}
