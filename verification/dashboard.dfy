/**
 The row selection behind the dashboard's two charts and its site dropdown:
 the payload-range mask and the site mask, the rows handed to the scatter chart
 (payload range first, then site) and to the pie chart (site only), and the
 dropdown's option list.
 */
module Dashboard {
  import opened Wrappers
  import opened Sequences
  import opened Launches

  /** The dropdown value that stands for every launch site. */
  const ALL: string := "ALL"

  /** The label shown for that value. */
  const ALL_LABEL: string := "All Sites"

  /**
   The dropdown's value as the callbacks receive it: a site name, "ALL", or
   `None` once the dropdown has been cleared.
   */
  type SiteSelection = Option<string>

  // ---------------------------------------------------------------------------
  // Masks
  // ---------------------------------------------------------------------------

  /** Rows whose payload lies in the closed range [low, high]. */
  function FilterByPayload(d: seq<LaunchRecord>, low: int, high: int): (r: seq<LaunchRecord>)
    ensures IsSubsequence(r, d)
    ensures forall x :: multiset(r)[x] == if low <= x.payloadMass <= high then multiset(d)[x] else 0
    ensures forall x :: x in r <==> x in d && low <= x.payloadMass <= high
  {
    Where(d, (x: LaunchRecord) => low <= x.payloadMass && x.payloadMass <= high)
  }

  /**
   Rows launched from exactly the selected site. Comparing the site column with
   `None` is false on every row, so a cleared selection keeps no row.
   */
  function FilterBySite(d: seq<LaunchRecord>, site: SiteSelection): (r: seq<LaunchRecord>)
    ensures IsSubsequence(r, d)
    ensures forall x :: multiset(r)[x] == if site == Some(x.launchSite) then multiset(d)[x] else 0
    ensures forall x :: x in r <==> x in d && site == Some(x.launchSite)
    ensures site.None? ==> r == []
  {
    var keep := (x: LaunchRecord) => site == Some(x.launchSite);
    if site.None? then
      WhereKeepsNone(d, keep);
      Where(d, keep)
    else
      Where(d, keep)
  }

  // ---------------------------------------------------------------------------
  // Scatter chart
  // ---------------------------------------------------------------------------

  /** One point of the scatter chart: x is the payload, y the outcome, colour the booster. */
  datatype ScatterPoint = ScatterPoint(payloadMass: int, outcome: OutcomeClass, boosterCategory: string)

  /**
   The rows plotted by the scatter callback for a site selection and a slider
   value: the payload mask first, then, unless every site is selected, the site mask.
   */
  function ScatterRows(d: seq<LaunchRecord>, selectedSite: SiteSelection, payloadRange: (int, int)): (r: seq<LaunchRecord>)
    ensures IsSubsequence(r, d)
    ensures forall x ::
              multiset(r)[x] ==
                if payloadRange.0 <= x.payloadMass <= payloadRange.1
                   && (selectedSite == Some(ALL) || selectedSite == Some(x.launchSite))
                then multiset(d)[x] else 0
  {
    var (low, high) := payloadRange;
    var filtered := FilterByPayload(d, low, high);
    if selectedSite == Some(ALL) then filtered
    else
      var siteRows := FilterBySite(filtered, selectedSite);
      SubsequenceTransitive(siteRows, filtered, d);
      siteRows
  }

  /** The points of the scatter chart: one per selected row, in row order. */
  function ScatterPoints(d: seq<LaunchRecord>, selectedSite: SiteSelection, payloadRange: (int, int)): (r: seq<ScatterPoint>)
    ensures |r| == |ScatterRows(d, selectedSite, payloadRange)|
    ensures forall i :: 0 <= i < |r| ==>
      var x := ScatterRows(d, selectedSite, payloadRange)[i];
      r[i] == ScatterPoint(x.payloadMass, x.outcome, x.boosterCategory)
  {
    var rows := ScatterRows(d, selectedSite, payloadRange);
    seq(|rows|, i requires 0 <= i < |rows| => ScatterPoint(rows[i].payloadMass, rows[i].outcome, rows[i].boosterCategory))
  }

  // ---------------------------------------------------------------------------
  // Pie chart
  // ---------------------------------------------------------------------------

  /**
   The rows handed to the pie callback's chart: the whole table when every site is
   selected, otherwise that site's rows. The payload slider is not an input.
   */
  function PieRows(d: seq<LaunchRecord>, selectedSite: SiteSelection): (r: seq<LaunchRecord>)
    ensures selectedSite == Some(ALL) ==> r == d
    ensures IsSubsequence(r, d)
    ensures selectedSite != Some(ALL) ==>
      forall x :: multiset(r)[x] == if selectedSite == Some(x.launchSite) then multiset(d)[x] else 0
    ensures selectedSite != Some(ALL) ==>
      |r| == if selectedSite.Some? then multiset(Sites(d))[selectedSite.value] else 0
  {
    if selectedSite == Some(ALL) then
      SubsequenceReflexive(d);
      d
    else
      if selectedSite.Some? then SiteRowCount(d, selectedSite.value); FilterBySite(d, selectedSite)
      else FilterBySite(d, selectedSite)
  }

  /** The site mask keeps as many rows as the site column holds that name. */
  lemma {:induction false} SiteRowCount(d: seq<LaunchRecord>, site: string)
    ensures |FilterBySite(d, Some(site))| == multiset(Sites(d))[site]
  {
    if |d| != 0 {
      var n := |d| - 1;
      var front := d[..n];
      assert d == front + [d[n]];
      SiteRowCount(front, site);
      WhereAppend(front, [d[n]], (x: LaunchRecord) => Some(site) == Some(x.launchSite));
      SitesAppend(front, d[n]);
      assert multiset(Sites(d)) == multiset(Sites(front)) + multiset{d[n].launchSite};
    }
  }

  // ---------------------------------------------------------------------------
  // Site dropdown
  // ---------------------------------------------------------------------------

  /**
   Options that carry the distinct sites in order describe the table's sites:
   each site once, labelled by its name, in first-seen order.
   */
  lemma SiteOptionsDescribeSites(d: seq<LaunchRecord>, sites: seq<string>, r: seq<DropdownOption>)
    requires sites == Unique(Sites(d))
    requires |r| == |sites| + 1
    requires forall i :: 1 <= i < |r| ==> r[i] == DropdownOption(sites[i - 1], sites[i - 1])
    ensures forall i :: 1 <= i < |r| ==> r[i].labelText == r[i].value
    ensures forall x :: x in d ==> DropdownOption(x.launchSite, x.launchSite) in r[1..]
    ensures forall i :: 1 <= i < |r| ==> r[i].value in Sites(d)
    ensures forall i, j :: 1 <= i < j < |r| ==> r[i].value != r[j].value
    ensures forall i, j :: 1 <= i < j < |r| ==>
              FirstIndex(Sites(d), r[i].value) < FirstIndex(Sites(d), r[j].value)
  {
    forall x | x in d
      ensures DropdownOption(x.launchSite, x.launchSite) in r[1..]
    {
      var k :| 0 <= k < |d| && d[k] == x;
      assert Sites(d)[k] == x.launchSite;
      assert x.launchSite in sites;
      var m :| 0 <= m < |sites| && sites[m] == x.launchSite;
      assert r[1..][m] == r[m + 1];
    }
    forall i | 1 <= i < |r|
      ensures r[i].value in Sites(d)
    {
      assert sites[i - 1] in sites;
    }
    UniqueFirstSeenOrder(Sites(d));
    forall i, j | 1 <= i < j < |r|
      ensures FirstIndex(Sites(d), r[i].value) < FirstIndex(Sites(d), r[j].value)
    {
      assert r[i].value == sites[i - 1] && r[j].value == sites[j - 1];
    }
  }

  datatype DropdownOption = DropdownOption(labelText: string, value: string)

  /**
   The dropdown's options: "All Sites" first, then one option per distinct launch
   site, labelled with its own name, in the order the sites first occur in the table.
   */
  function DropdownOptions(d: seq<LaunchRecord>): (r: seq<DropdownOption>)
    ensures |r| >= 1 && r[0] == DropdownOption(ALL_LABEL, ALL)
    ensures forall i :: 1 <= i < |r| ==> r[i].labelText == r[i].value
    ensures forall x :: x in d ==> DropdownOption(x.launchSite, x.launchSite) in r[1..]
    ensures forall i :: 1 <= i < |r| ==> r[i].value in Sites(d)
    ensures forall i, j :: 1 <= i < j < |r| ==> r[i].value != r[j].value
    ensures forall i, j :: 1 <= i < j < |r| ==>
      FirstIndex(Sites(d), r[i].value) < FirstIndex(Sites(d), r[j].value)
  {
    var sites := Unique(Sites(d));
    var r := [DropdownOption(ALL_LABEL, ALL)] + seq(|sites|, i requires 0 <= i < |sites| => DropdownOption(sites[i], sites[i]));
    assert forall i :: 1 <= i < |r| ==> r[i] == DropdownOption(sites[i - 1], sites[i - 1]);
    SiteOptionsDescribeSites(d, sites, r);
    r
  }
}
