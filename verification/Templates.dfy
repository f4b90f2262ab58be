/** The built-in templates as whole pipelines, and what their metrics come to. */
module Templates {
  import opened Common
  import opened Types
  import opened KeyOrder
  import Sessionize
  import OffTime
  import SplitByActiveDays
  import Rate
  import GroupBy
  import Aggregate
  import Layout

  const GAP_SECONDS := 1800
  const LEAD_IN_SECONDS := 1500
  const DOLLARS := "dollars"

  // ---------------------------------------------------------------- work sessions timesheet

  function TotalSeconds(sessions: seq<Session>): real {
    Total(SplitByActiveDays.Items(sessions))
  }

  ghost predicate RatedRows(rows: seq<Row>, rated: seq<Row>, rate: real) {
    && |rated| == |rows|
    && forall i :: 0 <= i < |rows| ==> rated[i] == Rate.Rated(rows[i], SplitByActiveDays.HOURS, DOLLARS, rate)
  }

  /** What some seconds are worth at an hourly rate. */
  function Worth(rate: real, seconds: real): real {
    rate * (seconds / 3600.0)
  }

  lemma WorthAdds(rate: real, x: real, y: real)
    ensures Worth(rate, x) + y / 3600.0 * rate == Worth(rate, x + y) && Worth(rate, 0.0) == 0.0
  {
  }

  ghost predicate DayDollars(items: seq<Item>, rated: seq<Row>, days: seq<Key>, rate: real) {
    && |rated| == |days|
    && forall i :: 0 <= i < |rated| ==>
         Aggregate.FieldOf(rated[i], DOLLARS) == BucketSum(items, days[i]) / 3600.0 * rate
  }

  lemma EveryDayIsRated(sessions: seq<Session>, rows: seq<Row>, rated: seq<Row>, days: seq<Key>, rate: real)
    requires SplitByActiveDays.DayRows(sessions, rows, days) && RatedRows(rows, rated, rate)
    ensures DayDollars(SplitByActiveDays.Items(sessions), rated, days, rate)
  {
  }

  lemma DollarsNextDay(items: seq<Item>, rated: seq<Row>, days: seq<Key>, rate: real, n: nat)
    requires DayDollars(items, rated, days, rate) && n < |rated|
    requires Aggregate.SumOf(Aggregate.FieldValues(rated[..n], DOLLARS)) == Worth(rate, SumOverKeys(items, days[..n]))
    ensures Aggregate.SumOf(Aggregate.FieldValues(rated[..n + 1], DOLLARS))
      == Worth(rate, SumOverKeys(items, days[..n + 1]))
  {
    hide Worth, SumOverKeys, BucketSum, Aggregate.SumOf, Aggregate.FieldValues, Aggregate.FieldOf;
    Aggregate.SumNextRow(rated, DOLLARS, n);
    SumNextKey(items, days, n);
    WorthAdds(rate, SumOverKeys(items, days[..n]), BucketSum(items, days[n]));
  }

  lemma {:induction false} DollarsOverDays(items: seq<Item>, rated: seq<Row>, days: seq<Key>, rate: real, n: nat)
    requires DayDollars(items, rated, days, rate) && n <= |rated|
    ensures Aggregate.SumOf(Aggregate.FieldValues(rated[..n], DOLLARS)) == Worth(rate, SumOverKeys(items, days[..n]))
  {
    hide Worth;
    if n == 0 {
      WorthAdds(rate, 0.0, 0.0);
    } else {
      hide DayDollars, SumOverKeys, Aggregate.SumOf, Aggregate.FieldValues;
      assert DayDollars(items, rated, days, rate);
      DollarsOverDays(items, rated, days, rate, n - 1);
      DollarsNextDay(items, rated, days, rate, n - 1);
    }
  }

  /** Day bucketing, rating and summing lose no session and count none twice. */
  lemma DollarsAreConserved(sessions: seq<Session>, rows: seq<Row>, rated: seq<Row>, days: seq<Key>, rate: real)
    requires SplitByActiveDays.DayRows(sessions, rows, days) && RatedRows(rows, rated, rate)
    ensures Aggregate.SumOf(Aggregate.FieldValues(rated, DOLLARS)) == Worth(rate, TotalSeconds(sessions))
  {
    var items := SplitByActiveDays.Items(sessions);
    EveryDayIsRated(sessions, rows, rated, days, rate);
    DaysCoverSessions(sessions, days);
    DollarsOverDays(items, rated, days, rate, |rows|);
    assert rated[..|rows|] == rated && days[..|rows|] == days;
    hide SplitByActiveDays.Items, SplitByActiveDays.DayRow, SplitByActiveDays.ActiveDays, RatedRows, DayDollars,
         SumOverKeys, Total, Aggregate.SumOf, Aggregate.FieldValues, Worth;
    BucketsConserve(items, days);
  }

  lemma DaysCoverSessions(sessions: seq<Session>, days: seq<Key>)
    requires SplitByActiveDays.ActiveDays(sessions, days)
    ensures Increasing(days)
    ensures var items := SplitByActiveDays.Items(sessions); forall i :: 0 <= i < |items| ==> items[i].key in days
  {
  }

  function RatedDay(sessions: seq<Session>, day: Key, rate: real): Row {
    Rate.Rated(SplitByActiveDays.DayRow(sessions, day), SplitByActiveDays.HOURS, DOLLARS, rate)
  }

  /** What a run of the timesheet yields: sessions are the clusters of every owner, in an order
      some sort by time shows, without the off-hours; there is one rated row for each active
      day, ascending; and the dollars are the rate times all hours left. */
  ghost predicate IsTimesheet(timeline: seq<Event>, offHours: seq<OffWindow>, rate: real, sessions: seq<Session>,
                              rows: seq<Row>, dollars: real, owners: seq<string>, days: seq<Key>) {
    && Sessionize.AppearIn(timeline, owners) && Sessionize.OwnersOf(timeline, owners)
    && sessions == OffTime.ExcludeAll(Sessionize.AllClusters(timeline, owners, GAP_SECONDS, LEAD_IN_SECONDS), offHours)
    && SplitByActiveDays.ActiveDays(sessions, days) && |rows| == |days|
    && (forall i :: 0 <= i < |rows| ==> rows[i] == RatedDay(sessions, days[i], rate))
    && dollars == Worth(rate, TotalSeconds(sessions))
  }

  function BilledValues(seconds: real, r: real): map<string, real> {
    map["seconds" := seconds, "hours" := seconds / 3600.0, "dollars" := seconds / 3600.0 * r]
  }

  /** A row for a day with the seconds, hours and dollars of the sessions that start on it. */
  ghost predicate BillsDay(sessions: seq<Session>, row: Row, r: real) {
    && row.key.Day? && row.labels == map[]
    && row.values == BilledValues(SplitByActiveDays.SecondsStartedIn(sessions, row.key.number * 86400,
                                                                     (row.key.number + 1) * 86400) as real, r)
  }

  /** The bill at the hourly rate `r`: every row at that rate, ascending by day, and the hours of all
      sessions times the rate. */
  ghost predicate IsBill(sessions: seq<Session>, rows: seq<Row>, dollars: real, r: real) {
    && dollars == r * (TotalSeconds(sessions) / 3600.0)
    && (forall i :: 0 <= i < |rows| ==> BillsDay(sessions, rows[i], r))
    && SplitByActiveDays.AscendingDays(rows)
    && (forall x :: x in sessions ==> exists i :: 0 <= i < |rows| && rows[i].key == Day(DayOf(x.start)))
  }

  lemma ChargedDayBills(sessions: seq<Session>, day: Row, row: Row, r: real)
    requires SplitByActiveDays.TellsDay(sessions, day) && Rate.Charged([day], [row], "hours", "dollars", r)
    ensures BillsDay(sessions, row, r) && row.key == day.key
  {
    assert [day][0] == day && [row][0] == row;
    var seconds := SplitByActiveDays.SecondsStartedIn(sessions, row.key.number * 86400,
                                                      (row.key.number + 1) * 86400) as real;
    assert "seconds" != "hours" && "seconds" != "dollars" && "hours" != "dollars";
    assert "seconds" in day.values && day.values["seconds"] == seconds;
    assert "hours" in day.values && day.values["hours"] == seconds / 3600.0;
    assert row.values.Keys == {"seconds", "hours", "dollars"};
    assert row.values["seconds"] == seconds && row.values["hours"] == seconds / 3600.0;
    assert row.values["dollars"] == seconds / 3600.0 * r;
    assert BilledValues(seconds, r).Keys == row.values.Keys;
    assert forall f :: f in row.values ==> row.values[f] == BilledValues(seconds, r)[f];
    assert row.values == BilledValues(seconds, r);
  }

  lemma ChargedDaysAreBilled(sessions: seq<Session>, split: seq<Row>, rows: seq<Row>, dollars: real, r: real)
    requires forall i :: 0 <= i < |split| ==> SplitByActiveDays.TellsDay(sessions, split[i])
    requires SplitByActiveDays.AscendingDays(split)
    requires forall x :: x in sessions ==> exists i :: 0 <= i < |split| && split[i].key == Day(DayOf(x.start))
    requires Rate.Charged(split, rows, "hours", "dollars", r) && dollars == r * (TotalSeconds(sessions) / 3600.0)
    ensures IsBill(sessions, rows, dollars, r)
  {
    forall i | 0 <= i < |rows|
      ensures BillsDay(sessions, rows[i], r) && rows[i].key == split[i].key
    {
      assert Rate.Charged([split[i]], [rows[i]], "hours", "dollars", r);
      ChargedDayBills(sessions, split[i], rows[i], r);
    }
    hide BillsDay, SplitByActiveDays.TellsDay, Rate.Charged;
    forall x | x in sessions
      ensures exists i :: 0 <= i < |rows| && rows[i].key == Day(DayOf(x.start))
    {
      var i :| 0 <= i < |split| && split[i].key == Day(DayOf(x.start));
      assert rows[i].key == split[i].key;
    }
  }

  /** A number in the form is the rate; without one nothing is charged. */
  ghost predicate BillsByForm(sessions: seq<Session>, rows: seq<Row>, dollars: real, form: Option<Rate.FormValue>) {
    && (forall r :: form == Some(Rate.Number(r)) ==> IsBill(sessions, rows, dollars, r))
    && (form == None || form == Some(Rate.NotNumeric) ==> IsBill(sessions, rows, dollars, 0.0) && dollars == 0.0)
  }

  /** What the steps behind the sessions come to. */
  lemma StepsMakeTheBill(sessions: seq<Session>, split: seq<Row>, rows: seq<Row>, days: seq<Key>,
                         form: Option<Rate.FormValue>)
    requires SplitByActiveDays.DayRows(sessions, split, days)
    requires RatedRows(split, rows, Rate.ResolveRate(form, 0.0))
    requires forall r :: form == Some(Rate.Number(r)) ==> Rate.Charged(split, rows, "hours", "dollars", r)
    requires form == None || form == Some(Rate.NotNumeric) ==> Rate.Charged(split, rows, "hours", "dollars", 0.0)
    ensures |rows| == |days|
    ensures forall i :: 0 <= i < |rows| ==> rows[i] == RatedDay(sessions, days[i], Rate.ResolveRate(form, 0.0))
    ensures var dollars := Aggregate.SumOf(Aggregate.FieldValues(rows, DOLLARS));
            dollars == Worth(Rate.ResolveRate(form, 0.0), TotalSeconds(sessions))
            && BillsByForm(sessions, rows, dollars, form)
  {
    hide SplitByActiveDays.DayRows, SplitByActiveDays.TellsDay, SplitByActiveDays.AscendingDays, Rate.Charged, IsBill,
         RatedRows, RatedDay, Aggregate.SumOf, Aggregate.FieldValues;
    SplitByActiveDays.DayRowsTell(sessions, split, days);
    RowsAreRatedDays(sessions, split, rows, days, Rate.ResolveRate(form, 0.0));
    DollarsAreConserved(sessions, split, rows, days, Rate.ResolveRate(form, 0.0));
    var r := if form.Some? && form.value.Number? then form.value.value else 0.0;
    ChargedDaysAreBilled(sessions, split, rows, Aggregate.SumOf(Aggregate.FieldValues(rows, DOLLARS)), r);
    WorthAdds(0.0, TotalSeconds(sessions), 0.0);
  }

  /** The timesheet: sessionize, exclude off-hours, split by active days, rate, and the
      "dollars" metric. The metric is the rate times the hours left in the sessions. */
  method RunTimesheet(timeline: seq<Event>, offHours: seq<OffWindow>, form: Option<Rate.FormValue>)
    returns (sessions: seq<Session>, rows: seq<Row>, dollars: real, ghost owners: seq<string>, ghost days: seq<Key>)
    requires forall w :: w in offHours ==> ValidWindow(w)
    ensures BillsByForm(sessions, rows, dollars, form)
    // the sessions: half an hour of gap, 25 minutes of lead-in, without the off-hours
    ensures sessions == OffTime.ExcludeAll(Sessionize.AllClusters(timeline, owners, 1800, 1500), offHours)
    ensures IsTimesheet(timeline, offHours, Rate.ResolveRate(form, 0.0), sessions, rows, dollars, owners, days)
  {
    hide Sessionize.OwnersOf, Sessionize.AppearIn, Sessionize.AllClusters, SplitByActiveDays.ActiveDays,
         OffTime.Excluded, OffTime.ExcludeAll, OffTime.OnlyTimeTakenOff, SplitByActiveDays.TellsDay,
         SplitByActiveDays.DayRow, SplitByActiveDays.AscendingDays, Rate.Charged, Rate.Rated, Rate.ResolveRate,
         BillsByForm, RatedDay, Worth, TotalSeconds, Aggregate.SumOf, Aggregate.FieldValues;
    var s := new State(timeline);
    owners := Sessionize.Apply(s, GAP_SECONDS, LEAD_IN_SECONDS);
    assert s.sessions == Sessionize.AllClusters(timeline, owners, GAP_SECONDS, LEAD_IN_SECONDS);
    OffTime.Apply(s, offHours);
    sessions := s.sessions;
    days := SplitByActiveDays.Apply(s);
    ghost var split := s.rows;
    Rate.Apply(s, form, 0.0, SplitByActiveDays.HOURS, DOLLARS);
    rows := s.rows;
    assert RatedRows(split, rows, Rate.ResolveRate(form, 0.0));
    StepsMakeTheBill(sessions, split, rows, days, form);
    dollars := Layout.RenderMetric(s, DOLLARS);
  }

  lemma RowsAreRatedDays(sessions: seq<Session>, rows: seq<Row>, rated: seq<Row>, days: seq<Key>, rate: real)
    requires SplitByActiveDays.DayRows(sessions, rows, days) && RatedRows(rows, rated, rate)
    ensures |rated| == |days|
    ensures forall i :: 0 <= i < |rated| ==> rated[i] == RatedDay(sessions, days[i], rate) && rated[i].key == days[i]
  {
    hide SplitByActiveDays.Items, BucketSum;
  }

  /** Lead-in plus time outside the off-hours, over all sessions. */
  function Billable(sessions: seq<Session>, offHours: seq<OffWindow>, leadIn: nat): real {
    if sessions == [] then 0.0
    else
      var s := sessions[|sessions| - 1];
      Billable(sessions[..|sessions| - 1], offHours, leadIn)
        + (leadIn + OffTime.OnSeconds(offHours, s.start, s.end)) as real
  }

  ghost predicate FreshSessions(sessions: seq<Session>, leadIn: int) {
    forall s :: s in sessions ==> s.start <= s.end && s.durationSeconds == s.end - s.start + leadIn
  }

  lemma ClustersAreFresh(owner: string, ts: seq<int>, gap: int, leadIn: int)
    requires Sessionize.Ascending(ts)
    ensures FreshSessions(Sessionize.Clusters(owner, ts, gap, leadIn), leadIn)
  {
  }

  lemma {:induction false} AllClustersAreFresh(timeline: seq<Event>, owners: seq<string>, gap: int, leadIn: int)
    ensures FreshSessions(Sessionize.AllClusters(timeline, owners, gap, leadIn), leadIn)
  {
    if owners != [] {
      var o := owners[|owners| - 1];
      AllClustersAreFresh(timeline, owners[..|owners| - 1], gap, leadIn);
      ClustersAreFresh(o, Sessionize.Sorted(Sessionize.OwnerTimes(timeline, o)), gap, leadIn);
    }
  }

  lemma {:induction false} ExcludedSecondsAreBillable(sessions: seq<Session>, offHours: seq<OffWindow>, leadIn: nat)
    requires FreshSessions(sessions, leadIn) && OffTime.DisjointWindows(offHours)
    ensures TotalSeconds(OffTime.ExcludeAll(sessions, offHours)) == Billable(sessions, offHours, leadIn)
  {
    if sessions != [] {
      var front, s := sessions[..|sessions| - 1], sessions[|sessions| - 1];
      assert forall x :: x in front ==> x in sessions;
      assert s in sessions;
      ExcludedSecondsAreBillable(front, offHours, leadIn);
      OffTime.DisjointWindowsAreExact(s, leadIn, offHours);
      var all := OffTime.ExcludeAll(sessions, offHours);
      var items := SplitByActiveDays.Items(all);
      assert items[..|sessions| - 1] == SplitByActiveDays.Items(OffTime.ExcludeAll(front, offHours));
      assert items[|sessions| - 1].amount == all[|sessions| - 1].durationSeconds as real;
    }
  }

  /** End to end: with off-hours that do not overlap each other, the hours billed are, over
      every owner's connected components, the lead-in and the seconds outside the off-hours. */
  lemma TimesheetBillsTimeOutsideOffHours(timeline: seq<Event>, owners: seq<string>, offHours: seq<OffWindow>)
    requires OffTime.DisjointWindows(offHours)
    ensures var sessions := Sessionize.AllClusters(timeline, owners, GAP_SECONDS, LEAD_IN_SECONDS);
            TotalSeconds(OffTime.ExcludeAll(sessions, offHours)) == Billable(sessions, offHours, LEAD_IN_SECONDS)
  {
    AllClustersAreFresh(timeline, owners, GAP_SECONDS, LEAD_IN_SECONDS);
    ExcludedSecondsAreBillable(Sessionize.AllClusters(timeline, owners, GAP_SECONDS, LEAD_IN_SECONDS), offHours,
                               LEAD_IN_SECONDS);
  }

  // ---------------------------------------------------------------- commits per repo

  lemma {:induction false} CountItems(timeline: seq<Event>, on: GroupBy.By)
    ensures Total(GroupBy.Items(timeline, on, GroupBy.COUNT)) == |timeline| as real
    ensures Total(GroupBy.Items(timeline, on, GroupBy.ADDITIONS)) == GroupBy.TotalAdditions(timeline) as real
  {
    GroupBy.FieldsDiffer();
    if timeline != [] {
      var front := timeline[..|timeline| - 1];
      CountItems(front, on);
      assert GroupBy.Items(timeline, on, GroupBy.COUNT)[..|front|] == GroupBy.Items(front, on, GroupBy.COUNT);
      assert GroupBy.Items(timeline, on, GroupBy.ADDITIONS)[..|front|] == GroupBy.Items(front, on, GroupBy.ADDITIONS);
    }
  }

  lemma GroupRowField(timeline: seq<Event>, on: GroupBy.By, key: Key, field: string)
    requires field == GroupBy.COUNT || field == GroupBy.ADDITIONS
    ensures var row := GroupBy.GroupRow(timeline, on, key);
            field in row.values && row.values[field] == BucketSum(GroupBy.Items(timeline, on, field), key)
  {
  }

  lemma FieldNextKey(timeline: seq<Event>, on: GroupBy.By, rows: seq<Row>, keys: seq<Key>, field: string, n: nat)
    requires |rows| == |keys| && n < |rows| && rows[n] == GroupBy.GroupRow(timeline, on, keys[n])
    requires field == GroupBy.COUNT || field == GroupBy.ADDITIONS
    requires Aggregate.SumOf(Aggregate.FieldValues(rows[..n], field))
      == SumOverKeys(GroupBy.Items(timeline, on, field), keys[..n])
    ensures Aggregate.SumOf(Aggregate.FieldValues(rows[..n + 1], field))
      == SumOverKeys(GroupBy.Items(timeline, on, field), keys[..n + 1])
  {
    hide SumOverKeys, BucketSum, Aggregate.SumOf, Aggregate.FieldValues, GroupBy.GroupRow, GroupBy.Items;
    GroupRowField(timeline, on, keys[n], field);
    Aggregate.SumNextRow(rows, field, n);
    SumNextKey(GroupBy.Items(timeline, on, field), keys, n);
  }

  lemma {:induction false} FieldOverKeys(timeline: seq<Event>, on: GroupBy.By, rows: seq<Row>, keys: seq<Key>,
                                         field: string, n: nat)
    requires |rows| == |keys| && forall i :: 0 <= i < |rows| ==> rows[i] == GroupBy.GroupRow(timeline, on, keys[i])
    requires n <= |rows| && (field == GroupBy.COUNT || field == GroupBy.ADDITIONS)
    ensures Aggregate.SumOf(Aggregate.FieldValues(rows[..n], field))
      == SumOverKeys(GroupBy.Items(timeline, on, field), keys[..n])
  {
    hide GroupBy.GroupRow, GroupBy.Items;
    if n > 0 {
      hide SumOverKeys, Aggregate.SumOf, Aggregate.FieldValues;
      FieldOverKeys(timeline, on, rows, keys, field, n - 1);
      FieldNextKey(timeline, on, rows, keys, field, n - 1);
    }
  }

  /** Grouping conserves: whatever the field of the key, the rows' counts add up to the number
      of events and their additions to the timeline's. */
  lemma GroupRowsConserve(timeline: seq<Event>, on: GroupBy.By, rows: seq<Row>, keys: seq<Key>)
    requires GroupBy.GroupRows(timeline, on, rows, keys)
    ensures Aggregate.SumOf(Aggregate.FieldValues(rows, GroupBy.COUNT)) == |timeline| as real
    ensures Aggregate.SumOf(Aggregate.FieldValues(rows, GroupBy.ADDITIONS)) == GroupBy.TotalAdditions(timeline) as real
  {
    hide SumOverKeys, BucketSum, Total, GroupBy.TotalAdditions, Aggregate.SumOf, Aggregate.FieldValues,
         GroupBy.GroupRow;
    CountItems(timeline, on);
    assert rows[..|rows|] == rows && keys[..|rows|] == keys;
    forall i | 0 <= i < |timeline|
      ensures GroupBy.BucketKey(on, timeline[i]) in keys
    {
      assert GroupBy.Occurs(timeline, on, GroupBy.BucketKey(on, timeline[i]));
    }
    FieldOverKeys(timeline, on, rows, keys, GroupBy.COUNT, |rows|);
    BucketsConserve(GroupBy.Items(timeline, on, GroupBy.COUNT), keys);
    FieldOverKeys(timeline, on, rows, keys, GroupBy.ADDITIONS, |rows|);
    BucketsConserve(GroupBy.Items(timeline, on, GroupBy.ADDITIONS), keys);
  }

  /** The events of one repository. */
  function OfRepo(timeline: seq<Event>, repo: string): seq<Event> {
    if timeline == [] then []
    else
      var front, last := OfRepo(timeline[..|timeline| - 1], repo), timeline[|timeline| - 1];
      if last.repo == repo then front + [last] else front
  }

  lemma {:induction false} RepoBucket(timeline: seq<Event>, repo: string)
    ensures BucketSum(GroupBy.Items(timeline, GroupBy.ByRepo, GroupBy.COUNT), Text(repo))
      == |OfRepo(timeline, repo)| as real
    ensures BucketSum(GroupBy.Items(timeline, GroupBy.ByRepo, GroupBy.ADDITIONS), Text(repo))
         == GroupBy.TotalAdditions(OfRepo(timeline, repo)) as real
    ensures OfRepo(timeline, repo) != [] <==> exists i :: 0 <= i < |timeline| && timeline[i].repo == repo
  {
    GroupBy.FieldsDiffer();
    if timeline != [] {
      var n := |timeline| - 1;
      RepoBucket(timeline[..n], repo);
      assert timeline[..n + 1] == timeline;
      GroupBy.MoreItems(timeline, GroupBy.ByRepo, n, GroupBy.COUNT, Text(repo));
      GroupBy.MoreItems(timeline, GroupBy.ByRepo, n, GroupBy.ADDITIONS, Text(repo));
    }
  }

  /** A row that counts the events of its repository and adds up their additions. */
  ghost predicate RepoRow(timeline: seq<Event>, row: Row) {
    && row.key.Text? && GroupBy.COUNT in row.values && GroupBy.ADDITIONS in row.values
    && var events := OfRepo(timeline, row.key.text);
       events != [] && row.values[GroupBy.COUNT] == |events| as real
       && row.values[GroupBy.ADDITIONS] == GroupBy.TotalAdditions(events) as real
  }

  /** One row for every repository with an event, in strictly ascending order. */
  ghost predicate RowsPerRepo(timeline: seq<Event>, rows: seq<Row>) {
    && (forall i, j :: 0 <= i < j < |rows| ==> Less(rows[i].key, rows[j].key))
    && (forall i :: 0 <= i < |rows| ==> RepoRow(timeline, rows[i]))
    && (forall e :: e in timeline ==> exists i :: 0 <= i < |rows| && rows[i].key == Text(e.repo))
  }

  lemma GroupRowsArePerRepo(timeline: seq<Event>, rows: seq<Row>, repos: seq<Key>)
    requires GroupBy.GroupRows(timeline, GroupBy.ByRepo, rows, repos)
    ensures RowsPerRepo(timeline, rows)
  {
    forall i | 0 <= i < |rows|
      ensures RepoRow(timeline, rows[i])
    {
      assert repos[i] in repos && GroupBy.Occurs(timeline, GroupBy.ByRepo, repos[i]);
      RepoBucket(timeline, repos[i].text);
      GroupRowField(timeline, GroupBy.ByRepo, repos[i], GroupBy.COUNT);
      GroupRowField(timeline, GroupBy.ByRepo, repos[i], GroupBy.ADDITIONS);
    }
    forall e | e in timeline
      ensures exists i :: 0 <= i < |rows| && rows[i].key == Text(e.repo)
    {
      assert GroupBy.Occurs(timeline, GroupBy.ByRepo, Text(e.repo));
      var i :| 0 <= i < |repos| && repos[i] == Text(e.repo);
      assert rows[i].key == Text(e.repo);
    }
  }

  /** Commits per repo: group by repo, append the sum of the additions, and the "count" metric
      over all rows. The appended row carries only additions, so the metric still counts each
      event once. */
  method RunCommitsPerRepo(timeline: seq<Event>) returns (rows: seq<Row>, count: real)
    ensures count == |timeline| as real
    ensures rows != [] && RowsPerRepo(timeline, rows[..|rows| - 1])
    ensures rows[|rows| - 1]
      == Row(Text("total-additions"), map[GroupBy.ADDITIONS := GroupBy.TotalAdditions(timeline) as real], map[])
  {
    var s := new State(timeline);
    ghost var repos := GroupBy.Apply(s, GroupBy.ByRepo);
    ghost var groups := s.rows;
    GroupRowsConserve(timeline, GroupBy.ByRepo, groups, repos);
    GroupRowsArePerRepo(timeline, groups, repos);
    hide GroupBy.GroupRows, RowsPerRepo;
    var total := Aggregate.Apply(s, Aggregate.OpSum, GroupBy.ADDITIONS, Text("total-additions"));
    GroupBy.FieldsDiffer();
    Layout.MetricAfterAggregate(groups, GroupBy.COUNT, GroupBy.ADDITIONS, Text("total-additions"));
    rows := s.rows;
    assert rows[..|rows| - 1] == groups;
    count := Layout.RenderMetric(s, GroupBy.COUNT);
  }
}
