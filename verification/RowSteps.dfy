/** The steps that turn sessions and events into rows, and the metric rendered from them. */

/** split-by-active-days: one row per UTC day on which a session starts. */
module SplitByActiveDays {
  import opened Types
  import opened KeyOrder

  const SECONDS := "seconds"
  const HOURS := "hours"

  function Items(sessions: seq<Session>): seq<Item> {
    seq(|sessions|, i requires 0 <= i < |sessions| =>
      Item(Day(DayOf(sessions[i].start)), sessions[i].durationSeconds as real))
  }

  function DayRow(sessions: seq<Session>, day: Key): Row {
    var seconds := BucketSum(Items(sessions), day);
    Row(day, map[SECONDS := seconds, HOURS := seconds / 3600.0], map[])
  }

  ghost predicate StartsOn(sessions: seq<Session>, day: Key) {
    exists i :: 0 <= i < |sessions| && day == Day(DayOf(sessions[i].start))
  }

  ghost predicate ActiveDays(sessions: seq<Session>, days: seq<Key>) {
    Increasing(days) && forall k :: k in days <==> StartsOn(sessions, k)
  }

  /** The rows are those of the active days, each day once, in ascending order. */
  ghost predicate DayRows(sessions: seq<Session>, rows: seq<Row>, days: seq<Key>) {
    && ActiveDays(sessions, days) && |rows| == |days|
    && forall i :: 0 <= i < |rows| ==> rows[i] == DayRow(sessions, days[i])
  }

  lemma MoreItems(sessions: seq<Session>, i: nat, key: Key)
    requires i < |sessions|
    ensures BucketSum(Items(sessions[..i + 1]), key) == BucketSum(Items(sessions[..i]), key)
      + if key == Day(DayOf(sessions[i].start)) then sessions[i].durationSeconds as real else 0.0
  {
    assert Items(sessions[..i + 1])[..i] == Items(sessions[..i]);
  }

  /** What the loop over the sessions has gathered. */
  ghost predicate Gathered(sessions: seq<Session>, byDay: map<Key, int>) {
    && (forall k :: k in byDay <==> StartsOn(sessions, k))
    && (forall k :: k in byDay ==> byDay[k] as real == BucketSum(Items(sessions), k))
    && (forall k :: k !in byDay ==> BucketSum(Items(sessions), k) == 0.0)
  }

  lemma GatherOne(sessions: seq<Session>, i: nat, byDay: map<Key, int>)
    requires i < |sessions| && Gathered(sessions[..i], byDay)
    ensures var day := Day(DayOf(sessions[i].start));
            Gathered(sessions[..i + 1],
                     byDay[day := (if day in byDay then byDay[day] else 0) + sessions[i].durationSeconds])
  {
    var day := Day(DayOf(sessions[i].start));
    var more := sessions[..i + 1];
    assert more == sessions[..i] + [sessions[i]];
    assert more[i] == sessions[i];
    forall k
      ensures BucketSum(Items(more), k) == BucketSum(Items(sessions[..i]), k)
        + if k == day then sessions[i].durationSeconds as real else 0.0
    {
      MoreItems(sessions, i, k);
    }
    forall k
      ensures StartsOn(more, k) <==> StartsOn(sessions[..i], k) || k == day
    {
      if StartsOn(sessions[..i], k) {
        var j :| 0 <= j < i && k == Day(DayOf(sessions[..i][j].start));
        assert more[j] == sessions[..i][j];
      }
      if StartsOn(more, k) {
        var j :| 0 <= j < |more| && k == Day(DayOf(more[j].start));
        assert j < i ==> sessions[..i][j] == more[j];
      }
      if k == day { assert k == Day(DayOf(more[i].start)); }
    }
  }

  /** The seconds of the sessions that start in `[from, to)`. */
  function SecondsStartedIn(sessions: seq<Session>, from: int, to: int): int {
    if sessions == [] then 0
    else
      var s := sessions[|sessions| - 1];
      SecondsStartedIn(sessions[..|sessions| - 1], from, to) + if from <= s.start < to then s.durationSeconds else 0
  }

  /** A day's row holds the sessions that start between its midnight and the next. */
  lemma {:induction false} DayRowIsItsSessions(sessions: seq<Session>, d: int)
    ensures BucketSum(Items(sessions), Day(d))
         == SecondsStartedIn(sessions, d * SECONDS_PER_DAY, (d + 1) * SECONDS_PER_DAY) as real
    ensures StartsOn(sessions, Day(d)) <==>
      exists i :: 0 <= i < |sessions| && d * SECONDS_PER_DAY <= sessions[i].start < (d + 1) * SECONDS_PER_DAY
  {
    forall ts: int
      ensures DayOf(ts) == d <==> d * SECONDS_PER_DAY <= ts < (d + 1) * SECONDS_PER_DAY
    {
    }
    if sessions != [] {
      var front := sessions[..|sessions| - 1];
      DayRowIsItsSessions(front, d);
      assert Items(sessions)[..|front|] == Items(front);
    }
  }

  /** A row for the day with the seconds and hours of the sessions that start on it. */
  ghost predicate TellsDay(sessions: seq<Session>, row: Row) {
    && row.key.Day?
    && var seconds := SecondsStartedIn(sessions, row.key.number * 86400, (row.key.number + 1) * 86400) as real;
       row.values == map["seconds" := seconds, "hours" := seconds / 3600.0] && row.labels == map[]
  }

  ghost predicate AscendingDays(rows: seq<Row>) {
    forall i, j :: 0 <= i < j < |rows| ==>
      rows[i].key.Day? && rows[j].key.Day? && rows[i].key.number < rows[j].key.number
  }

  lemma DayRowTells(sessions: seq<Session>, day: Key)
    requires StartsOn(sessions, day)
    ensures TellsDay(sessions, DayRow(sessions, day))
  {
    DayRowIsItsSessions(sessions, day.number);
  }

  lemma DayRowsTell(sessions: seq<Session>, rows: seq<Row>, days: seq<Key>)
    requires DayRows(sessions, rows, days)
    ensures forall i :: 0 <= i < |rows| ==> TellsDay(sessions, rows[i])
    ensures AscendingDays(rows)
    ensures forall x :: x in sessions ==> exists i :: 0 <= i < |rows| && rows[i].key == Day(DayOf(x.start))
  {
    forall i | 0 <= i < |rows|
      ensures TellsDay(sessions, rows[i])
    {
      assert days[i] in days;
      DayRowTells(sessions, days[i]);
    }
    assert forall i :: 0 <= i < |rows| ==> rows[i].key.Day?;
    hide TellsDay, BucketSum, Items;
    forall x | x in sessions
      ensures exists i :: 0 <= i < |rows| && rows[i].key == Day(DayOf(x.start))
    {
      assert StartsOn(sessions, Day(DayOf(x.start)));
      var i :| 0 <= i < |days| && days[i] == Day(DayOf(x.start));
      assert rows[i].key == days[i];
    }
  }

  method Apply(s: State) returns (ghost days: seq<Key>)
    modifies s`rows
    ensures DayRows(s.sessions, s.rows, days)
    // one row for each day on which a session starts, ascending
    ensures forall i :: 0 <= i < |s.rows| ==> TellsDay(s.sessions, s.rows[i])
    ensures AscendingDays(s.rows)
    ensures forall x :: x in s.sessions ==> exists i :: 0 <= i < |s.rows| && s.rows[i].key == Day(DayOf(x.start))
  {
    hide TellsDay, AscendingDays, BucketSum, Items, StartsOn;
    var byDay: map<Key, int> := map[];
    NothingGathered();
    for i := 0 to |s.sessions|
      invariant Gathered(s.sessions[..i], byDay)
    {
      var day := Day(DayOf(s.sessions[i].start));
      GatherOne(s.sessions, i, byDay);
      byDay := byDay[day := (if day in byDay then byDay[day] else 0) + s.sessions[i].durationSeconds];
    }
    assert s.sessions[..|s.sessions|] == s.sessions;
    var keys := KeysOf(byDay);
    var sorted := SortKeys(keys);
    days := sorted;
    var rows: seq<Row> := [];
    for i := 0 to |sorted|
      invariant |rows| == i && forall j :: 0 <= j < i ==> rows[j] == DayRow(s.sessions, sorted[j])
    {
      assert sorted[i] in sorted;
      var seconds := byDay[sorted[i]];
      rows := rows + [Row(sorted[i], map[SECONDS := seconds as real, HOURS := seconds as real / 3600.0], map[])];
    }
    s.rows := rows;
    DayRowsTell(s.sessions, s.rows, days);
  }

  lemma NothingGathered()
    ensures Gathered([], map[])
  {
  }

  /** A map's keys, each once, in whatever order it gives them. */
  method KeysOf(m: map<Key, int>) returns (keys: seq<Key>)
    ensures forall i, j :: 0 <= i < j < |keys| ==> keys[i] != keys[j]
    ensures forall k :: k in keys <==> k in m
  {
    keys := [];
    var todo := m.Keys;
    while todo != {}
      invariant todo <= m.Keys
      invariant forall i, j :: 0 <= i < j < |keys| ==> keys[i] != keys[j]
      invariant forall k :: k in keys <==> k in m && k !in todo
      decreases todo
    {
      var k :| k in todo;
      todo := todo - {k};
      keys := keys + [k];
    }
  }
}

/** rate: a dollars value for every row that has hours. */
module Rate {
  import opened Common
  import opened Types

  datatype FormValue = Number(value: real) | NotNumeric

  function ResolveRate(form: Option<FormValue>, fallback: real): real {
    if form.Some? && form.value.Number? then form.value.value else fallback
  }

  function Dollars(hours: real, rate: real): real { hours * rate }

  function Rated(row: Row, hoursField: string, dollarsField: string, rate: real): Row {
    if hoursField in row.values then row.(values := row.values[dollarsField := Dollars(row.values[hoursField], rate)])
      else row
  }

  /** Rows with hours have gained their price at rate `r`, and nothing else has changed. */
  ghost predicate Charged(before: seq<Row>, after: seq<Row>, hours: string, dollars: string, r: real) {
    && |after| == |before|
    && forall i :: 0 <= i < |after| ==>
         if hours in before[i].values then
           && after[i].key == before[i].key && after[i].labels == before[i].labels
           && after[i].values.Keys == before[i].values.Keys + {dollars}
           && after[i].values[dollars] == before[i].values[hours] * r
           && forall f :: f in before[i].values && f != dollars ==> after[i].values[f] == before[i].values[f]
         else after[i] == before[i]
  }

  /** A number in the form is the rate; without one it is the fallback. */
  method Apply(s: State, form: Option<FormValue>, fallback: real, hoursField: string, dollarsField: string)
    modifies s`rows
    ensures forall r :: form == Some(Number(r)) ==> Charged(old(s.rows), s.rows, hoursField, dollarsField, r)
    ensures form == None || form == Some(NotNumeric) ==>
      Charged(old(s.rows), s.rows, hoursField, dollarsField, fallback)
    ensures |s.rows| == |old(s.rows)|
    ensures forall i :: 0 <= i < |s.rows| ==>
      s.rows[i] == Rated(old(s.rows)[i], hoursField, dollarsField, ResolveRate(form, fallback))
  {
    var rate := ResolveRate(form, fallback);
    ghost var before := s.rows;
    for i := 0 to |s.rows|
      invariant |s.rows| == |before|
      invariant forall k :: 0 <= k < |before| ==>
        s.rows[k] == if k < i then Rated(before[k], hoursField, dollarsField, rate) else before[k]
    {
      var row := s.rows[i];
      if hoursField in row.values {
        var hours := row.values[hoursField];
        s.rows := s.rows[i := row.(values := row.values[dollarsField := Dollars(hours, rate)])];
      }
    }
  }
}

/** group-by: one row per bucket of events, with count, additions and deletions. */
module GroupBy {
  import opened Types
  import opened Filtering
  import opened KeyOrder

  datatype By = ByOwner | ByRepo | ByType | ByBranch | ByDay

  const COUNT := "count"
  const ADDITIONS := "additions"
  const DELETIONS := "deletions"

  function BucketKey(on: By, e: Event): Key {
    match on
    case ByOwner => Text(e.owner)
    case ByRepo => Text(e.repo)
    case ByType => Text(e.kind)
    case ByBranch => Text(e.branch)
    case ByDay => Day(DayOf(e.ts))
  }

  /** What an event adds to a field of its bucket's row. */
  function Amount(field: string, e: Event): real {
    if field == COUNT then 1.0 else if field == ADDITIONS then e.additions as real else e.deletions as real
  }

  function TotalAdditions(timeline: seq<Event>): int {
    if timeline == [] then 0 else TotalAdditions(timeline[..|timeline| - 1]) + timeline[|timeline| - 1].additions
  }

  function TotalDeletions(timeline: seq<Event>): int {
    if timeline == [] then 0 else TotalDeletions(timeline[..|timeline| - 1]) + timeline[|timeline| - 1].deletions
  }

  /** The row counts these events and adds up their lines. */
  ghost predicate Tallies(row: Row, events: seq<Event>) {
    && events != [] && row.labels == map[]
    && row.values == map["count" := |events| as real, "additions" := TotalAdditions(events) as real,
                         "deletions" := TotalDeletions(events) as real]
  }

  /** The row is that of one owner, repository name, type, branch or UTC day. */
  ghost predicate TalliesOwn(timeline: seq<Event>, on: By, row: Row) {
    match on
    case ByOwner => row.key.Text? && Tallies(row, Where(timeline, (e: Event) => e.owner == row.key.text))
    case ByRepo => row.key.Text? && Tallies(row, Where(timeline, (e: Event) => e.repo == row.key.text))
    case ByType => row.key.Text? && Tallies(row, Where(timeline, (e: Event) => e.kind == row.key.text))
    case ByBranch => row.key.Text? && Tallies(row, Where(timeline, (e: Event) => e.branch == row.key.text))
    case ByDay =>
      row.key.Day?
      && Tallies(row, Where(timeline, (e: Event) => row.key.number * 86400 <= e.ts < (row.key.number + 1) * 86400))
  }

  function Items(timeline: seq<Event>, on: By, field: string): seq<Item> {
    seq(|timeline|, i requires 0 <= i < |timeline| => Item(BucketKey(on, timeline[i]), Amount(field, timeline[i])))
  }

  function Sums(count: real, additions: real, deletions: real): map<string, real> {
    map[COUNT := count, ADDITIONS := additions, DELETIONS := deletions]
  }

  function GroupRow(timeline: seq<Event>, on: By, key: Key): Row {
    Row(key, Sums(BucketSum(Items(timeline, on, COUNT), key),
                  BucketSum(Items(timeline, on, ADDITIONS), key),
                  BucketSum(Items(timeline, on, DELETIONS), key)), map[])
  }

  ghost predicate Occurs(timeline: seq<Event>, on: By, key: Key) {
    exists i :: 0 <= i < |timeline| && BucketKey(on, timeline[i]) == key
  }

  /** One row for exactly the keys that occur, in strictly ascending order. */
  ghost predicate GroupRows(timeline: seq<Event>, on: By, rows: seq<Row>, keys: seq<Key>) {
    && Increasing(keys) && (forall k :: k in keys <==> Occurs(timeline, on, k)) && |rows| == |keys|
    && forall i :: 0 <= i < |rows| ==> rows[i] == GroupRow(timeline, on, keys[i])
  }

  predicate HasSums(row: Row) {
    COUNT in row.values && ADDITIONS in row.values && DELETIONS in row.values
  }

  function Grown(row: Row, e: Event): Row
    requires HasSums(row)
  {
    row.(values := Sums(row.values[COUNT] + 1.0,
                        row.values[ADDITIONS] + e.additions as real,
                        row.values[DELETIONS] + e.deletions as real))
  }

  function NewRow(key: Key): Row {
    Row(key, Sums(0.0, 0.0, 0.0), map[])
  }

  lemma SumsGrow(key: Key, count: real, additions: real, deletions: real, e: Event)
    ensures var row := Row(key, Sums(count, additions, deletions), map[]);
            HasSums(row)
            && Grown(row, e) == Row(key, Sums(count + Amount(COUNT, e), additions + Amount(ADDITIONS, e),
                                              deletions + Amount(DELETIONS, e)), map[])
  {
  }

  lemma FieldsDiffer()
    ensures COUNT != ADDITIONS && COUNT != DELETIONS && ADDITIONS != DELETIONS
  {
  }

  lemma MoreItems(timeline: seq<Event>, on: By, i: nat, field: string, key: Key)
    requires i < |timeline|
    ensures BucketSum(Items(timeline[..i + 1], on, field), key) == BucketSum(Items(timeline[..i], on, field), key)
      + if key == BucketKey(on, timeline[i]) then Amount(field, timeline[i]) else 0.0
  {
    assert Items(timeline[..i + 1], on, field)[..i] == Items(timeline[..i], on, field);
  }

  /** The row of a key after one more event. */
  lemma RowGrows(timeline: seq<Event>, on: By, i: nat, key: Key)
    requires i < |timeline|
    ensures HasSums(GroupRow(timeline[..i], on, key))
    ensures GroupRow(timeline[..i + 1], on, key)
         == if key == BucketKey(on, timeline[i]) then Grown(GroupRow(timeline[..i], on, key), timeline[i])
            else GroupRow(timeline[..i], on, key)
    ensures Occurs(timeline[..i + 1], on, key) <==> Occurs(timeline[..i], on, key) || key == BucketKey(on, timeline[i])
  {
    MoreItems(timeline, on, i, COUNT, key);
    MoreItems(timeline, on, i, ADDITIONS, key);
    MoreItems(timeline, on, i, DELETIONS, key);
    SumsGrow(key, BucketSum(Items(timeline[..i], on, COUNT), key), BucketSum(Items(timeline[..i], on, ADDITIONS), key),
             BucketSum(Items(timeline[..i], on, DELETIONS), key), timeline[i]);
    hide Sums, Grown, Amount, Items, BucketSum, HasSums;
    MoreOccurs(timeline, on, i, key);
  }

  lemma MoreOccurs(timeline: seq<Event>, on: By, i: nat, key: Key)
    requires i < |timeline|
    ensures Occurs(timeline[..i + 1], on, key) <==> Occurs(timeline[..i], on, key) || key == BucketKey(on, timeline[i])
  {
  }

  lemma {:induction false} AbsentRow(timeline: seq<Event>, on: By, key: Key)
    requires !Occurs(timeline, on, key)
    ensures GroupRow(timeline, on, key) == NewRow(key)
  {
    if timeline != [] {
      var n := |timeline| - 1;
      assert timeline[..n + 1] == timeline;
      RowGrows(timeline, on, n, key);
      AbsentRow(timeline[..n], on, key);
    }
  }

  /** A bucket's row tallies the events that belong to it. */
  lemma {:induction false} RowTallies(timeline: seq<Event>, on: By, key: Key, such: Event -> bool)
    requires forall e :: such(e) <==> BucketKey(on, e) == key
    ensures Occurs(timeline, on, key) <==> Where(timeline, such) != []
    ensures var events := Where(timeline, such);
            BucketSum(Items(timeline, on, COUNT), key) == |events| as real
            && BucketSum(Items(timeline, on, ADDITIONS), key) == TotalAdditions(events) as real
            && BucketSum(Items(timeline, on, DELETIONS), key) == TotalDeletions(events) as real
  {
    hide BucketSum, Items, Occurs, BucketKey, TotalAdditions, TotalDeletions;
    FieldsDiffer();
    if timeline == [] {
      NothingTallied(on, key);
    } else {
      var n := |timeline| - 1;
      assert timeline[..n + 1] == timeline;
      RowTallies(timeline[..n], on, key, such);
      MoreItems(timeline, on, n, COUNT, key);
      MoreItems(timeline, on, n, ADDITIONS, key);
      MoreItems(timeline, on, n, DELETIONS, key);
      MoreOccurs(timeline, on, n, key);
      TotalsGrow(Where(timeline[..n], such), timeline[n]);
    }
  }

  lemma NothingTallied(on: By, key: Key)
    ensures !Occurs([], on, key) && TotalAdditions([]) == TotalDeletions([]) == 0
    ensures forall field :: BucketSum(Items([], on, field), key) == 0.0
  {
  }

  lemma TotalsGrow(events: seq<Event>, e: Event)
    ensures TotalAdditions(events + [e]) == TotalAdditions(events) + e.additions
    ensures TotalDeletions(events + [e]) == TotalDeletions(events) + e.deletions
  {
    assert (events + [e])[..|events|] == events;
  }

  lemma RowTalliesWhere(timeline: seq<Event>, on: By, key: Key, such: Event -> bool)
    requires (forall e :: such(e) <==> BucketKey(on, e) == key) && Occurs(timeline, on, key)
    ensures Tallies(GroupRow(timeline, on, key), Where(timeline, such))
  {
    RowTallies(timeline, on, key, such);
  }

  lemma RowTalliesOwn(timeline: seq<Event>, on: By, key: Key)
    requires Occurs(timeline, on, key)
    ensures TalliesOwn(timeline, on, GroupRow(timeline, on, key))
  {
    hide Tallies;
    match on {
      case ByOwner => RowTalliesWhere(timeline, on, key, (e: Event) => e.owner == key.text);
      case ByRepo => RowTalliesWhere(timeline, on, key, (e: Event) => e.repo == key.text);
      case ByType => RowTalliesWhere(timeline, on, key, (e: Event) => e.kind == key.text);
      case ByBranch => RowTalliesWhere(timeline, on, key, (e: Event) => e.branch == key.text);
      case ByDay =>
        forall e: Event
          ensures DayOf(e.ts) == key.number <==> key.number * 86400 <= e.ts < (key.number + 1) * 86400
        {
          DayIs(e.ts, key.number);
        }
        RowTalliesWhere(timeline, on, key,
                        (e: Event) => key.number * 86400 <= e.ts < (key.number + 1) * 86400);
    }
  }

  lemma RowsTally(timeline: seq<Event>, on: By, rows: seq<Row>, keys: seq<Key>)
    requires GroupRows(timeline, on, rows, keys)
    ensures forall i :: 0 <= i < |rows| ==> TalliesOwn(timeline, on, rows[i])
  {
    hide TalliesOwn, Occurs, GroupRow, Less;
    forall i | 0 <= i < |rows|
      ensures TalliesOwn(timeline, on, rows[i])
    {
      assert keys[i] in keys;
      RowTalliesOwn(timeline, on, keys[i]);
    }
  }

  ghost predicate Gathered(timeline: seq<Event>, on: By, buckets: map<Key, Row>, keys: seq<Key>) {
    && (forall i, j :: 0 <= i < j < |keys| ==> keys[i] != keys[j])
    && (forall k :: k in keys <==> k in buckets)
    && (forall k :: k in buckets <==> Occurs(timeline, on, k))
    && (forall k :: k in buckets ==> buckets[k] == GroupRow(timeline, on, k))
  }

  function RowOf(buckets: map<Key, Row>, key: Key): Row {
    if key in buckets then buckets[key] else NewRow(key)
  }

  lemma RowIsCurrent(timeline: seq<Event>, on: By, buckets: map<Key, Row>, keys: seq<Key>, key: Key)
    requires Gathered(timeline, on, buckets, keys)
    ensures RowOf(buckets, key) == GroupRow(timeline, on, key) && HasSums(RowOf(buckets, key))
  {
    if key !in buckets { AbsentRow(timeline, on, key); }
  }

  lemma GatherOne(timeline: seq<Event>, on: By, i: nat, buckets: map<Key, Row>, keys: seq<Key>)
    requires i < |timeline| && Gathered(timeline[..i], on, buckets, keys)
    ensures var key := BucketKey(on, timeline[i]);
            HasSums(RowOf(buckets, key))
            && Gathered(timeline[..i + 1], on, buckets[key := Grown(RowOf(buckets, key), timeline[i])],
                        if key in buckets then keys else keys + [key])
  {
    var key := BucketKey(on, timeline[i]);
    RowIsCurrent(timeline[..i], on, buckets, keys, key);
    hide GroupRow, Occurs, RowOf, Grown, BucketKey, HasSums;
    forall k
      ensures Occurs(timeline[..i + 1], on, k) <==> Occurs(timeline[..i], on, k) || k == key
      ensures GroupRow(timeline[..i + 1], on, k)
        == if k == key then Grown(RowOf(buckets, key), timeline[i]) else GroupRow(timeline[..i], on, k)
    {
      RowGrows(timeline, on, i, k);
    }
  }

  method Apply(s: State, on: By) returns (ghost sortedKeys: seq<Key>)
    modifies s`rows
    ensures GroupRows(s.timeline, on, s.rows, sortedKeys)
    ensures forall i :: 0 <= i < |s.rows| ==> TalliesOwn(s.timeline, on, s.rows[i])
  {
    hide GroupRow, Occurs, TalliesOwn;
    var buckets: map<Key, Row> := map[];
    var keys: seq<Key> := [];
    NothingGathered(on);
    for i := 0 to |s.timeline|
      invariant Gathered(s.timeline[..i], on, buckets, keys)
    {
      var key := BucketKey(on, s.timeline[i]);
      GatherOne(s.timeline, on, i, buckets, keys);
      var row := RowOf(buckets, key);
      if key !in buckets { keys := keys + [key]; }
      buckets := buckets[key := Grown(row, s.timeline[i])];
    }
    assert s.timeline[..|s.timeline|] == s.timeline;
    var sorted := SortKeys(keys);
    sortedKeys := sorted;
    var rows: seq<Row> := [];
    for i := 0 to |sorted|
      invariant |rows| == i && forall j :: 0 <= j < i ==> rows[j] == GroupRow(s.timeline, on, sorted[j])
    {
      assert sorted[i] in sorted;
      rows := rows + [buckets[sorted[i]]];
    }
    s.rows := rows;
    RowsTally(s.timeline, on, s.rows, sortedKeys);
  }

  lemma NothingGathered(on: By)
    ensures Gathered([], on, map[], [])
  {
  }
}

/** aggregate: one more row that folds a field of the rows so far. */
module Aggregate {
  import opened Types
  import opened Filtering

  datatype Op = OpSum | OpAvg | OpMin | OpMax

  datatype FieldStats = FieldStats(sum: real, minVal: real, maxVal: real, count: nat)

  /** The values of a field, over the rows that have it. */
  function FieldValues(rows: seq<Row>, field: string): seq<real> {
    if rows == [] then []
    else
      var front, last := FieldValues(rows[..|rows| - 1], field), rows[|rows| - 1];
      if field in last.values then front + [last.values[field]] else front
  }

  /** Rows without the field give no value, not a zero. */
  lemma {:induction false} FieldValuesOfRows(rows: seq<Row>, field: string)
    ensures var having := Where(rows, (row: Row) => field in row.values);
            |FieldValues(rows, field)| == |having|
            && forall i :: 0 <= i < |having| ==>
                 field in having[i].values && FieldValues(rows, field)[i] == having[i].values[field]
  {
    if rows != [] { FieldValuesOfRows(rows[..|rows| - 1], field); }
  }

  function SumOf(values: seq<real>): real {
    if values == [] then 0.0 else SumOf(values[..|values| - 1]) + values[|values| - 1]
  }

  function FieldOf(row: Row, field: string): real {
    if field in row.values then row.values[field] else 0.0
  }

  lemma SumNextRow(rows: seq<Row>, field: string, n: nat)
    requires n < |rows|
    ensures SumOf(FieldValues(rows[..n + 1], field)) == SumOf(FieldValues(rows[..n], field)) + FieldOf(rows[n], field)
  {
    assert rows[..n + 1][..n] == rows[..n];
    var values := FieldValues(rows[..n], field);
    if field in rows[n].values { assert (values + [rows[n].values[field]])[..|values|] == values; }
  }

  ghost predicate StatsOf(values: seq<real>, stats: FieldStats) {
    && stats.sum == SumOf(values) && stats.count == |values|
    && (values == [] ==> stats.minVal == 0.0 && stats.maxVal == 0.0)
    && (values != [] ==> stats.minVal in values && stats.maxVal in values)
    && (forall v :: v in values ==> stats.minVal <= v <= stats.maxVal)
  }

  function MoreStats(stats: FieldStats, val: real): FieldStats {
    FieldStats(stats.sum + val,
               if stats.count == 0 || val < stats.minVal then val else stats.minVal,
               if stats.count == 0 || val > stats.maxVal then val else stats.maxVal,
               stats.count + 1)
  }

  lemma StatsGrow(values: seq<real>, stats: FieldStats, val: real)
    requires StatsOf(values, stats)
    ensures StatsOf(values + [val], MoreStats(stats, val))
  {
  }

  method CollectFieldStats(rows: seq<Row>, field: string) returns (stats: FieldStats)
    ensures StatsOf(FieldValues(rows, field), stats)
  {
    stats := FieldStats(0.0, 0.0, 0.0, 0);
    for i := 0 to |rows|
      invariant StatsOf(FieldValues(rows[..i], field), stats)
    {
      assert rows[..i + 1][..i] == rows[..i];
      if field in rows[i].values {
        var val := rows[i].values[field];
        StatsGrow(FieldValues(rows[..i], field), stats, val);
        stats := FieldStats(
          stats.sum + val,
          if stats.count == 0 || val < stats.minVal then val else stats.minVal,
          if stats.count == 0 || val > stats.maxVal then val else stats.maxVal,
          stats.count + 1);
      }
    }
    assert rows[..|rows|] == rows;
  }

  function ComputeOpResult(op: Op, stats: FieldStats): real {
    match op
    case OpSum => stats.sum
    case OpAvg => if stats.count == 0 then 0.0 else stats.sum / stats.count as real
    case OpMin => stats.minVal
    case OpMax => stats.maxVal
  }

  /** What the folded value means: the sum, the mean, or a least or greatest member. */
  ghost predicate Folds(op: Op, values: seq<real>, result: real) {
    match op
    case OpSum => result == SumOf(values)
    case OpAvg => if values == [] then result == 0.0 else result * |values| as real == SumOf(values)
    case OpMin => if values == [] then result == 0.0 else result in values && forall v :: v in values ==> result <= v
    case OpMax => if values == [] then result == 0.0 else result in values && forall v :: v in values ==> v <= result
  }

  method Apply(s: State, op: Op, field: string, key: Key) returns (result: real)
    modifies s`rows
    ensures Folds(op, FieldValues(old(s.rows), field), result)
    ensures s.rows == old(s.rows) + [Row(key, map[field := result], map[])]
  {
    var stats := CollectFieldStats(s.rows, field);
    result := ComputeOpResult(op, stats);
    s.rows := s.rows + [Row(key, map[field := result], map[])];
  }
}

/** The metric block: the sum of one value over every row. */
module Layout {
  import opened Types
  import opened Aggregate

  method RenderMetric(s: State, source: string) returns (sum: real)
    ensures sum == SumOf(FieldValues(s.rows, source))
  {
    sum := 0.0;
    for i := 0 to |s.rows|
      invariant sum == SumOf(FieldValues(s.rows[..i], source))
    {
      SumNextRow(s.rows, source, i);
      sum := sum + FieldOf(s.rows[i], source);
    }
    assert s.rows[..|s.rows|] == s.rows;
  }

  /** A sum that `aggregate` has appended is counted once more by a metric on the same field,
      so the metric stays the rows' own sum exactly when the field differs or that sum is 0. */
  lemma MetricAfterAggregate(rows: seq<Row>, source: string, field: string, key: Key)
    ensures var total := SumOf(FieldValues(rows, source));
            SumOf(FieldValues(rows + [Row(key, map[field := SumOf(FieldValues(rows, field))], map[])], source)) == total
            <==> field != source || total == 0.0
  {
  }

  lemma NoRows(field: string)
    ensures SumOf(FieldValues([], field)) == 0.0
  {
  }

  lemma OneAndTwoRows(a: Row, b: Row, field: string)
    ensures SumOf(FieldValues([a], field)) == FieldOf(a, field)
    ensures SumOf(FieldValues([a] + [b], field)) == FieldOf(a, field) + FieldOf(b, field)
  {
    hide SumOf, FieldValues, FieldOf;
    var both := [a] + [b];
    NoRows(field);
    SumNextRow(both, field, 0);
    SumNextRow(both, field, 1);
    assert both[..0] == [] && both[..1] == [a] && both[..2] == both && both[0] == a && both[1] == b;
  }

  /** One row with the value 1: with its sum appended the metric on the same field shows 2. */
  lemma AppendedSumCountsTwice(key: Key, field: string)
    ensures var rows := [Row(key, map[field := 1.0], map[])];
            SumOf(FieldValues(rows, field)) == 1.0
            && SumOf(FieldValues(rows + [Row(key, map[field := SumOf(FieldValues(rows, field))], map[])], field)) == 2.0
  {
    var row := Row(key, map[field := 1.0], map[]);
    OneAndTwoRows(row, row, field);
    hide SumOf, FieldValues;
  }
}
