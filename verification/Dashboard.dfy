/** The metrics dashboard: latest report per instance, totals, and twelve weekly buckets. */
module Dashboard {

  const DAY := 86_400_000
  const WEEK := 7 * DAY
  const WEEKS_SHOWN := 12

  // ---- startOfWeekUTC ----

  /** Days since 1 January 1970, a Thursday: getUTCDay counts from Sunday. */
  function UtcDay(time: int): int {
    time / DAY
  }

  function DayOfWeek(day: int): int {
    (day + 4) % 7
  }

  /** Midnight UTC of the Monday on or before the time, in milliseconds. */
  function StartOfWeek(time: int): int {
    var daysSinceMonday := (DayOfWeek(UtcDay(time)) + 6) % 7;
    (UtcDay(time) - daysSinceMonday) * DAY
  }

  /** A Monday midnight. */
  predicate IsMonday(time: int) {
    time % DAY == 0 && DayOfWeek(UtcDay(time)) == 1
  }

  /** The start of a time's week is the one Monday midnight at most, and less than seven days, before it. */
  lemma StartOfWeekIs(time: int, m: int)
    ensures IsMonday(StartOfWeek(time)) && StartOfWeek(time) <= time < StartOfWeek(time) + WEEK
    ensures IsMonday(m) && m <= time < m + WEEK ==> m == StartOfWeek(time)
  {
    var day := UtcDay(time);
    assert time == day * DAY + time % DAY;
    assert 0 <= (DayOfWeek(day) + 6) % 7 < 7;
    var monday := day - (DayOfWeek(day) + 6) % 7;
    assert StartOfWeek(time) == monday * DAY;
    assert monday * DAY / DAY == monday && monday * DAY % DAY == 0;
    assert (monday + 4) % 7 == 1;
    if IsMonday(m) && m <= time < m + WEEK {
      var d := m / DAY;
      assert m == d * DAY;
      assert (d + 4) % 7 == 1 && d <= day < d + 7;
    }
  }

  /** In milliseconds, weeks counted from the one that began on Monday 5 January 1970, four days after the epoch. */
  lemma WeeksFromKnownMonday(time: int)
    ensures (StartOfWeek(time) - 345_600_000) % 604_800_000 == 0
    ensures StartOfWeek(time) <= time < StartOfWeek(time) + 604_800_000
    ensures IsMonday(time) <==> (time - 345_600_000) % 604_800_000 == 0
  {
    StartOfWeekIs(time, time);
    MondayIs(StartOfWeek(time));
    MondayIs(time);
  }

  lemma MondayIs(time: int)
    ensures IsMonday(time) <==> (time - 345_600_000) % 604_800_000 == 0
  {
    var day := time / 86_400_000;
    assert time == day * 86_400_000 + time % 86_400_000;
    if IsMonday(time) {
      var k := (day - 4) / 7;
      assert (day + 4) % 7 == 1;
      assert day == 4 + 7 * k;
      assert time - 345_600_000 == k * 604_800_000;
    }
    if (time - 345_600_000) % 604_800_000 == 0 {
      var k := (time - 345_600_000) / 604_800_000;
      assert time == (7 * k + 4) * 86_400_000;
      assert time / 86_400_000 == 7 * k + 4;
    }
  }

  lemma StartOfWeekIdempotent(time: int)
    ensures StartOfWeek(StartOfWeek(time)) == StartOfWeek(time)
  {
    StartOfWeekIs(time, time);
    StartOfWeekIs(StartOfWeek(time), StartOfWeek(time));
  }

  lemma StartOfWeekMonotone(a: int, b: int)
    requires a <= b
    ensures StartOfWeek(a) <= StartOfWeek(b)
  {
    StartOfWeekIs(a, StartOfWeek(b));
    StartOfWeekIs(b, StartOfWeek(a));
  }

  /** Two Mondays are whole weeks apart. */
  lemma MondaysApart(a: int, b: int)
    requires IsMonday(a) && IsMonday(b)
    ensures (b - a) % WEEK == 0
  {
  }

  // ---- Reports ----

  datatype Report = Report(instanceId: string, orgCount: int, repoCount: int, userCount: int, reportedAt: int)

  /** The query's order: newest first. */
  ghost predicate NewestFirst(reports: seq<Report>) {
    forall i, j :: 0 <= i < j < |reports| ==> reports[i].reportedAt >= reports[j].reportedAt
  }

  /** Report i is the first, so the newest, of its instance. */
  predicate FirstOfInstance(reports: seq<Report>, i: nat)
    requires i < |reports|
  {
    forall j :: 0 <= j < i ==> reports[j].instanceId != reports[i].instanceId
  }

  /** The first report of every instance, in order. */
  function Latest(reports: seq<Report>): seq<Report> {
    if reports == [] then []
    else
      var n := |reports| - 1;
      if FirstOfInstance(reports, n) then Latest(reports[..n]) + [reports[n]] else Latest(reports[..n])
  }

  /** It is a report of its instance, and none of that instance is newer. */
  ghost predicate NewestOfInstance(reports: seq<Report>, r: Report) {
    r in reports && forall s :: s in reports && s.instanceId == r.instanceId ==> s.reportedAt <= r.reportedAt
  }

  predicate Has(firsts: seq<Report>, instanceId: string) {
    exists i :: 0 <= i < |firsts| && firsts[i].instanceId == instanceId
  }

  /** The insertion-ordered map after one more report: only the first of each instance is kept. */
  function Insert(firsts: seq<Report>, r: Report): seq<Report> {
    if Has(firsts, r.instanceId) then firsts else firsts + [r]
  }

  lemma HasAppend(firsts: seq<Report>, r: Report, instanceId: string)
    ensures Has(firsts + [r], instanceId) <==> Has(firsts, instanceId) || r.instanceId == instanceId
  {
    var more := firsts + [r];
    assert more[|firsts|] == r && forall i :: 0 <= i < |firsts| ==> more[i] == firsts[i];
    if Has(firsts, instanceId) {
      var i :| 0 <= i < |firsts| && firsts[i].instanceId == instanceId;
      assert more[i].instanceId == instanceId;
    }
  }

  lemma FirstIffNew(reports: seq<Report>, r: Report)
    ensures FirstOfInstance(reports + [r], |reports|) <==> !Has(reports, r.instanceId)
  {
    assert forall j :: 0 <= j < |reports| ==> (reports + [r])[j] == reports[j];
  }

  lemma LatestAppend(reports: seq<Report>, r: Report)
    ensures Latest(reports + [r]) == if Has(reports, r.instanceId) then Latest(reports) else Latest(reports) + [r]
  {
    assert (reports + [r])[..|reports|] == reports;
    FirstIffNew(reports, r);
  }

  lemma {:induction false} LatestHas(reports: seq<Report>, instanceId: string)
    ensures Has(Latest(reports), instanceId) <==> Has(reports, instanceId)
    decreases |reports|
  {
    if reports != [] {
      var init, last := reports[..|reports| - 1], reports[|reports| - 1];
      assert reports == init + [last];
      LatestHas(init, instanceId);
      LatestAppend(init, last);
      HasAppend(init, last, instanceId);
      HasAppend(Latest(init), last, instanceId);
    }
  }

  lemma LatestInsert(reports: seq<Report>, r: Report)
    ensures Latest(reports + [r]) == Insert(Latest(reports), r)
  {
    LatestAppend(reports, r);
    LatestHas(reports, r.instanceId);
  }

  /** Every latest report is the first report of its instance. */
  lemma {:induction false} LatestAreFirst(reports: seq<Report>)
    ensures forall r :: r in Latest(reports) ==> exists k: nat :: k < |reports| && reports[k] == r && FirstOfInstance(reports, k)
    decreases |reports|
  {
    if reports != [] {
      var n := |reports| - 1;
      var init := reports[..n];
      LatestAreFirst(init);
      forall r | r in Latest(reports)
        ensures exists k: nat :: k < |reports| && reports[k] == r && FirstOfInstance(reports, k)
      {
        if r in Latest(init) {
          var k: nat :| k < |init| && init[k] == r && FirstOfInstance(init, k);
          assert reports[k] == r && FirstOfInstance(reports, k);
        } else {
          assert reports[n] == r && FirstOfInstance(reports, n);
        }
      }
    }
  }

  ghost predicate DifferentInstances(firsts: seq<Report>) {
    forall i, j :: 0 <= i < j < |firsts| ==> firsts[i].instanceId != firsts[j].instanceId
  }

  /** Inserting a report that is not newer keeps instances apart and the order. */
  lemma InsertOlder(firsts: seq<Report>, r: Report)
    requires DifferentInstances(firsts) && NewestFirst(firsts) && forall f :: f in firsts ==> f.reportedAt >= r.reportedAt
    ensures DifferentInstances(Insert(firsts, r)) && NewestFirst(Insert(firsts, r))
  {
  }

  /** A prefix of a newest-first list is newest-first and not older than what follows it. */
  lemma NewestFirstPrefix(init: seq<Report>, last: Report)
    requires NewestFirst(init + [last])
    ensures NewestFirst(init) && forall r :: r in init ==> r.reportedAt >= last.reportedAt
  {
    var all := init + [last];
    assert all[|init|] == last && forall i :: 0 <= i < |init| ==> all[i] == init[i];
  }

  lemma LatestAmong(reports: seq<Report>)
    ensures forall r :: r in Latest(reports) ==> r in reports
  {
    LatestAreFirst(reports);
  }

  /** Latest reports have different instances, and are in the order of the list. */
  lemma {:induction false} LatestOrdered(reports: seq<Report>)
    requires NewestFirst(reports)
    ensures DifferentInstances(Latest(reports)) && NewestFirst(Latest(reports))
    decreases |reports|
  {
    if reports != [] {
      var init, last := reports[..|reports| - 1], reports[|reports| - 1];
      assert reports == init + [last];
      NewestFirstPrefix(init, last);
      LatestOrdered(init);
      LatestAmong(init);
      LatestInsert(init, last);
      InsertOlder(Latest(init), last);
    }
  }

  /** One report per instance, each the newest of its instance, newest first. */
  lemma LatestMeans(reports: seq<Report>)
    requires NewestFirst(reports)
    ensures forall r :: r in Latest(reports) ==> NewestOfInstance(reports, r)
    ensures DifferentInstances(Latest(reports))
    ensures forall r :: r in reports ==> Has(Latest(reports), r.instanceId)
    ensures NewestFirst(Latest(reports))
  {
    LatestAreFirst(reports);
    LatestOrdered(reports);
    forall r | r in Latest(reports)
      ensures NewestOfInstance(reports, r)
    {
      var k: nat :| k < |reports| && reports[k] == r && FirstOfInstance(reports, k);
    }
    forall r | r in reports
      ensures Has(Latest(reports), r.instanceId)
    {
      LatestHas(reports, r.instanceId);
    }
  }

  datatype Totals = Totals(instances: int, orgs: int, repos: int, users: int)

  function SumOf(reports: seq<Report>): Totals {
    if reports == [] then Totals(0, 0, 0, 0)
    else
      var acc, r := SumOf(reports[..|reports| - 1]), reports[|reports| - 1];
      Totals(acc.instances + 1, acc.orgs + r.orgCount, acc.repos + r.repoCount, acc.users + r.userCount)
  }

  function SumUsers(reports: seq<Report>): int {
    if reports == [] then 0 else SumUsers(reports[..|reports| - 1]) + reports[|reports| - 1].userCount
  }

  // ---- What the sums sum ----

  /** The instances that reported. */
  function Instances(reports: seq<Report>): set<string> {
    set r | r in reports :: r.instanceId
  }

  /** The first report of an instance in a list that is newest first. */
  ghost function NewestOf(reports: seq<Report>, id: string): (r: Report)
    requires id in Instances(reports)
    ensures r in reports && r.instanceId == id
    ensures NewestFirst(reports) ==> forall s :: s in reports && s.instanceId == id ==> s.reportedAt <= r.reportedAt
  {
    FirstExists(reports, id);
    var i: nat :| i < |reports| && reports[i].instanceId == id && FirstOfInstance(reports, i);
    reports[i]
  }

  lemma {:induction false} FirstExists(reports: seq<Report>, id: string)
    requires id in Instances(reports)
    ensures exists i: nat :: i < |reports| && reports[i].instanceId == id && FirstOfInstance(reports, i)
    decreases |reports|
  {
    var init, last := reports[..|reports| - 1], reports[|reports| - 1];
    if id in Instances(init) {
      FirstExists(init, id);
      var i: nat :| i < |init| && init[i].instanceId == id && FirstOfInstance(init, i);
      assert reports[i].instanceId == id && FirstOfInstance(reports, i);
    } else {
      assert reports == init + [last];
      assert forall j :: 0 <= j < |init| ==> reports[j] == init[j] && init[j] in init;
      assert reports[|init|].instanceId == id && FirstOfInstance(reports, |init|);
    }
  }

  /** The sum of a map's values. */
  ghost function SumOver(m: map<string, int>): int
    decreases |m|
  {
    if m == map[] then 0
    else
      var k :| k in m;
      m[k] + SumOver(m - {k})
  }

  lemma {:induction false} SumOverTaking(m: map<string, int>, k: string)
    requires k in m
    ensures SumOver(m) == m[k] + SumOver(m - {k})
    decreases |m|
  {
    var j :| j in m && SumOver(m) == m[j] + SumOver(m - {j});
    if j != k {
      SumOverTaking(m - {j}, k);
      SumOverTaking(m - {k}, j);
      assert m - {j} - {k} == m - {k} - {j};
    }
  }

  lemma SumOverAdding(m: map<string, int>, k: string, x: int)
    requires k !in m
    ensures SumOver(m[k := x]) == SumOver(m) + x
  {
    SumOverTaking(m[k := x], k);
    assert m[k := x] - {k} == m;
  }

  /** One number of each instance's newest report. */
  ghost function NewestValues(reports: seq<Report>, value: Report -> int): map<string, int> {
    map id | id in Instances(reports) :: value(NewestOf(reports, id))
  }

  function SumBy(reports: seq<Report>, value: Report -> int): int {
    if reports == [] then 0 else SumBy(reports[..|reports| - 1], value) + value(reports[|reports| - 1])
  }

  lemma SumByAppend(reports: seq<Report>, r: Report, value: Report -> int)
    ensures SumBy(reports + [r], value) == SumBy(reports, value) + value(r)
  {
    assert (reports + [r])[..|reports|] == reports;
  }

  lemma NewestOfLonger(reports: seq<Report>, r: Report, id: string)
    requires id in Instances(reports)
    ensures id in Instances(reports + [r]) && NewestOf(reports + [r], id) == NewestOf(reports, id)
  {
    var more := reports + [r];
    FirstExists(reports, id);
    var i: nat :| i < |reports| && reports[i].instanceId == id && FirstOfInstance(reports, i);
    assert forall k :: 0 <= k < |reports| ==> more[k] == reports[k];
    assert more[i].instanceId == id && FirstOfInstance(more, i);
  }

  lemma NewestOfNew(reports: seq<Report>, r: Report)
    requires r.instanceId !in Instances(reports)
    ensures r.instanceId in Instances(reports + [r]) && NewestOf(reports + [r], r.instanceId) == r
  {
    var more := reports + [r];
    assert more[|reports|] == r;
    assert forall k :: 0 <= k < |reports| ==> more[k] == reports[k] && reports[k] in reports;
  }

  lemma ValuesNext(reports: seq<Report>, r: Report, value: Report -> int)
    ensures NewestValues(reports + [r], value) ==
            if r.instanceId in Instances(reports) then NewestValues(reports, value)
            else NewestValues(reports, value)[r.instanceId := value(r)]
  {
    assert Instances(reports + [r]) == Instances(reports) + {r.instanceId};
    forall id | id in Instances(reports)
      ensures NewestOf(reports + [r], id) == NewestOf(reports, id)
    {
      NewestOfLonger(reports, r, id);
    }
    if r.instanceId !in Instances(reports) {
      NewestOfNew(reports, r);
    }
  }

  lemma HasIffInstance(reports: seq<Report>, id: string)
    ensures Has(reports, id) <==> id in Instances(reports)
  {
  }

  lemma InstancesNext(reports: seq<Report>, r: Report)
    ensures Instances(reports + [r]) == Instances(reports) + {r.instanceId}
    ensures |Instances(reports + [r])| == |Instances(reports)| + if r.instanceId in Instances(reports) then 0 else 1
  {
    assert Instances(reports + [r]) == Instances(reports) + {r.instanceId};
    if r.instanceId in Instances(reports) {
      assert Instances(reports) + {r.instanceId} == Instances(reports);
    }
  }

  lemma LatestSumNext(reports: seq<Report>, r: Report, value: Report -> int)
    requires SumBy(Latest(reports), value) == SumOver(NewestValues(reports, value))
    ensures SumBy(Latest(reports + [r]), value) == SumOver(NewestValues(reports + [r], value))
  {
    LatestAppend(reports, r);
    HasIffInstance(reports, r.instanceId);
    ValuesNext(reports, r, value);
    if r.instanceId !in Instances(reports) {
      SumByAppend(Latest(reports), r, value);
      assert r.instanceId !in NewestValues(reports, value);
      SumOverAdding(NewestValues(reports, value), r.instanceId, value(r));
    }
  }

  lemma {:induction false} LatestCount(reports: seq<Report>)
    ensures |Latest(reports)| == |Instances(reports)|
    decreases |reports|
  {
    if reports != [] {
      var init, last := reports[..|reports| - 1], reports[|reports| - 1];
      assert reports == init + [last];
      LatestCount(init);
      LatestAppend(init, last);
      HasIffInstance(init, last.instanceId);
      InstancesNext(init, last);
    }
  }

  /** Summing over the latest reports is summing over the instances, each by its newest report. */
  lemma {:induction false} LatestSum(reports: seq<Report>, value: Report -> int)
    ensures SumBy(Latest(reports), value) == SumOver(NewestValues(reports, value))
    decreases |reports|
  {
    if reports != [] {
      var init, last := reports[..|reports| - 1], reports[|reports| - 1];
      assert reports == init + [last];
      LatestSum(init, value);
      LatestSumNext(init, last, value);
    }
  }

  lemma {:induction false} SumOfFields(reports: seq<Report>)
    ensures SumOf(reports).instances == |reports|
    ensures SumOf(reports).orgs == SumBy(reports, (r: Report) => r.orgCount)
    ensures SumOf(reports).repos == SumBy(reports, (r: Report) => r.repoCount)
    ensures SumOf(reports).users == SumBy(reports, (r: Report) => r.userCount)
    ensures SumUsers(reports) == SumBy(reports, (r: Report) => r.userCount)
    decreases |reports|
  {
    if reports != [] {
      SumOfFields(reports[..|reports| - 1]);
    }
  }

  /** Every total is the sum, over the instances, of that number of the instance's newest report. */
  ghost predicate TotalsLaw(reports: seq<Report>, totals: Totals) {
    && totals.instances == |Instances(reports)|
    && totals.orgs == SumOver(NewestValues(reports, (r: Report) => r.orgCount))
    && totals.repos == SumOver(NewestValues(reports, (r: Report) => r.repoCount))
    && totals.users == SumOver(NewestValues(reports, (r: Report) => r.userCount))
  }

  lemma UsersMean(reports: seq<Report>)
    ensures SumUsers(Latest(reports)) == SumOver(NewestValues(reports, (r: Report) => r.userCount))
  {
    SumOfFields(Latest(reports));
    LatestSum(reports, (r: Report) => r.userCount);
  }

  lemma TotalsMean(reports: seq<Report>)
    ensures TotalsLaw(reports, SumOf(Latest(reports)))
  {
    SumOfFields(Latest(reports));
    LatestCount(reports);
    LatestSum(reports, (r: Report) => r.orgCount);
    LatestSum(reports, (r: Report) => r.repoCount);
    LatestSum(reports, (r: Report) => r.userCount);
  }

  // ---- Weeks ----

  /** Start of the bucket with index i. */
  function BucketStart(now: int, i: int): int {
    WeekOf(StartOfWeek(now), i)
  }

  /** The i-th of the twelve weeks that end with the current one. */
  function WeekOf(current: int, i: int): int {
    current - (WEEKS_SHOWN - 1 - i) * WEEK
  }

  /** The reports of one week, in order. */
  function InWeek(reports: seq<Report>, start: int): seq<Report> {
    if reports == [] then []
    else
      var r := reports[|reports| - 1];
      var earlier := InWeek(reports[..|reports| - 1], start);
      if StartOfWeek(r.reportedAt) == start then earlier + [r] else earlier
  }

  lemma InWeekNext(reports: seq<Report>, r: Report, start: int)
    ensures InWeek(reports + [r], start) == if StartOfWeek(r.reportedAt) == start then InWeek(reports, start) + [r] else InWeek(reports, start)
  {
    assert (reports + [r])[..|reports|] == reports;
  }

  lemma {:induction false} InWeekMeans(reports: seq<Report>, start: int)
    ensures forall r :: r in InWeek(reports, start) <==> r in reports && StartOfWeek(r.reportedAt) == start
    decreases |reports|
  {
    if reports != [] {
      var init, last := reports[..|reports| - 1], reports[|reports| - 1];
      assert reports == init + [last];
      InWeekMeans(init, start);
      InWeekNext(init, last, start);
    }
  }

  lemma AppendOlder(reports: seq<Report>, r: Report)
    requires NewestFirst(reports) && forall s :: s in reports ==> s.reportedAt >= r.reportedAt
    ensures NewestFirst(reports + [r])
  {
  }

  lemma {:induction false} InWeekOrdered(reports: seq<Report>, start: int)
    requires NewestFirst(reports)
    ensures NewestFirst(InWeek(reports, start))
    decreases |reports|
  {
    if reports != [] {
      var init, last := reports[..|reports| - 1], reports[|reports| - 1];
      assert reports == init + [last];
      NewestFirstPrefix(init, last);
      InWeekOrdered(init, start);
      InWeekMeans(init, start);
      AppendOlder(InWeek(init, start), last);
    }
  }

  /** A time in a week that is whole weeks from the current one lies in the window exactly when its week is one of the twelve. */
  lemma WindowWeeks(current: int, week: int, k: int, time: int)
    requires week == current + k * WEEK && week <= time < week + WEEK
    ensures WeekOf(current, 0) <= time < WeekOf(current, WEEKS_SHOWN) <==> exists i :: 0 <= i < WEEKS_SHOWN && WeekOf(current, i) == week
  {
    assert WeekOf(current, k + WEEKS_SHOWN - 1) == week;
  }

  lemma WeeksBetween(a: int, b: int)
    requires IsMonday(a) && IsMonday(b)
    ensures b == a + (b - a) / WEEK * WEEK
  {
    MondaysApart(a, b);
  }

  lemma WindowOf(current: int, time: int)
    requires IsMonday(current)
    ensures WeekOf(current, 0) <= time < WeekOf(current, WEEKS_SHOWN) <==>
            exists i :: 0 <= i < WEEKS_SHOWN && WeekOf(current, i) == StartOfWeek(time)
  {
    StartOfWeekIs(time, time);
    WeeksBetween(current, StartOfWeek(time));
    WindowWeeks(current, StartOfWeek(time), (StartOfWeek(time) - current) / WEEK, time);
  }

  /** The twelve buckets are consecutive weeks ending with the current one: a time falls into exactly one of them
      when it lies in that window, and into none otherwise. */
  lemma BucketsPartitionWindow(now: int, time: int)
    ensures BucketStart(now, 0) <= time < BucketStart(now, WEEKS_SHOWN) <==>
            exists i :: 0 <= i < WEEKS_SHOWN && BucketStart(now, i) == StartOfWeek(time)
    ensures forall i, j :: 0 <= i < WEEKS_SHOWN && 0 <= j < WEEKS_SHOWN && BucketStart(now, i) == BucketStart(now, j) ==> i == j
    ensures BucketStart(now, WEEKS_SHOWN) == StartOfWeek(now) + WEEK
  {
    StartOfWeekIs(now, now);
    WindowOf(StartOfWeek(now), time);
    assert forall i :: BucketStart(now, i) == WeekOf(StartOfWeek(now), i);
  }

  datatype Week = Week(start: int, activeInstances: int, users: int)

  /** A bucket while it is filled: the first report seen of each instance, in order. */
  datatype Bucket = Bucket(start: int, firsts: seq<Report>)

  /** A week's bucket has one report for each instance that reported in it, the newest of that instance that week. */
  lemma WeekListsNewest(reports: seq<Report>, start: int)
    requires NewestFirst(reports)
    ensures var firsts := Latest(InWeek(reports, start));
            && (forall r :: r in firsts ==> r in reports && StartOfWeek(r.reportedAt) == start)
            && (forall r, s :: r in firsts && s in reports && s.instanceId == r.instanceId && StartOfWeek(s.reportedAt) == start ==>
                  s.reportedAt <= r.reportedAt)
            && DifferentInstances(firsts)
            && (forall r :: r in reports && StartOfWeek(r.reportedAt) == start ==> Has(firsts, r.instanceId))
  {
    var week := InWeek(reports, start);
    InWeekMeans(reports, start);
    InWeekOrdered(reports, start);
    LatestMeans(week);
    assert forall r :: r in Latest(week) ==> NewestOfInstance(week, r);
  }

  // ---- getDashboardData ----

  method LatestReports(reports: seq<Report>) returns (latest: seq<Report>)
    ensures latest == Latest(reports)
  {
    latest := [];
    for n := 0 to |reports|
      invariant latest == Latest(reports[..n])
    {
      LatestInsert(reports[..n], reports[n]);
      assert reports[..n + 1] == reports[..n] + [reports[n]];
      latest := Insert(latest, reports[n]);
    }
    assert reports[..|reports|] == reports;
  }

  lemma InsertedOrder(sorted: seq<Report>, r: Report, at: nat)
    requires NewestFirst(sorted) && at <= |sorted|
    requires forall k :: at <= k < |sorted| ==> sorted[k].reportedAt < r.reportedAt
    requires at > 0 ==> sorted[at - 1].reportedAt >= r.reportedAt
    ensures NewestFirst(sorted[..at] + [r] + sorted[at..])
  {
  }

  lemma InsertedContents(sorted: seq<Report>, r: Report, at: nat)
    requires at <= |sorted|
    ensures multiset(sorted[..at] + [r] + sorted[at..]) == multiset(sorted) + multiset{r}
  {
    assert sorted == sorted[..at] + sorted[at..];
  }

  /** Inserting behind all reports at least as new; at the end when all are. */
  method InsertSorted(sorted0: seq<Report>, r: Report) returns (sorted: seq<Report>)
    requires NewestFirst(sorted0)
    ensures NewestFirst(sorted) && multiset(sorted) == multiset(sorted0) + multiset{r}
    ensures (forall s :: s in sorted0 ==> s.reportedAt >= r.reportedAt) ==> sorted == sorted0 + [r]
  {
    var at := InsertionPoint(sorted0, r);
    InsertedOrder(sorted0, r, at);
    InsertedContents(sorted0, r, at);
    sorted := sorted0[..at] + [r] + sorted0[at..];
    if at == |sorted0| {
      assert sorted0[..at] + [r] + sorted0[at..] == sorted0 + [r];
    } else {
      assert sorted0[at] in sorted0;
    }
  }

  lemma PrefixNext(reports: seq<Report>, n: nat)
    requires n < |reports|
    ensures reports[..n + 1] == reports[..n] + [reports[n]]
    ensures NewestFirst(reports) ==> forall r :: r in reports[..n] ==> r.reportedAt >= reports[n].reportedAt
  {
  }

  /** A stable sort by time, newest first, by insertion. */
  method SortNewestFirst(reports: seq<Report>) returns (sorted: seq<Report>)
    ensures NewestFirst(sorted) && multiset(sorted) == multiset(reports)
    ensures NewestFirst(reports) ==> sorted == reports
  {
    sorted := [];
    for n := 0 to |reports|
      invariant NewestFirst(sorted) && multiset(sorted) == multiset(reports[..n])
      invariant NewestFirst(reports) ==> sorted == reports[..n]
    {
      PrefixNext(reports, n);
      sorted := InsertSorted(sorted, reports[n]);
    }
    assert reports[..|reports|] == reports;
  }

  method InsertionPoint(sorted: seq<Report>, r: Report) returns (at: nat)
    ensures at <= |sorted| && forall k :: at <= k < |sorted| ==> sorted[k].reportedAt < r.reportedAt
    ensures at > 0 ==> sorted[at - 1].reportedAt >= r.reportedAt
  {
    at := |sorted|;
    while at > 0 && sorted[at - 1].reportedAt < r.reportedAt
      invariant at <= |sorted|
      invariant forall k :: at <= k < |sorted| ==> sorted[k].reportedAt < r.reportedAt
    {
      at := at - 1;
    }
  }

  method Total(reports: seq<Report>) returns (totals: Totals)
    ensures totals == SumOf(reports)
  {
    totals := Totals(0, 0, 0, 0);
    for n := 0 to |reports|
      invariant totals == SumOf(reports[..n])
    {
      var r := reports[n];
      assert reports[..n + 1][..n] == reports[..n];
      totals := Totals(totals.instances + 1, totals.orgs + r.orgCount, totals.repos + r.repoCount, totals.users + r.userCount);
    }
    assert reports[..|reports|] == reports;
  }

  method Users(reports: seq<Report>) returns (users: int)
    ensures users == SumUsers(reports)
  {
    users := 0;
    for n := 0 to |reports|
      invariant users == SumUsers(reports[..n])
    {
      assert reports[..n + 1][..n] == reports[..n];
      users := users + reports[n].userCount;
    }
    assert reports[..|reports|] == reports;
  }

  method MakeBuckets(now: int) returns (buckets: seq<Bucket>, indexByStart: map<int, nat>)
    ensures |buckets| == WEEKS_SHOWN && forall k :: 0 <= k < WEEKS_SHOWN ==> buckets[k] == Bucket(BucketStart(now, k), [])
    ensures forall s :: s in indexByStart <==> exists k :: 0 <= k < WEEKS_SHOWN && BucketStart(now, k) == s
    ensures forall s :: s in indexByStart ==> indexByStart[s] < WEEKS_SHOWN && BucketStart(now, indexByStart[s]) == s
  {
    buckets, indexByStart := [], map[];
    var i := WEEKS_SHOWN - 1;
    while i >= 0
      invariant -1 <= i < WEEKS_SHOWN && |buckets| == WEEKS_SHOWN - 1 - i
      invariant forall k :: 0 <= k < |buckets| ==> buckets[k] == Bucket(BucketStart(now, k), [])
      invariant forall s :: s in indexByStart <==> exists k :: 0 <= k < |buckets| && BucketStart(now, k) == s
      invariant forall s :: s in indexByStart ==> indexByStart[s] < |buckets| && BucketStart(now, indexByStart[s]) == s
      decreases i
    {
      var startMs := StartOfWeek(now) - i * WEEK;
      assert startMs == BucketStart(now, |buckets|);
      indexByStart := indexByStart[startMs := |buckets|];
      buckets := buckets + [Bucket(startMs, [])];
      i := i - 1;
    }
  }

  /** Each bucket holds the newest report of every instance that reported in its week. */
  ghost predicate Filled(now: int, buckets: seq<Bucket>, reports: seq<Report>) {
    |buckets| == WEEKS_SHOWN && forall k :: 0 <= k < WEEKS_SHOWN ==>
      buckets[k] == Bucket(BucketStart(now, k), Latest(InWeek(reports, BucketStart(now, k))))
  }

  /** One more report changes at most the bucket of its own week. */
  lemma FilledNext(now: int, reports: seq<Report>, r: Report, k: int)
    requires 0 <= k < WEEKS_SHOWN
    ensures var start := BucketStart(now, k);
            Latest(InWeek(reports + [r], start)) ==
            if StartOfWeek(r.reportedAt) == start then Insert(Latest(InWeek(reports, start)), r) else Latest(InWeek(reports, start))
  {
    var start := BucketStart(now, k);
    InWeekNext(reports, r, start);
    LatestInsert(InWeek(reports, start), r);
  }

  method AddReport(now: int, indexByStart: map<int, nat>, buckets0: seq<Bucket>, ghost reports: seq<Report>, r: Report)
    returns (buckets: seq<Bucket>)
    requires forall s :: s in indexByStart <==> exists k :: 0 <= k < WEEKS_SHOWN && BucketStart(now, k) == s
    requires forall s :: s in indexByStart ==> indexByStart[s] < WEEKS_SHOWN && BucketStart(now, indexByStart[s]) == s
    requires Filled(now, buckets0, reports)
    ensures Filled(now, buckets, reports + [r])
  {
    buckets := buckets0;
    var startMs := StartOfWeek(r.reportedAt);
    if startMs in indexByStart {
      var idx := indexByStart[startMs];
      buckets := buckets[idx := buckets[idx].(firsts := Insert(buckets[idx].firsts, r))];
    }
    BucketsPartitionWindow(now, r.reportedAt);
    forall k | 0 <= k < WEEKS_SHOWN
      ensures buckets[k] == Bucket(BucketStart(now, k), Latest(InWeek(reports + [r], BucketStart(now, k))))
    {
      FilledNext(now, reports, r, k);
    }
  }

  method FillBuckets(now: int, reports: seq<Report>) returns (buckets: seq<Bucket>)
    ensures Filled(now, buckets, reports)
  {
    var indexByStart;
    buckets, indexByStart := MakeBuckets(now);
    for n := 0 to |reports|
      invariant Filled(now, buckets, reports[..n])
    {
      assert reports[..n + 1] == reports[..n] + [reports[n]];
      buckets := AddReport(now, indexByStart, buckets, reports[..n], reports[n]);
    }
    assert reports[..|reports|] == reports;
  }

  method Summaries(buckets: seq<Bucket>) returns (weekly: seq<Week>)
    ensures |weekly| == |buckets|
    ensures forall k :: 0 <= k < |buckets| ==> weekly[k] == Week(buckets[k].start, |buckets[k].firsts|, SumUsers(buckets[k].firsts))
  {
    weekly := [];
    for k := 0 to |buckets|
      invariant |weekly| == k
      invariant forall j :: 0 <= j < k ==>
                  weekly[j] == Week(buckets[j].start, |buckets[j].firsts|, SumUsers(buckets[j].firsts))
    {
      var users := Users(buckets[k].firsts);
      weekly := weekly + [Week(buckets[k].start, |buckets[k].firsts|, users)];
    }
  }

  /** A week: the instances that reported in it, and the sum of the users of each one's newest report in it. */
  ghost predicate WeekLaw(reports: seq<Report>, start: int, week: Week) {
    && week.start == start
    && week.activeInstances == |Instances(InWeek(reports, start))|
    && week.users == SumOver(NewestValues(InWeek(reports, start), (r: Report) => r.userCount))
  }

  lemma WeekMeans(reports: seq<Report>, start: int)
    ensures WeekLaw(reports, start, Week(start, |Latest(InWeek(reports, start))|, SumUsers(Latest(InWeek(reports, start)))))
  {
    LatestCount(InWeek(reports, start));
    UsersMean(InWeek(reports, start));
  }

  lemma StartIs(now: int, k: int)
    ensures BucketStart(now, k) == StartOfWeek(now) - (11 - k) * 604_800_000
  {
  }

  lemma WeeksMean(now: int, reports: seq<Report>, weekly: seq<Week>)
    requires |weekly| == WEEKS_SHOWN && forall k :: 0 <= k < WEEKS_SHOWN ==>
               var firsts := Latest(InWeek(reports, BucketStart(now, k)));
               weekly[k] == Week(BucketStart(now, k), |firsts|, SumUsers(firsts))
    ensures |weekly| == 12 && forall k :: 0 <= k < 12 ==> WeekLaw(reports, StartOfWeek(now) - (11 - k) * 604_800_000, weekly[k])
  {
    forall k | 0 <= k < 12
      ensures WeekLaw(reports, StartOfWeek(now) - (11 - k) * 604_800_000, weekly[k])
    {
      StartIs(now, k);
      WeekMeans(reports, BucketStart(now, k));
    }
  }

  /** Totals sum the newest report of each instance once; each week sums the newest report of each instance in it. */
  method GetDashboardData(now: int, reports: seq<Report>) returns (instances: seq<Report>, totals: Totals, weekly: seq<Week>)
    requires NewestFirst(reports)
    ensures instances == Latest(reports) && totals == SumOf(Latest(reports))
    ensures |weekly| == WEEKS_SHOWN && forall k :: 0 <= k < WEEKS_SHOWN ==>
              var firsts := Latest(InWeek(reports, BucketStart(now, k)));
              weekly[k] == Week(BucketStart(now, k), |firsts|, SumUsers(firsts))
    ensures TotalsLaw(reports, totals)
    ensures |weekly| == 12 && forall k :: 0 <= k < 12 ==> WeekLaw(reports, StartOfWeek(now) - (11 - k) * 604_800_000, weekly[k])
  {
    var latest := LatestReports(reports);
    LatestOrdered(reports);
    instances := SortNewestFirst(latest);
    totals := Total(instances);
    var buckets := FillBuckets(now, reports);
    weekly := Summaries(buckets);
    TotalsMean(reports);
    WeeksMean(now, reports, weekly);
  }
}
