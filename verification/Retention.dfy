/**
 Retention figures over the table of viewing events.

 The join-and-average query and the cohort query are both written out as the engine evaluates them,
 over any table of events, duplicates included.  Rates are exact.  Dates count days from the epoch and
 are never negative, as the column type has it.
 */
module Retention {
  /** The cohort query keeps this many lifecycle days, from day 0 on. */
  const LIFECYCLE_DAYS: nat := 8

  type UserId = nat
  type Date = nat

  const MILLISECONDS_PER_DAY: nat := 86_400_000

  datatype EventType = ViewStarted | ViewFinished | ViewPaused | ViewResumed | Liked | Searched

  datatype Event = Event(user: UserId, kind: EventType, timestamp: nat)

  function DateOf(e: Event): Date {
    e.timestamp / MILLISECONDS_PER_DAY
  }

  predicate IsWatch(e: Event) {
    e.kind != Liked && e.kind != Searched
  }

  /** A date is a calendar day: 24 hours of 60 minutes of 60 seconds, counted from the epoch. */
  lemma DateIsDay(e: Event, d: Date)
    ensures DateOf(e) == d <==> d * (24 * 60 * 60 * 1000) <= e.timestamp < (d + 1) * (24 * 60 * 60 * 1000)
  {
  }

  /** Four kinds of events are watches. */
  lemma WatchKinds(e: Event)
    ensures IsWatch(e) <==> e.kind in {ViewStarted, ViewFinished, ViewPaused, ViewResumed}
  {
  }

  // ---------------------------------------------------------------- first_watch

  /** The earliest day on which each user watches. */
  function FirstWatch(events: seq<Event>): map<UserId, Date> {
    if events == [] then map[]
    else
      var e := events[|events| - 1];
      var first := FirstWatch(events[..|events| - 1]);
      if !IsWatch(e) then first
      else if e.user in first && first[e.user] <= DateOf(e) then first
      else first[e.user := DateOf(e)]
  }

  /** User `u` watches something on day `d`. */
  ghost predicate WatchesOn(events: seq<Event>, u: UserId, d: Date) {
    exists i :: 0 <= i < |events| && events[i].user == u && IsWatch(events[i]) && DateOf(events[i]) == d
  }

  /** The first watch is a watch, and no watch is earlier. */
  lemma {:induction false} FirstWatchIsFirst(events: seq<Event>, u: UserId)
    ensures u in FirstWatch(events) ==> WatchesOn(events, u, FirstWatch(events)[u])
    ensures forall d: Date :: WatchesOn(events, u, d) ==> u in FirstWatch(events) && FirstWatch(events)[u] <= d
  {
    if events != [] {
      var n := |events| - 1;
      FirstWatchIsFirst(events[..n], u);
      forall d: Date
        ensures WatchesOn(events, u, d) <==>
                WatchesOn(events[..n], u, d) || (events[n].user == u && IsWatch(events[n]) && DateOf(events[n]) == d)
      {
        WatchesOnLast(events, u, d);
      }
    }
  }

  lemma WatchesOnLast(events: seq<Event>, u: UserId, d: Date)
    requires events != []
    ensures var n := |events| - 1;
            WatchesOn(events, u, d) <==>
            WatchesOn(events[..n], u, d) || (events[n].user == u && IsWatch(events[n]) && DateOf(events[n]) == d)
  {
    var n := |events| - 1;
    if WatchesOn(events, u, d) {
      var i :| 0 <= i < |events| && events[i].user == u && IsWatch(events[i]) && DateOf(events[i]) == d;
      if i < n {
        assert events[..n][i] == events[i];
      }
    }
    if WatchesOn(events[..n], u, d) {
      var i :| 0 <= i < n && events[..n][i].user == u && IsWatch(events[..n][i]) && DateOf(events[..n][i]) == d;
      assert events[i] == events[..n][i];
    }
  }

  /** The users whose first watch is on day `d`. */
  function Cohort(events: seq<Event>, d: Date): set<UserId> {
    var first := FirstWatch(events);
    set u | u in first && first[u] == d
  }

  // ---------------------------------------------------------------- the join-and-average query

  datatype Returns = Returns(d1: nat, d7: nat)

  /** The event dates that the left join finds for one user; a user without any gets one row of defaults. */
  function JoinedDates(events: seq<Event>, u: UserId, d: Date): seq<Date> {
    var found := WatchDates(events, u, {d + 1, d + 7});
    if found == [] then [0] else found
  }

  function WatchDates(events: seq<Event>, u: UserId, days: set<Date>): seq<Date> {
    if events == [] then []
    else
      var e := events[|events| - 1];
      WatchDates(events[..|events| - 1], u, days)
      + (if e.user == u && IsWatch(e) && DateOf(e) in days then [DateOf(e)] else [])
  }

  /** Whether some date of the group is the given day, as the largest of its flags. */
  function MaxFlag(dates: seq<Date>, day: Date): nat {
    if dates == [] then 0
    else if dates[|dates| - 1] == day then 1
    else MaxFlag(dates[..|dates| - 1], day)
  }

  /** The `returns` table: one row for each user of the cohort. */
  function ReturnsTable(events: seq<Event>, d: Date): map<UserId, Returns> {
    map u | u in Cohort(events, d) ::
      Returns(MaxFlag(JoinedDates(events, u, d), d + 1), MaxFlag(JoinedDates(events, u, d), d + 7))
  }

  predicate IsLeast(u: UserId, users: set<UserId>) {
    u in users && forall v :: v in users ==> u <= v
  }

  lemma {:induction false} LeastExists(users: set<UserId>) returns (least: UserId)
    requires users != {}
    ensures IsLeast(least, users)
    decreases |users|
  {
    var one :| one in users;
    var rest := users - {one};
    assert forall v :: v in users ==> v == one || v in rest;
    least := one;
    if rest != {} {
      var other := LeastExists(rest);
      if other <= one {
        least := other;
      }
    }
  }

  /** The least user of a group; adding rows up in the order of their keys makes the sum a computation. */
  function Least(users: set<UserId>): (u: UserId)
    requires users != {}
    ensures IsLeast(u, users)
  {
    assert exists u :: IsLeast(u, users) by {
      var least := LeastExists(users);
    }
    var u :| IsLeast(u, users);
    u
  }

  /** sum(flag) over the rows of the given users */
  function FlagTotal(table: map<UserId, Returns>, users: set<UserId>, flag: Returns -> nat): nat
    requires users <= table.Keys
    decreases |users|
  {
    if users == {} then 0
    else
      var u := Least(users);
      flag(table[u]) + FlagTotal(table, users - {u}, flag)
  }

  /** avg(flag), 0 over no rows */
  function Average(table: map<UserId, Returns>, flag: Returns -> nat): real {
    Share(FlagTotal(table, table.Keys, flag), |table|)
  }

  datatype RetentionRow = RetentionRow(date: Date, d1: real, d7: real)

  function DailyRetention(events: seq<Event>, d: Date): RetentionRow {
    var table := ReturnsTable(events, d);
    RetentionRow(d, Average(table, (r: Returns) => r.d1), Average(table, (r: Returns) => r.d7))
  }

  // ---------------------------------------------------------------- the cohort query

  datatype CohortUser = CohortUser(user: UserId, lifecycleDay: int)

  /** first_watch joined with the watch events, for one cohort. */
  function CohortUsers(events: seq<Event>, cohort: set<UserId>, d: Date): seq<CohortUser> {
    if events == [] then []
    else
      var e := events[|events| - 1];
      CohortUsers(events[..|events| - 1], cohort, d)
      + (if e.user in cohort && IsWatch(e) then [CohortUser(e.user, DateOf(e) - d)] else [])
  }

  /** The users of one group, each counted once. */
  function UsersOf(rows: seq<CohortUser>, day: int): set<UserId> {
    set i | 0 <= i < |rows| && rows[i].lifecycleDay == day :: rows[i].user
  }

  datatype CohortRow = CohortRow(date: Date, lifecycleDay: nat, users: nat, size: nat, rate: real)

  /** The row of one lifecycle day; days outside 0..7, and days on which nobody watched, have none. */
  function CohortRowOf(d: Date, day: int, users: set<UserId>, size: nat): (row: seq<CohortRow>) {
    if !(0 <= day <= 7) || users == {} then []
    else [CohortRow(d, day % 256, |users|, size, Share(|users|, size))]
  }

  function Share(users: nat, size: nat): real {
    if size == 0 then 0.0 else users as real / size as real
  }

  /** The rows of the first `n` lifecycle days, in order. */
  function CohortRowsUpTo(table: seq<CohortUser>, size: nat, d: Date, n: nat): seq<CohortRow> {
    if n == 0 then []
    else CohortRowsUpTo(table, size, d, n - 1) + CohortRowOf(d, n - 1, UsersOf(table, n - 1), size)
  }

  function RetentionCohorts(events: seq<Event>, d: Date): seq<CohortRow> {
    var cohort := Cohort(events, d);
    CohortRowsUpTo(CohortUsers(events, cohort, d), |cohort|, d, LIFECYCLE_DAYS)
  }

  /** The figures of one lifecycle day as a reader of the cohort table finds them; 0 where there is no row. */
  function CohortRate(rows: seq<CohortRow>, day: nat): real {
    if rows == [] then 0.0
    else if rows[|rows| - 1].lifecycleDay == day then rows[|rows| - 1].rate
    else CohortRate(rows[..|rows| - 1], day)
  }

  function CohortUserCount(rows: seq<CohortRow>, day: nat): nat {
    if rows == [] then 0
    else if rows[|rows| - 1].lifecycleDay == day then rows[|rows| - 1].users
    else CohortUserCount(rows[..|rows| - 1], day)
  }

  // ---------------------------------------------------------------- both count the same users

  /** The users of cohort `d` that watch `day` days later. */
  ghost function Retained(events: seq<Event>, d: Date, day: nat): set<UserId> {
    set u | u in Cohort(events, d) && WatchesOn(events, u, d + day)
  }

  lemma {:induction false} WatchDatesFind(events: seq<Event>, u: UserId, days: set<Date>, day: Date)
    ensures day in WatchDates(events, u, days) <==> day in days && WatchesOn(events, u, day)
  {
    if events != [] {
      WatchDatesFind(events[..|events| - 1], u, days, day);
      WatchesOnLast(events, u, day);
    }
  }

  lemma {:induction false} MaxFlagFinds(dates: seq<Date>, day: Date)
    ensures MaxFlag(dates, day) == if day in dates then 1 else 0
  {
    if dates != [] {
      MaxFlagFinds(dates[..|dates| - 1], day);
      assert dates == dates[..|dates| - 1] + [dates[|dates| - 1]];
    }
  }

  /** The default row of the left join never counts as a return. */
  lemma JoinFlags(events: seq<Event>, u: UserId, d: Date, day: nat)
    requires day == 1 || day == 7
    ensures MaxFlag(JoinedDates(events, u, d), d + day) == if WatchesOn(events, u, d + day) then 1 else 0
  {
    WatchDatesFind(events, u, {d + 1, d + 7}, d + day);
    MaxFlagFinds(JoinedDates(events, u, d), d + day);
  }

  lemma {:induction false} FlagsCount(table: map<UserId, Returns>, users: set<UserId>, flag: Returns -> nat,
                                      counted: set<UserId>)
    requires counted <= users <= table.Keys
    requires forall u :: u in users ==> flag(table[u]) == if u in counted then 1 else 0
    ensures FlagTotal(table, users, flag) == |counted|
    decreases |users|
  {
    if users != {} {
      var u := Least(users);
      FlagsCount(table, users - {u}, flag, counted - {u});
      if u in counted {
        assert |counted| == |counted - {u}| + 1;
      } else {
        assert counted - {u} == counted;
      }
    }
  }

  lemma AverageIsShare(events: seq<Event>, d: Date, day: nat, flag: Returns -> nat)
    requires day == 1 || day == 7
    requires forall r: Returns :: flag(r) == if day == 1 then r.d1 else r.d7
    ensures Average(ReturnsTable(events, d), flag) == Share(|Retained(events, d, day)|, |Cohort(events, d)|)
  {
    var table := ReturnsTable(events, d);
    assert table.Keys == Cohort(events, d);
    forall u | u in table
      ensures flag(table[u]) == if u in Retained(events, d, day) then 1 else 0
    {
      JoinFlags(events, u, d, day);
    }
    FlagsCount(table, table.Keys, flag, Retained(events, d, day));
  }

  lemma {:induction false} CohortUsersFind(events: seq<Event>, cohort: set<UserId>, d: Date, u: UserId, day: nat)
    ensures u in UsersOf(CohortUsers(events, cohort, d), day) <==> u in cohort && WatchesOn(events, u, d + day)
  {
    var rows := CohortUsers(events, cohort, d);
    if events != [] {
      var n := |events| - 1;
      var before := CohortUsers(events[..n], cohort, d);
      CohortUsersFind(events[..n], cohort, d, u, day);
      WatchesOnLast(events, u, d + day);
      assert before <= rows;
      if u in UsersOf(before, day) {
        var i :| 0 <= i < |before| && before[i].lifecycleDay == day && before[i].user == u;
        assert rows[i] == before[i];
      }
      if u in UsersOf(rows, day) {
        var i :| 0 <= i < |rows| && rows[i].lifecycleDay == day && rows[i].user == u;
        if i < |before| {
          assert before[i] == rows[i];
        }
      }
      if |rows| > |before| && events[n].user == u && DateOf(events[n]) == d + day {
        assert rows[|before|] == CohortUser(u, day);
      }
    }
  }

  lemma GroupIsRetained(events: seq<Event>, d: Date, day: nat)
    ensures UsersOf(CohortUsers(events, Cohort(events, d), d), day) == Retained(events, d, day)
  {
    forall u
      ensures u in UsersOf(CohortUsers(events, Cohort(events, d), d), day) <==> u in Retained(events, d, day)
    {
      CohortUsersFind(events, Cohort(events, d), d, u, day);
    }
  }

  lemma LookUpLast(rows: seq<CohortRow>, row: CohortRow, day: nat)
    ensures CohortUserCount(rows + [row], day) == if row.lifecycleDay == day then row.users
        else CohortUserCount(rows, day)
    ensures CohortRate(rows + [row], day) == if row.lifecycleDay == day then row.rate else CohortRate(rows, day)
  {
    assert (rows + [row])[..|rows|] == rows;
  }

  /** A table of earlier days grows by the row of day `n`, or by none. */
  lemma RowAppended(before: seq<CohortRow>, d: Date, n: nat, users: set<UserId>, size: nat, day: nat)
    requires n < LIFECYCLE_DAYS
    requires CohortUserCount(before, n) == 0 && CohortRate(before, n) == 0.0
    ensures CohortUserCount(before + CohortRowOf(d, n, users, size), day)
         == if day == n then |users| else CohortUserCount(before, day)
    ensures CohortRate(before + CohortRowOf(d, n, users, size), day)
         == if day == n then Share(|users|, size) else CohortRate(before, day)
  {
    var own := CohortRowOf(d, n, users, size);
    if own == [] {
      assert before + own == before;
    } else {
      LookUpLast(before, own[0], day);
    }
  }

  /** What the cohort table says about one lifecycle day. */
  lemma {:induction false} RowsSay(table: seq<CohortUser>, size: nat, d: Date, n: nat, day: nat)
    requires n <= LIFECYCLE_DAYS
    ensures var rows := CohortRowsUpTo(table, size, d, n);
            && CohortUserCount(rows, day) == (if day < n then |UsersOf(table, day)| else 0)
            && CohortRate(rows, day) == (if day < n then Share(|UsersOf(table, day)|, size) else 0.0)
    decreases n
  {
    hide UsersOf, Share, CohortRowOf, CohortUserCount, CohortRate;
    if n == 0 {
      NoRows(day);
    } else {
      RowsSay(table, size, d, n - 1, n - 1);
      RowsSay(table, size, d, n - 1, day);
      RowAppended(CohortRowsUpTo(table, size, d, n - 1), d, n - 1, UsersOf(table, n - 1), size, day);
    }
  }

  lemma NoRows(day: nat)
    ensures CohortUserCount([], day) == 0 && CohortRate([], day) == 0.0
  {
  }

  /** Every row of the table: its day was watched on, and its figures are those of the day and of the cohort. */
  lemma {:induction false} RowsAre(table: seq<CohortUser>, size: nat, d: Date, n: nat, row: CohortRow)
    requires n <= LIFECYCLE_DAYS
    ensures row in CohortRowsUpTo(table, size, d, n) <==>
            var users := UsersOf(table, row.lifecycleDay);
            && row.lifecycleDay < n && users != {}
            && row == CohortRow(d, row.lifecycleDay, |users|, size, Share(|users|, size))
    decreases n
  {
    hide UsersOf, Share;
    if n > 0 {
      RowsAre(table, size, d, n - 1, row);
    }
  }

  /** So a row stands in the cohort table exactly if users of the cohort watched on its day, and says how many. */
  lemma CohortRowsAre(events: seq<Event>, d: Date, row: CohortRow)
    ensures row in RetentionCohorts(events, d) <==>
            var retained, size := |Retained(events, d, row.lifecycleDay)|, |Cohort(events, d)|;
            && row.lifecycleDay < LIFECYCLE_DAYS && retained > 0
            && row == CohortRow(d, row.lifecycleDay, retained, size, Share(retained, size))
  {
    hide CohortRowsUpTo, Share, UsersOf, Cohort;
    var cohort := Cohort(events, d);
    RowsAre(CohortUsers(events, cohort, d), |cohort|, d, LIFECYCLE_DAYS, row);
    GroupIsRetained(events, d, row.lifecycleDay);
  }

  /** The cohort table gives, for each of its days, the users of the cohort that watch on that day. */
  lemma CohortTableSays(events: seq<Event>, d: Date, day: nat)
    requires day < LIFECYCLE_DAYS
    ensures CohortUserCount(RetentionCohorts(events, d), day) == |Retained(events, d, day)|
    ensures CohortRate(RetentionCohorts(events, d), day) == Share(|Retained(events, d, day)|, |Cohort(events, d)|)
  {
    var cohort := Cohort(events, d);
    RowsSay(CohortUsers(events, cohort, d), |cohort|, d, LIFECYCLE_DAYS, day);
    GroupIsRetained(events, d, day);
  }

  /** What the retention query is for: the shares of the cohort that watch one day and seven days later. */
  ghost function RetainedShares(events: seq<Event>, d: Date): RetentionRow {
    var size := |Cohort(events, d)|;
    RetentionRow(d, Share(|Retained(events, d, 1)|, size), Share(|Retained(events, d, 7)|, size))
  }

  lemma RetentionIsShares(events: seq<Event>, d: Date)
    ensures DailyRetention(events, d) == RetainedShares(events, d)
  {
    AverageIsShare(events, d, 1, (r: Returns) => r.d1);
    AverageIsShare(events, d, 7, (r: Returns) => r.d7);
  }

  /** The two queries agree on the first and the seventh day, for every table of events. */
  lemma QueriesAgree(events: seq<Event>, d: Date)
    ensures DailyRetention(events, d).d1 == CohortRate(RetentionCohorts(events, d), 1)
    ensures DailyRetention(events, d).d7 == CohortRate(RetentionCohorts(events, d), 7)
  {
    RetentionIsShares(events, d);
    CohortTableSays(events, d, 1);
    CohortTableSays(events, d, 7);
  }

  // ---------------------------------------------------------------- daily active users

  function ActiveUsers(events: seq<Event>, d: Date): set<UserId> {
    set i | 0 <= i < |events| && DateOf(events[i]) == d :: events[i].user
  }

  function DailyActiveUsers(events: seq<Event>, d: Date): nat {
    |ActiveUsers(events, d)|
  }

  /** The watchers of day `d` whose first watch was at most `age` days earlier. */
  ghost function RecentWatchers(events: seq<Event>, d: Date, age: nat): set<UserId> {
    var first := FirstWatch(events);
    set u | u in first && d - age <= first[u] <= d && WatchesOn(events, u, d)
  }

  /** What the table of the cohort `age` days before day `d` shows for day `d`. */
  function ShownUsers(events: seq<Event>, d: Date, age: nat): nat {
    if age > d then 0 else CohortUserCount(RetentionCohorts(events, d - age), age)
  }

  /** What the cohort tables of days d, d-1, ..., d-age show for day d, added up. */
  function CohortTotal(events: seq<Event>, d: Date, age: nat): nat {
    ShownUsers(events, d, age) + (if age == 0 then 0 else CohortTotal(events, d, age - 1))
  }

  lemma SubsetSize<T>(a: set<T>, b: set<T>)
    requires a <= b
    ensures |a| <= |b|
  {
    assert b == a + (b - a);
  }

  /** The watchers of day `d` in the cohort of one day, which need not exist. */
  ghost function FromCohort(events: seq<Event>, d: Date, age: nat): set<UserId> {
    if age <= d then Retained(events, d - age, age) else {}
  }

  /** One more cohort: its members are told apart from the newer ones by their first watch. */
  lemma OlderCohort(events: seq<Event>, d: Date, age: nat)
    ensures age == 0 ==> |RecentWatchers(events, d, 0)| == |FromCohort(events, d, 0)|
    ensures (age > 0 ==>
              |RecentWatchers(events, d, age)| == |RecentWatchers(events, d, age - 1)| + |FromCohort(events, d, age)|)
  {
    var own := FromCohort(events, d, age);
    if age == 0 {
      assert RecentWatchers(events, d, 0) == own;
    } else {
      var newer := RecentWatchers(events, d, age - 1);
      assert RecentWatchers(events, d, age) == newer + own;
      assert newer * own == {};
    }
  }

  lemma ShownIsFromCohort(events: seq<Event>, d: Date, age: nat)
    requires age <= 7
    ensures ShownUsers(events, d, age) == |FromCohort(events, d, age)|
  {
    if age <= d {
      CohortTableSays(events, d - age, age);
    }
  }

  /** The cohorts partition the watchers of a day: adding them up counts each recent watcher once. */
  lemma {:induction false} CohortsPartition(events: seq<Event>, d: Date, age: nat)
    requires age <= 7
    ensures CohortTotal(events, d, age) == |RecentWatchers(events, d, age)|
  {
    hide ShownUsers, FromCohort, RecentWatchers;
    ShownIsFromCohort(events, d, age);
    OlderCohort(events, d, age);
    if age > 0 {
      CohortsPartition(events, d, age - 1);
    }
  }

  /** So the cohort tables never show more users for a day than were active on it. */
  lemma CohortsWithinDau(events: seq<Event>, d: Date)
    ensures CohortTotal(events, d, 7) == |RecentWatchers(events, d, 7)| <= DailyActiveUsers(events, d)
  {
    CohortsPartition(events, d, 7);
    forall u | u in RecentWatchers(events, d, 7)
      ensures u in ActiveUsers(events, d)
    {
      var i :| 0 <= i < |events| && events[i].user == u && IsWatch(events[i]) && DateOf(events[i]) == d;
    }
    SubsetSize(RecentWatchers(events, d, 7), ActiveUsers(events, d));
  }

  /** A share is exact: times the size it gives the users. */
  lemma ShareIsExact(users: nat, size: nat)
    ensures size > 0 ==> Share(users, size) * size as real == users as real
    ensures size == 0 ==> Share(users, size) == 0.0
  {
  }

  /** Active on a day are exactly the users with an event of any kind on it. */
  lemma ActiveIff(events: seq<Event>, d: Date, u: UserId)
    ensures u in ActiveUsers(events, d) <==> exists e :: e in events && e.user == u && DateOf(e) == d
    ensures DailyActiveUsers(events, d) == |ActiveUsers(events, d)|
  {
    if u in ActiveUsers(events, d) {
      var i :| 0 <= i < |events| && DateOf(events[i]) == d && events[i].user == u;
      assert events[i] in events;
    }
    if e :| e in events && e.user == u && DateOf(e) == d {
      var i :| 0 <= i < |events| && events[i] == e;
      assert events[i].user in ActiveUsers(events, d);
    }
  }

  lemma WholeShare(users: nat)
    requires users > 0
    ensures Share(users, users) == 1.0
  {
  }

  /** Every user of a cohort watches on its first day: rate 1 there, and no more users than were active. */
  lemma FirstDayIsComplete(events: seq<Event>, d: Date)
    requires Cohort(events, d) != {}
    ensures CohortRate(RetentionCohorts(events, d), 0) == 1.0
    ensures CohortUserCount(RetentionCohorts(events, d), 0) == |Cohort(events, d)| <= DailyActiveUsers(events, d)
  {
    hide Share, RetentionCohorts, CohortRate, CohortUserCount;
    CohortTableSays(events, d, 0);
    forall u | u in Cohort(events, d)
      ensures u in Retained(events, d, 0) && u in ActiveUsers(events, d)
    {
      FirstWatchIsFirst(events, u);
      var i :| 0 <= i < |events| && events[i].user == u && IsWatch(events[i]) && DateOf(events[i]) == d;
    }
    assert Retained(events, d, 0) == Cohort(events, d);
    WholeShare(|Cohort(events, d)|);
    SubsetSize(Cohort(events, d), ActiveUsers(events, d));
  }
}
