/**
 The aggregation service: each rewrite deletes the rows of one date and inserts them anew.

 `Do` says what one statement pair, or the arrival of an event, makes of the tables; the class performs the
 rewrites in place.
 */
module Aggregation {
  import opened Options
  import opened Retention

  datatype DauRow = DauRow(date: Date, dau: nat)

  datatype Tables = Tables(
    events: seq<Event>,
    dau: seq<DauRow>,
    retention: seq<RetentionRow>,
    cohorts: seq<CohortRow>)

  datatype Step =
    | Arrive(event: Event)
    | RewriteDau(d: Date)
    | RewriteRetention(d: Date)
    | RewriteCohorts(d: Date)

  /** The rows left by a deletion of date `d`. */
  function Without<Row>(rows: seq<Row>, dateOf: Row -> Date, d: Date): seq<Row> {
    if rows == [] then []
    else
      var last := rows[|rows| - 1];
      Without(rows[..|rows| - 1], dateOf, d) + (if dateOf(last) == d then [] else [last])
  }

  /** The rows that a query for date `d` finds. */
  function Select<Row>(rows: seq<Row>, dateOf: Row -> Date, d: Date): seq<Row> {
    if rows == [] then []
    else
      var last := rows[|rows| - 1];
      Select(rows[..|rows| - 1], dateOf, d) + (if dateOf(last) == d then [last] else [])
  }

  function DauDate(): DauRow -> Date {
    (row: DauRow) => row.date
  }

  function RetentionDate(): RetentionRow -> Date {
    (row: RetentionRow) => row.date
  }

  function CohortDate(): CohortRow -> Date {
    (row: CohortRow) => row.date
  }

  function DauRows(t: Tables, d: Date): seq<DauRow> {
    Select(t.dau, DauDate(), d)
  }

  function RetentionRows(t: Tables, d: Date): seq<RetentionRow> {
    Select(t.retention, RetentionDate(), d)
  }

  function CohortRows(t: Tables, d: Date): seq<CohortRow> {
    Select(t.cohorts, CohortDate(), d)
  }

  function Do(t: Tables, step: Step): Tables {
    match step
    case Arrive(e) => t.(events := t.events + [e])
    case RewriteDau(d) =>
      t.(dau := Without(t.dau, DauDate(), d) + [DauRow(d, DailyActiveUsers(t.events, d))])
    case RewriteRetention(d) =>
      t.(retention := Without(t.retention, RetentionDate(), d) + [DailyRetention(t.events, d)])
    case RewriteCohorts(d) =>
      t.(cohorts := Without(t.cohorts, CohortDate(), d) + RetentionCohorts(t.events, d))
  }

  /** The tables after a run that starts with none filled. */
  function Run(steps: seq<Step>): Tables {
    if steps == [] then Tables([], [], [], [])
    else Do(Run(steps[..|steps| - 1]), steps[|steps| - 1])
  }

  /** The events as the latest occurrence of `step` saw them. */
  function SeenBy(steps: seq<Step>, step: Step): Option<seq<Event>> {
    if steps == [] then None
    else if steps[|steps| - 1] == step then Some(Run(steps[..|steps| - 1]).events)
    else SeenBy(steps[..|steps| - 1], step)
  }

  /** The events that arrive in a run, in their order. */
  function Arrivals(steps: seq<Step>): seq<Event> {
    if steps == [] then [] else Arrived(steps[0]) + Arrivals(steps[1..])
  }

  function Arrived(step: Step): seq<Event> {
    if step.Arrive? then [step.event] else []
  }

  lemma {:induction false} ArrivalsAdd(steps: seq<Step>, step: Step)
    ensures Arrivals(steps + [step]) == Arrivals(steps) + Arrived(step)
  {
    hide Arrived;
    if steps == [] {
      assert Arrivals([]) == [] && [step][1..] == [];
      assert Arrivals([step]) == Arrived(step) + Arrivals([]);
      assert [] + [step] == [step];
    } else {
      var all := steps + [step];
      assert all[1..] == steps[1..] + [step] && all[0] == steps[0];
      ArrivalsAdd(steps[1..], step);
      assert Arrivals(all) == Arrived(steps[0]) + (Arrivals(steps[1..]) + Arrived(step));
    }
  }

  /** The event table holds all of them, whatever is rewritten in between. */
  lemma {:induction false} EventsAreArrivals(steps: seq<Step>)
    ensures Run(steps).events == Arrivals(steps)
  {
    if steps != [] {
      var n := |steps| - 1;
      EventsAreArrivals(steps[..n]);
      ArrivalsAdd(steps[..n], steps[n]);
      assert steps[..n] + [steps[n]] == steps;
    }
  }

  // ---------------------------------------------------------------- delete, then insert

  lemma {:induction false} SelectConcat<Row>(a: seq<Row>, b: seq<Row>, dateOf: Row -> Date, d: Date)
    ensures Select(a + b, dateOf, d) == Select(a, dateOf, d) + Select(b, dateOf, d)
  {
    if b == [] {
      assert a + b == a;
    } else {
      var n := |b| - 1;
      assert (a + b)[..|a| + n] == a + b[..n];
      SelectConcat(a, b[..n], dateOf, d);
    }
  }

  lemma {:induction false} SelectWithout<Row>(rows: seq<Row>, dateOf: Row -> Date, d: Date, other: Date)
    ensures Select(Without(rows, dateOf, d), dateOf, other) == if other == d then [] else Select(rows, dateOf, other)
  {
    if rows != [] {
      var n := |rows| - 1;
      var last := if dateOf(rows[n]) == d then [] else [rows[n]];
      SelectWithout(rows[..n], dateOf, d, other);
      SelectConcat(Without(rows[..n], dateOf, d), last, dateOf, other);
      SelectOne(rows[n], dateOf, other);
    }
  }

  /** Rows that are all of one date are selected for that date, and for no other. */
  lemma {:induction false} SelectOwn<Row>(rows: seq<Row>, dateOf: Row -> Date, own: Date, d: Date)
    requires forall i :: 0 <= i < |rows| ==> dateOf(rows[i]) == own
    ensures Select(rows, dateOf, d) == if own == d then rows else []
  {
    if rows != [] {
      var n := |rows| - 1;
      SelectOwn(rows[..n], dateOf, own, d);
      assert rows == rows[..n] + [rows[n]];
    }
  }

  lemma SelectOne<Row>(row: Row, dateOf: Row -> Date, d: Date)
    ensures Select([row], dateOf, d) == if dateOf(row) == d then [row] else []
  {
    assert [row][..0] == [];
  }

  /** Deleting a date and inserting its rows replaces what that date shows, and nothing else. */
  lemma RewriteShows<Row>(rows: seq<Row>, dateOf: Row -> Date, d: Date, own: seq<Row>, other: Date)
    requires forall i :: 0 <= i < |own| ==> dateOf(own[i]) == d
    ensures Select(Without(rows, dateOf, d) + own, dateOf, other) == if other == d then own
        else Select(rows, dateOf, other)
  {
    SelectConcat(Without(rows, dateOf, d), own, dateOf, other);
    SelectWithout(rows, dateOf, d, other);
    SelectOwn(own, dateOf, d, other);
  }

  /** Rows of one cohort date, in strictly increasing order of their lifecycle day, all below `n`. */
  predicate InOrder(rows: seq<CohortRow>, d: Date, n: nat) {
    && (forall i :: 0 <= i < |rows| ==> rows[i].date == d && rows[i].lifecycleDay < n)
    && (forall i, j :: 0 <= i < j < |rows| ==> rows[i].lifecycleDay < rows[j].lifecycleDay)
  }

  lemma {:induction false} CohortRowsInOrder(table: seq<CohortUser>, size: nat, d: Date, n: nat)
    ensures InOrder(CohortRowsUpTo(table, size, d, n), d, n)
  {
    if n > 0 {
      CohortRowsInOrder(table, size, d, n - 1);
    }
  }

  lemma CohortsInOrder(events: seq<Event>, d: Date)
    ensures InOrder(RetentionCohorts(events, d), d, LIFECYCLE_DAYS)
  {
    var cohort := Cohort(events, d);
    CohortRowsInOrder(CohortUsers(events, cohort, d), |cohort|, d, LIFECYCLE_DAYS);
  }

  /** What the tables show for date `d` after one step. */
  lemma StepShows(t: Tables, step: Step, d: Date)
    ensures DauRows(Do(t, step), d)
         == if step == RewriteDau(d) then [DauRow(d, DailyActiveUsers(t.events, d))] else DauRows(t, d)
    ensures RetentionRows(Do(t, step), d)
         == if step == RewriteRetention(d) then [DailyRetention(t.events, d)] else RetentionRows(t, d)
    ensures CohortRows(Do(t, step), d)
         == if step == RewriteCohorts(d) then RetentionCohorts(t.events, d) else CohortRows(t, d)
  {
    hide DailyActiveUsers;
    match step
    case Arrive(_) =>
    case RewriteDau(own) =>
      RewriteShows(t.dau, DauDate(), own, [DauRow(own, DailyActiveUsers(t.events, own))], d);
    case RewriteRetention(own) =>
      RewriteShows(t.retention, RetentionDate(), own, [DailyRetention(t.events, own)], d);
    case RewriteCohorts(own) =>
      CohortsInOrder(t.events, own);
      RewriteShows(t.cohorts, CohortDate(), own, RetentionCohorts(t.events, own), d);
  }

  // ---------------------------------------------------------------- whole runs

  /** After any run each date shows what its latest rewrite computed, over the events of that moment. */
  lemma {:induction false} ShowsLatestRewrite(steps: seq<Step>, d: Date)
    ensures DauRows(Run(steps), d)
         == match SeenBy(steps, RewriteDau(d))
            case None => []
            case Some(events) => [DauRow(d, DailyActiveUsers(events, d))]
    ensures RetentionRows(Run(steps), d)
         == match SeenBy(steps, RewriteRetention(d))
            case None => []
            case Some(events) => [DailyRetention(events, d)]
    ensures CohortRows(Run(steps), d)
         == match SeenBy(steps, RewriteCohorts(d))
            case None => []
            case Some(events) => RetentionCohorts(events, d)
  {
    if steps != [] {
      var n := |steps| - 1;
      ShowsLatestRewrite(steps[..n], d);
      StepShows(Run(steps[..n]), steps[n], d);
    }
  }

  /** Sorting keys stay unique, so that reading with FINAL, or a merge in the background, drops no row. */
  lemma KeysAreUnique(steps: seq<Step>, d: Date)
    ensures |DauRows(Run(steps), d)| <= 1 && |RetentionRows(Run(steps), d)| <= 1
    ensures InOrder(CohortRows(Run(steps), d), d, LIFECYCLE_DAYS)
  {
    ShowsLatestRewrite(steps, d);
    var seen := SeenBy(steps, RewriteCohorts(d));
    if seen.Some? {
      CohortsInOrder(seen.value, d);
    }
  }

  /** Stored retention and stored cohorts agree whenever the latest rewrites of both saw the same events. */
  lemma StoredFiguresAgree(steps: seq<Step>, d: Date)
    requires SeenBy(steps, RewriteRetention(d)).Some?
    requires SeenBy(steps, RewriteCohorts(d)) == SeenBy(steps, RewriteRetention(d))
    ensures |RetentionRows(Run(steps), d)| == 1
    ensures RetentionRows(Run(steps), d)[0].d1 == CohortRate(CohortRows(Run(steps), d), 1)
    ensures RetentionRows(Run(steps), d)[0].d7 == CohortRate(CohortRows(Run(steps), d), 7)
  {
    ShowsLatestRewrite(steps, d);
    QueriesAgree(SeenBy(steps, RewriteRetention(d)).value, d);
  }

  // ---------------------------------------------------------------- the service

  class AggregationService {
    var movieEvents: seq<Event>
    var dailyDau: seq<DauRow>
    var dailyRetention: seq<RetentionRow>
    var retentionCohorts: seq<CohortRow>

    ghost function Contents(): Tables
      reads this
    {
      Tables(movieEvents, dailyDau, dailyRetention, retentionCohorts)
    }

    constructor (events: seq<Event>)
      ensures Contents() == Tables(events, [], [], [])
    {
      movieEvents, dailyDau, dailyRetention, retentionCohorts := events, [], [], [];
    }

    /** Afterwards the date shows the number of its users, once; no other date shows anything else than before. */
    method RewriteDailyDau(d: Date)
      modifies `dailyDau
      ensures DauRows(Contents(), d) == [DauRow(d, |ActiveUsers(movieEvents, d)|)]
      ensures forall other: Date :: other != d ==> DauRows(Contents(), other) == DauRows(old(Contents()), other)
      ensures Contents() == Do(old(Contents()), RewriteDau(d))
    {
      hide ActiveUsers, DailyRetention, RetentionCohorts, Without, Select;
      ghost var before := Contents();
      dailyDau := Without(dailyDau, DauDate(), d);
      dailyDau := dailyDau + [DauRow(d, DailyActiveUsers(movieEvents, d))];
      forall other: Date
        ensures DauRows(Contents(), other)
             == if other == d then [DauRow(d, |ActiveUsers(movieEvents, d)|)] else DauRows(before, other)
      {
        StepShows(before, RewriteDau(d), other);
      }
    }

    /** Afterwards the date shows which shares of its cohort watched one day and seven days later. */
    method RewriteDailyRetention(d: Date)
      modifies `dailyRetention
      ensures RetentionRows(Contents(), d) == [RetainedShares(movieEvents, d)]
      ensures forall other: Date :: other != d ==>
          RetentionRows(Contents(), other) == RetentionRows(old(Contents()), other)
      ensures Contents() == Do(old(Contents()), RewriteRetention(d))
    {
      hide DailyRetention, RetainedShares, DailyActiveUsers, RetentionCohorts, Without, Select;
      ghost var before := Contents();
      dailyRetention := Without(dailyRetention, RetentionDate(), d);
      dailyRetention := dailyRetention + [DailyRetention(movieEvents, d)];
      RetentionIsShares(movieEvents, d);
      forall other: Date
        ensures RetentionRows(Contents(), other)
             == if other == d then [RetainedShares(movieEvents, d)] else RetentionRows(before, other)
      {
        StepShows(before, RewriteRetention(d), other);
      }
    }

    /** Afterwards the date shows, for each lifecycle day, how many of its cohort watched then. */
    method RewriteRetentionCohorts(d: Date)
      modifies `retentionCohorts
      ensures (forall day: nat :: day < LIFECYCLE_DAYS ==>
                 && CohortUserCount(CohortRows(Contents(), d), day) == |Retained(movieEvents, d, day)|
                 && CohortRate(CohortRows(Contents(), d), day)
                      == Share(|Retained(movieEvents, d, day)|, |Cohort(movieEvents, d)|))
      ensures InOrder(CohortRows(Contents(), d), d, LIFECYCLE_DAYS)
      ensures forall other: Date :: other != d ==> CohortRows(Contents(), other) == CohortRows(old(Contents()), other)
      ensures Contents() == Do(old(Contents()), RewriteCohorts(d))
    {
      hide DailyRetention, DailyActiveUsers, RetentionCohorts, CohortRate, CohortUserCount, Retained, Share,
          Without, Select;
      ghost var before := Contents();
      retentionCohorts := Without(retentionCohorts, CohortDate(), d);
      retentionCohorts := retentionCohorts + RetentionCohorts(movieEvents, d);
      forall other: Date
        ensures CohortRows(Contents(), other) == if other == d then RetentionCohorts(movieEvents, d)
            else CohortRows(before, other)
      {
        StepShows(before, RewriteCohorts(d), other);
      }
      forall day: nat | day < LIFECYCLE_DAYS
        ensures CohortUserCount(RetentionCohorts(movieEvents, d), day) == |Retained(movieEvents, d, day)|
        ensures CohortRate(RetentionCohorts(movieEvents, d), day)
             == Share(|Retained(movieEvents, d, day)|, |Cohort(movieEvents, d)|)
      {
        CohortTableSays(movieEvents, d, day);
      }
      CohortsInOrder(movieEvents, d);
    }

    /** One aggregation: the date's figures are those of the current events, whatever was stored before. */
    method AggregateForDate(d: Date)
      modifies this
      ensures movieEvents == old(movieEvents)
      ensures DauRows(Contents(), d) == [DauRow(d, |ActiveUsers(movieEvents, d)|)]
      ensures RetentionRows(Contents(), d) == [RetainedShares(movieEvents, d)]
      ensures CohortRows(Contents(), d) == RetentionCohorts(movieEvents, d)
      ensures forall other: Date :: other != d ==> DauRows(Contents(), other) == DauRows(old(Contents()), other)
      ensures forall other: Date :: other != d ==>
          RetentionRows(Contents(), other) == RetentionRows(old(Contents()), other)
      ensures forall other: Date :: other != d ==> CohortRows(Contents(), other) == CohortRows(old(Contents()), other)
    {
      hide Do, Select, RetainedShares, ActiveUsers, RetentionCohorts, DailyRetention, DailyActiveUsers, InOrder;
      hide CohortRate, CohortUserCount, Retained, Share;
      ghost var before := Contents();
      RewriteDailyDau(d);
      ghost var counted := Contents();
      assert forall other: Date :: RetentionRows(counted, other) == RetentionRows(before, other);
      RewriteDailyRetention(d);
      ghost var averaged := Contents();
      RewriteRetentionCohorts(d);
      StepShows(averaged, RewriteCohorts(d), d);
    }
  }
}
