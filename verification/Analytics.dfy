/** Daily analytics of a project: thirty buckets by UTC day, filled from counted events. */
module Analytics {

  datatype Kind = Download | View

  /** Events of one kind on one day; days are counted from 1 January 1970, UTC. */
  datatype Row = Row(kind: Kind, day: int, events: nat)

  datatype Bucket = Bucket(day: int, downloads: nat, views: nat)

  const WINDOW := 30

  function Counted(b: Bucket, kind: Kind): nat {
    if kind.Download? then b.downloads else b.views
  }

  function WithCounted(b: Bucket, row: Row): Bucket {
    match row.kind
    case Download => b.(downloads := b.downloads + row.events)
    case View => b.(views := b.views + row.events)
  }

  // ---------- sums ----------

  function SumEvents(rows: seq<Row>, kind: Kind): nat {
    if rows == [] then 0
    else SumEvents(rows[..|rows| - 1], kind) + (if rows[|rows| - 1].kind == kind then rows[|rows| - 1].events else 0)
  }

  /** The events of one kind on one day. */
  function SumOn(rows: seq<Row>, kind: Kind, day: int): nat {
    if rows == [] then 0
    else
      var row := rows[|rows| - 1];
      SumOn(rows[..|rows| - 1], kind, day) + (if row.kind == kind && row.day == day then row.events else 0)
  }

  /** The events of one kind on days that have no bucket. */
  function SumOutside(rows: seq<Row>, kind: Kind, days: seq<int>): nat {
    if rows == [] then 0
    else
      var row := rows[|rows| - 1];
      SumOutside(rows[..|rows| - 1], kind, days) + (if row.kind == kind && row.day !in days then row.events else 0)
  }

  function SumBuckets(buckets: seq<Bucket>, kind: Kind): nat {
    if buckets == [] then 0
    else SumBuckets(buckets[..|buckets| - 1], kind) + Counted(buckets[|buckets| - 1], kind)
  }

  // ---------- the days ----------

  /** A map keeps a key where it was first put. */
  function Put(days: seq<int>, day: int): seq<int> {
    if day in days then days else days + [day]
  }

  /** The keys after as many steps of the loop; step `i` reads the clock and goes back 29 - `i` days. */
  function Keys(readings: seq<int>): (days: seq<int>)
    ensures forall i, j :: 0 <= i < j < |days| ==> days[i] != days[j]
    ensures |days| <= |readings|
  {
    if readings == [] then []
    else Put(Keys(readings[..|readings| - 1]), readings[|readings| - 1] - (WINDOW - |readings|))
  }

  function From(days: seq<int>, since: int): (r: seq<int>)
    ensures forall d :: d in r <==> d in days && d >= since
    ensures |r| <= |days|
  {
    if days == [] then []
    else From(days[..|days| - 1], since) + (if days[|days| - 1] >= since then [days[|days| - 1]] else [])
  }

  function BucketsOf(days: seq<int>, rows: seq<Row>): (r: seq<Bucket>)
    ensures |r| == |days|
    ensures forall i :: 0 <= i < |r| ==>
      r[i] == Bucket(days[i], SumOn(rows, Download, days[i]), SumOn(rows, View, days[i]))
  {
    seq(|days|, i requires 0 <= i < |days| =>
        Bucket(days[i], SumOn(rows, Download, days[i]), SumOn(rows, View, days[i])))
  }

  // ---------- the loops ----------

  /** A map of buckets, with its keys in the order they were first put. */
  datatype Buckets = Buckets(order: seq<int>, of: map<int, Bucket>)

  ghost predicate Filled(b: Buckets, rows: seq<Row>) {
    (forall d :: d in b.of <==> d in b.order)
    && forall d :: d in b.of ==> b.of[d] == Bucket(d, SumOn(rows, Download, d), SumOn(rows, View, d))
  }

  /** Every step reads the clock anew. */
  method EmptyBuckets(readings: seq<int>) returns (b: Buckets)
    requires |readings| == WINDOW
    ensures b.order == Keys(readings) && Filled(b, [])
  {
    b := Buckets([], map[]);
    for i := 0 to WINDOW
      invariant b.order == Keys(readings[..i]) && Filled(b, [])
    {
      var date := readings[i] - (WINDOW - 1 - i);
      assert readings[..i + 1][..i] == readings[..i];
      b := Buckets(Put(b.order, date), b.of[date := Bucket(date, 0, 0)]);
    }
    assert readings[..WINDOW] == readings;
  }

  /** Rows of days without a bucket are passed over. */
  method CountRows(empty: Buckets, rows: seq<Row>) returns (b: Buckets)
    requires Filled(empty, [])
    ensures b.order == empty.order && Filled(b, rows)
  {
    b := empty;
    for i := 0 to |rows|
      invariant b.order == empty.order && Filled(b, rows[..i])
    {
      var row := rows[i];
      assert rows[..i + 1][..i] == rows[..i];
      if row.day in b.of {
        b := b.(of := b.of[row.day := WithCounted(b.of[row.day], row)]);
      }
    }
    assert rows[..|rows|] == rows;
  }

  lemma BucketsNext(order: seq<int>, i: nat, since: int, rows: seq<Row>)
    requires i < |order|
    ensures var day := order[i];
      BucketsOf(From(order[..i + 1], since), rows) == BucketsOf(From(order[..i], since), rows)
        + (if day >= since then [Bucket(day, SumOn(rows, Download, day), SumOn(rows, View, day))] else [])
  {
    assert order[..i + 1][..i] == order[..i];
  }

  method BuildDailyBuckets(readings: seq<int>, rows: seq<Row>, since: int) returns (days: seq<Bucket>)
    requires |readings| == WINDOW
    ensures days == BucketsOf(From(Keys(readings), since), rows)
  {
    var b := EmptyBuckets(readings);
    b := CountRows(b, rows);
    days := [];
    for i := 0 to |b.order|
      invariant days == BucketsOf(From(b.order[..i], since), rows)
    {
      BucketsNext(b.order, i, since, rows);
      if b.order[i] >= since {
        days := days + [b.of[b.order[i]]];
      }
    }
    assert b.order[..|b.order|] == b.order;
  }

  datatype Summary = Summary(days: seq<Bucket>, downloadsLast30Days: nat, viewsLast30Days: nat)

  /** The totals of the window count the rows as they came; the days count those that have a bucket. */
  method ProjectAnalytics(today: int, readings: seq<int>, rows: seq<Row>) returns (r: Summary)
    requires |readings| == WINDOW
    ensures r.days == BucketsOf(From(Keys(readings), today - (WINDOW - 1)), rows)
    ensures r.downloadsLast30Days
         == SumBuckets(r.days, Download) + SumOutside(rows, Download, From(Keys(readings), today - (WINDOW - 1)))
    ensures r.viewsLast30Days
      == SumBuckets(r.days, View) + SumOutside(rows, View, From(Keys(readings), today - (WINDOW - 1)))
  {
    var since := today - (WINDOW - 1);
    var days := BuildDailyBuckets(readings, rows, since);
    r := Summary(days, SumEvents(rows, Download), SumEvents(rows, View));
    FromDistinct(Keys(readings), since);
    NothingLost(From(Keys(readings), since), rows, Download);
    NothingLost(From(Keys(readings), since), rows, View);
  }

  // ---------- what the buckets add up to ----------

  lemma {:induction false} FromDistinct(days: seq<int>, since: int)
    requires forall i, j :: 0 <= i < j < |days| ==> days[i] != days[j]
    ensures var r := From(days, since); forall i, j :: 0 <= i < j < |r| ==> r[i] != r[j]
  {
    if days != [] {
      var n := |days| - 1;
      FromDistinct(days[..n], since);
      assert days[n] !in days[..n];
      assert days[n] !in From(days[..n], since);
    }
  }

  lemma {:induction false} BucketsSplit(days: seq<int>, rows: seq<Row>, kind: Kind)
    requires days != []
    ensures SumBuckets(BucketsOf(days, rows), kind)
         == SumBuckets(BucketsOf(days[..|days| - 1], rows), kind) + SumOn(rows, kind, days[|days| - 1])
  {
    assert BucketsOf(days, rows)[..|days| - 1] == BucketsOf(days[..|days| - 1], rows);
  }

  /** One more row adds its events to the one bucket of its day, if there is one. */
  lemma {:induction false} OneMoreRow(days: seq<int>, rows: seq<Row>, kind: Kind)
    requires rows != [] && forall i, j :: 0 <= i < j < |days| ==> days[i] != days[j]
    ensures var row := rows[|rows| - 1];
      SumBuckets(BucketsOf(days, rows), kind) == SumBuckets(BucketsOf(days, rows[..|rows| - 1]), kind)
        + (if row.kind == kind && row.day in days then row.events else 0)
    decreases |days|
  {
    if days != [] {
      var n := |days| - 1;
      OneMoreRow(days[..n], rows, kind);
      BucketsSplit(days, rows, kind);
      BucketsSplit(days, rows[..|rows| - 1], kind);
      assert days[n] !in days[..n];
      assert days == days[..n] + [days[n]];
    }
  }

  lemma {:induction false} NoRows(days: seq<int>, kind: Kind)
    ensures SumBuckets(BucketsOf(days, []), kind) == 0
  {
    if days != [] {
      NoRows(days[..|days| - 1], kind);
      BucketsSplit(days, [], kind);
    }
  }

  /** Every event is in exactly one bucket, or on a day that has none. */
  lemma {:induction false} NothingLost(days: seq<int>, rows: seq<Row>, kind: Kind)
    requires forall i, j :: 0 <= i < j < |days| ==> days[i] != days[j]
    ensures SumEvents(rows, kind) == SumBuckets(BucketsOf(days, rows), kind) + SumOutside(rows, kind, days)
  {
    if rows == [] {
      NoRows(days, kind);
    } else {
      NothingLost(days, rows[..|rows| - 1], kind);
      OneMoreRow(days, rows, kind);
    }
  }

  // ---------- which days they are ----------

  predicate Consecutive(days: seq<int>, today: int) {
    |days| == WINDOW && forall i :: 0 <= i < WINDOW ==> days[i] == today - (WINDOW - 1) + i
  }

  predicate OneDay(readings: seq<int>, today: int) {
    forall i :: 0 <= i < |readings| ==> readings[i] == today
  }

  lemma {:induction false} KeysOfOneDay(readings: seq<int>, today: int)
    requires OneDay(readings, today) && |readings| <= WINDOW
    ensures |Keys(readings)| == |readings|
    ensures forall i :: 0 <= i < |readings| ==> Keys(readings)[i] == today - (WINDOW - 1) + i
  {
    if readings != [] {
      KeysOfOneDay(readings[..|readings| - 1], today);
    }
  }

  lemma {:induction false} FromAll(days: seq<int>, since: int)
    requires forall i :: 0 <= i < |days| ==> days[i] >= since
    ensures From(days, since) == days
  {
    if days != [] {
      FromAll(days[..|days| - 1], since);
      assert days == days[..|days| - 1] + [days[|days| - 1]];
    }
  }

  /** When the clock only moves forward no key is put twice. */
  lemma {:induction false} KeysForward(readings: seq<int>)
    requires |readings| <= WINDOW && forall i, j :: 0 <= i <= j < |readings| ==> readings[i] <= readings[j]
    ensures |Keys(readings)| == |readings|
    ensures forall i :: 0 <= i < |readings| ==> Keys(readings)[i] == readings[i] - (WINDOW - 1 - i)
  {
    if readings != [] {
      KeysForward(readings[..|readings| - 1]);
    }
  }

  /**
   With a clock that only moves forward, and rows asked for from the day `today` was 29 days before, the
   buckets are thirty consecutive days ending with the last reading exactly when no midnight falls between
   the readings of the loop; otherwise a day is missing among them.
   */
  lemma ThirtyDays(readings: seq<int>, today: int)
    requires |readings| == WINDOW && today <= readings[0]
    requires forall i, j :: 0 <= i <= j < |readings| ==> readings[i] <= readings[j]
    ensures Consecutive(From(Keys(readings), today - (WINDOW - 1)), readings[WINDOW - 1])
      <==> OneDay(readings, readings[0])
  {
    var last := readings[WINDOW - 1];
    KeysForward(readings);
    forall i | 0 <= i < WINDOW ensures Keys(readings)[i] >= today - (WINDOW - 1) {
      assert readings[0] <= readings[i];
    }
    FromAll(Keys(readings), today - (WINDOW - 1));
    if Consecutive(Keys(readings), last) {
      assert forall i :: 0 <= i < WINDOW ==> Keys(readings)[i] == last - (WINDOW - 1) + i;
      assert OneDay(readings, last);
    }
    if OneDay(readings, readings[0]) {
      KeysOfOneDay(readings, readings[0]);
    }
  }

  /** With all readings on one day, only rows of later days are left out of the buckets. */
  lemma {:induction false} OutsideIsLater(days: seq<int>, today: int, rows: seq<Row>, kind: Kind)
    requires Consecutive(days, today) && forall i :: 0 <= i < |rows| ==> rows[i].day >= today - (WINDOW - 1)
    ensures SumOutside(rows, kind, days) == SumLater(rows, kind, today)
  {
    if rows != [] {
      var n := |rows| - 1;
      OutsideIsLater(days, today, rows[..n], kind);
      var day := rows[n].day;
      if day <= today {
        assert days[day - (today - (WINDOW - 1))] == day;
      }
    }
  }

  function SumLater(rows: seq<Row>, kind: Kind, today: int): nat {
    if rows == [] then 0
    else
      var row := rows[|rows| - 1];
      SumLater(rows[..|rows| - 1], kind, today) + (if row.kind == kind && row.day > today then row.events else 0)
  }

  /**
   With every reading of the clock on one day: thirty consecutive days ending today, and the total of the
   window is the total of the buckets exactly when no event is later than today.
   */
  lemma WindowTotals(today: int, readings: seq<int>, rows: seq<Row>, kind: Kind)
    requires |readings| == WINDOW && OneDay(readings, today)
    requires forall i :: 0 <= i < |rows| ==> rows[i].day >= today - (WINDOW - 1)
    ensures var days := From(Keys(readings), today - (WINDOW - 1));
      Consecutive(days, today)
      && (SumEvents(rows, kind) == SumBuckets(BucketsOf(days, rows), kind) <==> SumLater(rows, kind, today) == 0)
  {
    var days := From(Keys(readings), today - (WINDOW - 1));
    ThirtyDays(readings, today);
    FromDistinct(Keys(readings), today - (WINDOW - 1));
    NothingLost(days, rows, kind);
    OutsideIsLater(days, today, rows, kind);
  }
}
