/**
 * The TV board's per-table projection: for each table, whether it is in
 * play, how long it has been running, the running charge to the minute and
 * a warning tier; the filters, the counts shown in the header, and the
 * table-id-to-session map the board refreshes.
 */
module Board {
  import opened Wrappers
  import opened Clock

  /** Used when a table has no usable hourly price. */
  const DEFAULT_HOURLY: real := 50000.0
  const MS_PER_MINUTE: int := 60000
  /** Two and three hours, in milliseconds: the warning thresholds. */
  const WARN_MS: int := 7200000
  const DANGER_MS: int := 10800000

  /** A table as listed by the server; `pricePerHour` is absent when null. */
  datatype TableRecord = TableRecord(id: Option<int>, name: Option<string>, pricePerHour: Option<Numeric>)

  /** A table's session as the server returns it; a missing or empty `endTime` means still open. */
  datatype Session = Session(startTime: Option<string>, endTime: Option<string>)

  datatype WarnLevel = NoWarn | Warn | Danger

  /** One card of the board. `start` is the session start as epoch milliseconds. */
  datatype Row = Row(
    table: TableRecord,
    session: Option<Session>,
    start: Option<int>,
    playing: bool,
    elapsedMs: int,
    hourly: real,
    money: int,
    warn: WarnLevel)

  /** `getHourlyRate`: the table's price when present and finite, otherwise 50000. */
  function HourlyRate(t: TableRecord): (rate: real)
    ensures t.pricePerHour.Some? && t.pricePerHour.value.Finite? ==> rate == t.pricePerHour.value.value
    ensures t.pricePerHour.None? || t.pricePerHour.value.NaN? ==> rate == DEFAULT_HOURLY
  {
    match t.pricePerHour
    case Some(Finite(v)) => v
    case _ => DEFAULT_HOURLY
  }

  /** `Math.round(x)`: the nearest integer, halves rounded up. */
  function RoundHalfUp(x: real): (n: int)
    ensures n as real - 0.5 <= x < n as real + 0.5
  {
    (x + 0.5).Floor
  }

  /** Elapsed time since `start`, clamped at zero when the clock is behind. */
  function Elapsed(start: int, now: int): (e: int)
    ensures e >= 0 && (now >= start ==> e == now - start) && (now < start ==> e == 0)
  {
    if now - start < 0 then 0 else now - start
  }

  /** The running charge: whole minutes times the hourly rate over 60, rounded. */
  function MoneyFor(elapsedMs: int, hourly: real): (money: int)
    requires elapsedMs >= 0
    ensures money as real - 0.5 <= (elapsedMs / MS_PER_MINUTE) as real * hourly / 60.0 < money as real + 0.5
  {
    RoundHalfUp((elapsedMs / MS_PER_MINUTE) as real * hourly / 60.0)
  }

  /** The warning tier: three hours or more is danger, two hours or more is a warning. */
  function WarnFor(elapsedMs: int): (w: WarnLevel)
    ensures w == Danger <==> elapsedMs >= DANGER_MS
    ensures w == Warn <==> WARN_MS <= elapsedMs < DANGER_MS
    ensures w == NoWarn <==> elapsedMs < WARN_MS
  {
    if elapsedMs >= DANGER_MS then Danger else if elapsedMs >= WARN_MS then Warn else NoWarn
  }

  /** The table's entry in the session map; a table without id, or missing from the map, has none. */
  function SessionOf(t: TableRecord, sessions: map<int, Option<Session>>): Option<Session>
  {
    if t.id.Some? && t.id.value in sessions then sessions[t.id.value] else None
  }

  /** `!session.endTime`: the session has not been closed. */
  predicate IsOpen(s: Session)
  {
    s.endTime.None? || s.endTime.value == ""
  }

  /**
   * The `derived` projection of one table at time `now`. `localEpoch` is the
   * browser's conversion of local calendar fields to epoch milliseconds.
   */
  function Project(t: TableRecord, sessions: map<int, Option<Session>>, now: int, localEpoch: LocalDateTime -> int): (r: Row)
    ensures r.table == t && r.session == SessionOf(t, sessions) && r.hourly == HourlyRate(t)
    ensures r.playing <==>
      && SessionOf(t, sessions).Some?
      && ParseLocalDateTime(SessionOf(t, sessions).value.startTime).Some?
      && IsOpen(SessionOf(t, sessions).value)
    ensures r.elapsedMs >= 0
    ensures r.playing ==> r.start.Some? && r.elapsedMs == Elapsed(r.start.value, now)
    ensures r.playing ==> r.money == MoneyFor(r.elapsedMs, r.hourly)
    ensures !r.playing ==> r.elapsedMs == 0 && r.money == 0 && r.warn == NoWarn
    ensures r.warn == WarnFor(r.elapsedMs)
  {
    var session := SessionOf(t, sessions);
    var fields := if session.Some? then ParseLocalDateTime(session.value.startTime) else None;
    var start := if fields.Some? then Some(localEpoch(fields.value)) else None;
    var playing := session.Some? && start.Some? && IsOpen(session.value);
    var elapsed := if playing then Elapsed(start.value, now) else 0;
    var hourly := HourlyRate(t);
    Row(t, session, start, playing, elapsed, hourly,
        if playing then MoneyFor(elapsed, hourly) else 0,
        WarnFor(elapsed))
  }

  /** With a non-negative rate, the charge never goes down as the clock moves on. */
  lemma MoneyNonDecreasing(start: int, now1: int, now2: int, hourly: real)
    requires now1 <= now2 && hourly >= 0.0
    ensures MoneyFor(Elapsed(start, now1), hourly) <= MoneyFor(Elapsed(start, now2), hourly)
  {
    var m1, m2 := Elapsed(start, now1) / MS_PER_MINUTE, Elapsed(start, now2) / MS_PER_MINUTE;
    assert m1 <= m2;
    MultiplyMonotone(m1 as real, m2 as real, hourly);
    var x1, x2 := m1 as real * hourly / 60.0, m2 as real * hourly / 60.0;
    assert x1 <= x2;
    assert (x1 + 0.5).Floor <= (x2 + 0.5).Floor;
  }

  lemma MultiplyMonotone(a: real, b: real, c: real)
    requires a <= b && c >= 0.0
    ensures a * c <= b * c
  {
  }

  /** The charge stays what it was at the start of the current minute. */
  lemma MoneySteadyWithinMinute(start: int, now: int, hourly: real)
    requires now >= start
    ensures var minuteStart := start + MS_PER_MINUTE * ((now - start) / MS_PER_MINUTE);
      start <= minuteStart <= now < minuteStart + MS_PER_MINUTE &&
      MoneyFor(Elapsed(start, minuteStart), hourly) == MoneyFor(Elapsed(start, now), hourly)
  {
    var k := (now - start) / MS_PER_MINUTE;
    assert (MS_PER_MINUTE * k) / MS_PER_MINUTE == k;
  }

  /** The charge of a projected table never goes down between two ticks of the clock. */
  lemma ProjectMoneyNonDecreasing(t: TableRecord, sessions: map<int, Option<Session>>, now1: int, now2: int, localEpoch: LocalDateTime -> int)
    requires now1 <= now2 && HourlyRate(t) >= 0.0
    ensures Project(t, sessions, now1, localEpoch).money <= Project(t, sessions, now2, localEpoch).money
  {
    var r1, r2 := Project(t, sessions, now1, localEpoch), Project(t, sessions, now2, localEpoch);
    if r1.playing {
      assert r1.start == r2.start;
      MoneyNonDecreasing(r1.start.value, now1, now2, r1.hourly);
    }
  }

  /** Two and a half hours at the default rate: 150 minutes, 125000 to pay so far, and a warning. */
  lemma WorkedProjection(t: TableRecord, s: Session, now: int, localEpoch: LocalDateTime -> int)
    requires t.id.Some? && t.pricePerHour.None?
    requires IsOpen(s) && ParseLocalDateTime(s.startTime).Some?
    requires localEpoch(ParseLocalDateTime(s.startTime).value) == now - 9000000
    ensures var r := Project(t, map[t.id.value := Some(s)], now, localEpoch);
      r.playing && r.elapsedMs == 9000000 && r.elapsedMs / MS_PER_MINUTE == 150 && r.money == 125000 && r.warn == Warn
  {
    var r := Project(t, map[t.id.value := Some(s)], now, localEpoch);
    assert r.elapsedMs == 9000000;
    assert (9000000 / MS_PER_MINUTE) as real * DEFAULT_HOURLY / 60.0 == 125000.0;
  }

  // ---------------------------------------------------------------------
  // Filters and counts
  // ---------------------------------------------------------------------

  datatype Filter = All | PlayingOnly | EmptyOnly

  /** The rows whose `playing` flag is `playing`, in their order. */
  function Keep(rows: seq<Row>, playing: bool): (r: seq<Row>)
    ensures |r| <= |rows|
    ensures forall x :: x in r <==> x in rows && x.playing == playing
  {
    if rows == [] then []
    else Keep(rows[..|rows| - 1], playing) + (if rows[|rows| - 1].playing == playing then [rows[|rows| - 1]] else [])
  }

  lemma {:induction false} KeepAppend(a: seq<Row>, b: seq<Row>, playing: bool)
    ensures Keep(a + b, playing) == Keep(a, playing) + Keep(b, playing)
  {
    if b == [] {
      assert a + b == a;
    } else {
      assert (a + b)[..|a + b| - 1] == a + b[..|b| - 1];
      KeepAppend(a, b[..|b| - 1], playing);
    }
  }

  /** Every row is kept by exactly one of the two flags. */
  lemma {:induction false} KeepSplits(rows: seq<Row>)
    ensures |Keep(rows, true)| + |Keep(rows, false)| == |rows|
  {
    if rows != [] {
      KeepSplits(rows[..|rows| - 1]);
    }
  }

  /** The board's filter: every row, the playing rows only, or the empty tables only. */
  function ApplyFilter(rows: seq<Row>, f: Filter): (r: seq<Row>)
    ensures f == All ==> r == rows
    ensures f == PlayingOnly ==> forall x :: x in r <==> x in rows && x.playing
    ensures f == EmptyOnly ==> forall x :: x in r <==> x in rows && !x.playing
  {
    match f
    case All => rows
    case PlayingOnly => Keep(rows, true)
    case EmptyOnly => Keep(rows, false)
  }

  /** `countPlaying`: the playing rows of the shown list; none exactly when no shown row is in play. */
  function CountPlaying(view: seq<Row>): (n: nat)
    ensures n == |Keep(view, true)| <= |view|
    ensures n == 0 <==> forall x :: x in view ==> !x.playing
  {
    var kept := Keep(view, true);
    assert kept != [] ==> kept[0] in kept;
    |kept|
  }

  /** `countEmpty`: the shown rows minus the playing ones, which is the number of rows not in play. */
  function CountEmpty(view: seq<Row>): (n: int)
    ensures n == |Keep(view, false)|
    ensures n == 0 <==> forall x :: x in view ==> x.playing
  {
    KeepSplits(view);
    var kept := Keep(view, false);
    assert kept != [] ==> kept[0] in kept;
    |view| - CountPlaying(view)
  }

  /** The two header counts add up to the shown rows, and the empty count is the number of rows not in play. */
  lemma CountsAddUp(view: seq<Row>)
    ensures CountPlaying(view) + CountEmpty(view) == |view|
    ensures CountEmpty(view) == |Keep(view, false)| >= 0
  {
    KeepSplits(view);
  }

  /** The counts describe the filtered list: under "playing" nothing is counted empty, under "empty" nothing is counted playing. */
  lemma CountsUnderFilter(rows: seq<Row>)
    ensures CountEmpty(ApplyFilter(rows, PlayingOnly)) == 0
    ensures CountPlaying(ApplyFilter(rows, EmptyOnly)) == 0
  {
    KeepOfKept(rows, true);
    KeepOfKept(rows, false);
  }

  lemma {:induction false} KeepOfKept(rows: seq<Row>, playing: bool)
    ensures Keep(Keep(rows, playing), playing) == Keep(rows, playing)
    ensures Keep(Keep(rows, playing), !playing) == []
  {
    if rows != [] {
      var init, last := rows[..|rows| - 1], rows[|rows| - 1];
      KeepOfKept(init, playing);
      var tail := if last.playing == playing then [last] else [];
      KeepAppend(Keep(init, playing), tail, playing);
      KeepAppend(Keep(init, playing), tail, !playing);
      assert Keep(tail, playing) == tail by {
        if tail != [] {
          assert tail[..0] == [];
        }
      }
      assert Keep(tail, !playing) == [] by {
        if tail != [] {
          assert tail[..0] == [];
        }
      }
    }
  }

  // ---------------------------------------------------------------------
  // The session map
  // ---------------------------------------------------------------------

  /** The map `fetchData` builds from its (id, session) pairs: pairs without an id are skipped, a later pair wins. */
  function SessionMap(pairs: seq<(Option<int>, Option<Session>)>): map<int, Option<Session>>
  {
    if pairs == [] then map[]
    else
      var m := SessionMap(pairs[..|pairs| - 1]);
      var last := pairs[|pairs| - 1];
      if last.0.Some? then m[last.0.value := last.1] else m
  }

  /** The `for ... of pairs` loop of `fetchData`. */
  method BuildSessionMap(pairs: seq<(Option<int>, Option<Session>)>) returns (m: map<int, Option<Session>>)
    ensures m == SessionMap(pairs)
  {
    m := map[];
    for i := 0 to |pairs|
      invariant m == SessionMap(pairs[..i])
    {
      assert pairs[..i + 1][..i] == pairs[..i];
      var (id, sess) := pairs[i];
      if id.Some? {
        m := m[id.value := sess];
      }
    }
    assert pairs[..|pairs|] == pairs;
  }

  /** A table id is in the map exactly when some pair carries it, and it maps to the last such pair's session. */
  lemma {:induction false} SessionMapContents(pairs: seq<(Option<int>, Option<Session>)>, k: int)
    ensures k in SessionMap(pairs) <==> exists i :: 0 <= i < |pairs| && pairs[i].0 == Some(k)
    ensures k in SessionMap(pairs) ==>
      exists i :: 0 <= i < |pairs| && pairs[i].0 == Some(k) && SessionMap(pairs)[k] == pairs[i].1 &&
        forall j :: i < j < |pairs| ==> pairs[j].0 != Some(k)
  {
    if pairs != [] {
      var init := pairs[..|pairs| - 1];
      var n := |pairs| - 1;
      SessionMapContents(init, k);
      if pairs[n].0 == Some(k) {
        assert pairs[n].0 == Some(k) && SessionMap(pairs)[k] == pairs[n].1;
      } else {
        if k in SessionMap(init) {
          var i :| 0 <= i < |init| && init[i].0 == Some(k) && SessionMap(init)[k] == init[i].1 &&
            forall j :: i < j < |init| ==> init[j].0 != Some(k);
          assert pairs[i] == init[i];
          assert forall j :: i < j < |pairs| ==> pairs[j].0 != Some(k);
        }
        if exists i :: 0 <= i < |pairs| && pairs[i].0 == Some(k) {
          var i :| 0 <= i < |pairs| && pairs[i].0 == Some(k);
          assert init[i] == pairs[i];
        }
      }
    }
  }
}
