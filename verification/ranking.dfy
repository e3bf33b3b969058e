/**
 * The TV board's orderings: the three sorts the board offers and the
 * money-descending order of the top-three panel, the stable sort the
 * browser applies with them, the derived list the board shows and the
 * top-three panel itself.
 */
module Ranking {
  import opened Wrappers
  import opened Clock
  import opened Board

  /** The board's sorts ("id", "playing_first", "longest") and the top-three panel's order. */
  datatype Ordering = ById | PlayingFirst | Longest | MoneyDesc

  /** `Number(a.table?.id || 0)`: the table id, 0 when absent. */
  function SortId(r: Row): int
  {
    if r.table.id.Some? then r.table.id.value else 0
  }

  /**
   * The rank of a row as a pair compared lexicographically. Under
   * "playing_first" the rows in play come first, longest-running first, and
   * the empty tables follow by id.
   */
  function Key(o: Ordering, r: Row): (int, int)
  {
    match o
    case ById => (SortId(r), 0)
    case PlayingFirst => if r.playing then (0, -r.elapsedMs) else (1, SortId(r))
    case Longest => (-r.elapsedMs, 0)
    case MoneyDesc => (-r.money, 0)
  }

  predicate KeyLess(k1: (int, int), k2: (int, int))
  {
    k1.0 < k2.0 || (k1.0 == k2.0 && k1.1 < k2.1)
  }

  /** `a` goes strictly before `b`. */
  predicate Precedes(o: Ordering, a: Row, b: Row)
  {
    KeyLess(Key(o, a), Key(o, b))
  }

  /**
   * The comparators passed to `sort`: negative when `a` goes first, positive
   * when `b` does, zero when the two rank equal.
   */
  function Compare(o: Ordering, a: Row, b: Row): (c: int)
    ensures c < 0 <==> Precedes(o, a, b)
    ensures c > 0 <==> Precedes(o, b, a)
    ensures c == 0 <==> Key(o, a) == Key(o, b)
  {
    match o
    case ById => SortId(a) - SortId(b)
    case PlayingFirst =>
      if a.playing != b.playing then (if a.playing then -1 else 1)
      else if a.playing && b.playing then b.elapsedMs - a.elapsedMs
      else SortId(a) - SortId(b)
    case Longest => b.elapsedMs - a.elapsedMs
    case MoneyDesc => b.money - a.money
  }

  /** No row is followed by one that ranks strictly before it. */
  predicate SortedBy(o: Ordering, s: seq<Row>)
  {
    forall i, j :: 0 <= i < j < |s| ==> !Precedes(o, s[j], s[i])
  }

  /** Inserts `x` after every row that does not rank after it. */
  function Insert(o: Ordering, t: seq<Row>, x: Row): seq<Row>
  {
    if t == [] then [x]
    else if Precedes(o, x, t[|t| - 1]) then Insert(o, t[..|t| - 1], x) + [t[|t| - 1]]
    else t + [x]
  }

  /** The stable sort of `s` (rows that rank equal keep their order). */
  function SortRows(o: Ordering, s: seq<Row>): seq<Row>
  {
    if s == [] then [] else Insert(o, SortRows(o, s[..|s| - 1]), s[|s| - 1])
  }

  lemma {:induction false} InsertPermutes(o: Ordering, t: seq<Row>, x: Row)
    ensures multiset(Insert(o, t, x)) == multiset(t) + multiset{x}
  {
    if t != [] && Precedes(o, x, t[|t| - 1]) {
      InsertPermutes(o, t[..|t| - 1], x);
      assert t == t[..|t| - 1] + [t[|t| - 1]];
    }
  }

  lemma {:induction false} InsertKeepsSorted(o: Ordering, t: seq<Row>, x: Row)
    requires SortedBy(o, t)
    ensures SortedBy(o, Insert(o, t, x))
  {
    if t == [] {
    } else if Precedes(o, x, t[|t| - 1]) {
      var init, last := t[..|t| - 1], t[|t| - 1];
      SortedSplit(o, t);
      InsertKeepsSorted(o, init, x);
      InsertPermutes(o, init, x);
      var r := Insert(o, init, x);
      InsertedStaysBefore(o, r, init, x, last);
      SortedAppend(o, r, last);
    } else {
      SortedSplit(o, t);
      SortedAppend(o, t, x);
    }
  }

  /** In a sorted sequence, the rows before the last are sorted and none ranks after the last. */
  lemma SortedSplit(o: Ordering, t: seq<Row>)
    requires SortedBy(o, t) && t != []
    ensures SortedBy(o, t[..|t| - 1])
    ensures forall y :: y in t ==> !Precedes(o, t[|t| - 1], y)
  {
    forall y | y in t
      ensures !Precedes(o, t[|t| - 1], y)
    {
      var i :| 0 <= i < |t| && t[i] == y;
    }
  }

  /** The rows of `r`, which are those of `init` and `x`, all rank no later than a row ranking after `x` and after none of `init`. */
  lemma InsertedStaysBefore(o: Ordering, r: seq<Row>, init: seq<Row>, x: Row, last: Row)
    requires multiset(r) == multiset(init) + multiset{x}
    requires forall y :: y in init ==> !Precedes(o, last, y)
    requires Precedes(o, x, last)
    ensures forall y :: y in r ==> !Precedes(o, last, y)
  {
    forall y | y in r
      ensures !Precedes(o, last, y)
    {
      assert y in multiset(r);
    }
  }

  /** A row that ranks after none of a sorted sequence can go at its end. */
  lemma SortedAppend(o: Ordering, r: seq<Row>, z: Row)
    requires SortedBy(o, r)
    requires forall y :: y in r ==> !Precedes(o, z, y)
    ensures SortedBy(o, r + [z])
  {
    forall i, j | 0 <= i < j < |r + [z]|
      ensures !Precedes(o, (r + [z])[j], (r + [z])[i])
    {
      if j == |r| {
        assert (r + [z])[i] in r;
      }
    }
  }

  /** The sort's result is in order. */
  lemma {:induction false} SortRowsSorted(o: Ordering, s: seq<Row>)
    ensures SortedBy(o, SortRows(o, s))
  {
    if s != [] {
      SortRowsSorted(o, s[..|s| - 1]);
      InsertKeepsSorted(o, SortRows(o, s[..|s| - 1]), s[|s| - 1]);
    }
  }

  /** The sort's result holds the same rows, each as often. */
  lemma {:induction false} SortRowsPermutes(o: Ordering, s: seq<Row>)
    ensures multiset(SortRows(o, s)) == multiset(s)
  {
    if s != [] {
      SortRowsPermutes(o, s[..|s| - 1]);
      InsertPermutes(o, SortRows(o, s[..|s| - 1]), s[|s| - 1]);
      assert s == s[..|s| - 1] + [s[|s| - 1]];
    }
  }

  /** The rows of `s` whose rank is `k`, in order. */
  function WithKey(o: Ordering, s: seq<Row>, k: (int, int)): seq<Row>
  {
    if s == [] then []
    else WithKey(o, s[..|s| - 1], k) + (if Key(o, s[|s| - 1]) == k then [s[|s| - 1]] else [])
  }

  lemma {:induction false} WithKeyAppend(o: Ordering, a: seq<Row>, b: seq<Row>, k: (int, int))
    ensures WithKey(o, a + b, k) == WithKey(o, a, k) + WithKey(o, b, k)
  {
    if b == [] {
      assert a + b == a;
    } else {
      assert (a + b)[..|a + b| - 1] == a + b[..|b| - 1];
      WithKeyAppend(o, a, b[..|b| - 1], k);
    }
  }

  lemma WithKeySingle(o: Ordering, x: Row, k: (int, int))
    ensures WithKey(o, [x], k) == if Key(o, x) == k then [x] else []
  {
    assert [x][..0] == [];
  }

  lemma {:induction false} InsertStable(o: Ordering, t: seq<Row>, x: Row, k: (int, int))
    ensures WithKey(o, Insert(o, t, x), k) == WithKey(o, t, k) + (if Key(o, x) == k then [x] else [])
  {
    if t == [] {
      WithKeySingle(o, x, k);
    } else if Precedes(o, x, t[|t| - 1]) {
      var init, last := t[..|t| - 1], t[|t| - 1];
      assert t == init + [last];
      assert Insert(o, t, x) == Insert(o, init, x) + [last];
      InsertStable(o, init, x, k);
      StablePastLast(o, Insert(o, init, x), init, last, x, k);
    } else {
      assert Insert(o, t, x) == t + [x];
      WithKeyAppend(o, t, [x], k);
      WithKeySingle(o, x, k);
    }
  }

  /** Moving `x` before a row that ranks strictly after it keeps the order within every rank. */
  lemma StablePastLast(o: Ordering, r: seq<Row>, init: seq<Row>, last: Row, x: Row, k: (int, int))
    requires Precedes(o, x, last)
    requires WithKey(o, r, k) == WithKey(o, init, k) + (if Key(o, x) == k then [x] else [])
    ensures WithKey(o, r + [last], k) == WithKey(o, init + [last], k) + (if Key(o, x) == k then [x] else [])
  {
    var before, tail := WithKey(o, init, k), WithKey(o, [last], k);
    var moved := if Key(o, x) == k then [x] else [];
    WithKeyAppend(o, r, [last], k);
    WithKeyAppend(o, init, [last], k);
    WithKeySingle(o, last, k);
    PrecedesSeparatesKeys(o, x, last);
    SwapAroundEmpty(before, moved, tail);
  }

  lemma PrecedesSeparatesKeys(o: Ordering, a: Row, b: Row)
    requires Precedes(o, a, b)
    ensures Key(o, a) != Key(o, b)
  {
  }

  lemma SwapAroundEmpty(before: seq<Row>, moved: seq<Row>, tail: seq<Row>)
    requires moved == [] || tail == []
    ensures before + moved + tail == before + tail + moved
  {
    if moved == [] {
      assert before + moved == before && before + tail + moved == before + tail;
    } else {
      assert before + tail == before && before + moved + tail == before + moved;
    }
  }

  /** The sort is stable: the rows of each rank come out in the order they went in. */
  lemma {:induction false} SortRowsStable(o: Ordering, s: seq<Row>, k: (int, int))
    ensures WithKey(o, SortRows(o, s), k) == WithKey(o, s, k)
  {
    if s != [] {
      SortRowsStable(o, s[..|s| - 1], k);
      InsertStable(o, SortRows(o, s[..|s| - 1]), s[|s| - 1], k);
    }
  }

  lemma InsertShift(o: Ordering, t: seq<Row>, x: Row, j: nat)
    requires 0 < j <= |t| && Precedes(o, x, t[j - 1])
    ensures Insert(o, t[..j], x) == Insert(o, t[..j - 1], x) + [t[j - 1]]
  {
    assert t[..j][..j - 1] == t[..j - 1];
  }

  lemma InsertStop(o: Ordering, t: seq<Row>, x: Row, j: nat)
    requires j <= |t| && (j == 0 || !Precedes(o, x, t[j - 1]))
    ensures Insert(o, t[..j], x) == t[..j] + [x]
  {
  }

  lemma InsertMovesLeft(o: Ordering, t: seq<Row>, x: Row, j: nat)
    requires 0 < j <= |t| && Precedes(o, x, t[j - 1])
    requires Insert(o, t, x) == Insert(o, t[..j], x) + t[j..]
    ensures Insert(o, t, x) == Insert(o, t[..j - 1], x) + t[j - 1..]
  {
    InsertShift(o, t, x, j);
    assert t[j - 1..] == [t[j - 1]] + t[j..];
  }

  lemma InsertLandsAt(o: Ordering, t: seq<Row>, x: Row, j: nat)
    requires j <= |t| && (j == 0 || !Precedes(o, x, t[j - 1]))
    requires Insert(o, t, x) == Insert(o, t[..j], x) + t[j..]
    ensures Insert(o, t, x) == t[..j] + [x] + t[j..]
  {
    InsertStop(o, t, x, j);
  }

  /** Copying the row left of the hole into it moves the hole one place left. */
  lemma HoleShift(t: seq<Row>, after: seq<Row>, h: Row, j: nat)
    requires 0 < j <= |t|
    ensures var s := t[..j] + [h] + t[j..] + after;
      s[j - 1] == t[j - 1] && s[j := t[j - 1]] == t[..j - 1] + [t[j - 1]] + t[j - 1..] + after
  {
    var s := t[..j] + [h] + t[j..] + after;
    assert t[..j] == t[..j - 1] + [t[j - 1]];
    assert t[j - 1..] == [t[j - 1]] + t[j..];
    assert s[j := t[j - 1]] == t[..j - 1] + [t[j - 1]] + [t[j - 1]] + t[j..] + after;
  }

  /** Writing `x` into the hole gives the rows before it, `x`, the rows after it, then the untouched rest. */
  lemma HoleFill(t: seq<Row>, after: seq<Row>, h: Row, x: Row, j: nat)
    requires j <= |t|
    ensures var s := t[..j] + [h] + t[j..] + after;
      var filled := t[..j] + [x] + t[j..];
      |filled| == |t| + 1 && s[j := x] == filled + after &&
      s[j := x][..|t| + 1] == filled && s[j := x][|t| + 1..] == after
  {
    var filled := t[..j] + [x] + t[j..];
    assert (t[..j] + [h] + t[j..] + after)[j := x] == filled + after;
    assert (filled + after)[..|filled|] == filled;
    assert (filled + after)[|filled|..] == after;
  }

  /** One step of the insertion sort: `a[i]` moves left past the rows before it that rank strictly after it. */
  method InsertAt(a: array<Row>, o: Ordering, i: nat)
    requires i < a.Length
    modifies a
    ensures a[..i + 1] == Insert(o, old(a[..i]), old(a[i]))
    ensures a[i + 1..] == old(a[i + 1..])
  {
    var x := a[i];
    ghost var t := a[..i];
    ghost var after := a[i + 1..];
    assert t[..i] == t && t[i..] == [];
    assert a[..] == t[..i] + [a[i]] + t[i..] + after;
    var j := i;
    while j > 0 && Compare(o, x, a[j - 1]) < 0
      invariant 0 <= j <= i
      invariant a[..] == t[..j] + [a[j]] + t[j..] + after
      invariant Insert(o, t, x) == Insert(o, t[..j], x) + t[j..]
    {
      InsertMovesLeft(o, t, x, j);
      HoleShift(t, after, a[j], j);
      a[j] := a[j - 1];
      j := j - 1;
    }
    InsertLandsAt(o, t, x, j);
    HoleFill(t, after, a[j], x, j);
    a[j] := x;
  }

  /**
   * `Array.prototype.sort` with the comparator of `o`, as a stable
   * insertion sort: each row moves left past the rows that rank strictly
   * after it.
   */
  method SortInPlace(a: array<Row>, o: Ordering)
    modifies a
    ensures a[..] == SortRows(o, old(a[..]))
  {
    ghost var orig := a[..];
    var i := 0;
    while i < a.Length
      invariant 0 <= i <= a.Length
      invariant a[..i] == SortRows(o, orig[..i])
      invariant a[i..] == orig[i..]
    {
      ghost var before := a[..];
      InsertAt(a, o, i);
      assert before[..i] == SortRows(o, orig[..i]) && before[i] == orig[i];
      assert orig[..i + 1][..i] == orig[..i];
      assert a[i + 1..] == orig[i + 1..];
      i := i + 1;
    }
    assert a[..] == a[..a.Length] && orig == orig[..a.Length];
  }

  /** `tables.map(...)`: one card per table, in the tables' order. */
  function ProjectAll(tables: seq<TableRecord>, sessions: map<int, Option<Session>>, now: int, localEpoch: LocalDateTime -> int): (rows: seq<Row>)
    ensures |rows| == |tables|
    ensures forall i :: 0 <= i < |tables| ==> rows[i] == Project(tables[i], sessions, now, localEpoch)
  {
    seq(|tables|, i requires 0 <= i < |tables| => Project(tables[i], sessions, now, localEpoch))
  }

  /** The list the board shows: the projected tables, filtered, then sorted. */
  function View(tables: seq<TableRecord>, sessions: map<int, Option<Session>>, now: int, localEpoch: LocalDateTime -> int, f: Filter, o: Ordering): seq<Row>
  {
    SortRows(o, ApplyFilter(ProjectAll(tables, sessions, now, localEpoch), f))
  }

  /** The `derived` memo: project, filter, then sort the filtered array in place. */
  method DeriveView(tables: seq<TableRecord>, sessions: map<int, Option<Session>>, now: int, localEpoch: LocalDateTime -> int, f: Filter, o: Ordering)
    returns (view: seq<Row>)
    ensures view == View(tables, sessions, now, localEpoch, f, o)
  {
    var rows := ApplyFilter(ProjectAll(tables, sessions, now, localEpoch), f);
    var a := new Row[|rows|](i requires 0 <= i < |rows| => rows[i]);
    assert a[..] == rows;
    SortInPlace(a, o);
    view := a[..];
  }

  lemma {:induction false} InsertCounts(o: Ordering, t: seq<Row>, x: Row, playing: bool)
    ensures |Keep(Insert(o, t, x), playing)| == |Keep(t, playing)| + (if x.playing == playing then 1 else 0)
  {
    KeepSingle(x, playing);
    if t == [] {
    } else if Precedes(o, x, t[|t| - 1]) {
      var init, last := t[..|t| - 1], t[|t| - 1];
      assert t == init + [last];
      assert Insert(o, t, x) == Insert(o, init, x) + [last];
      InsertCounts(o, init, x, playing);
      KeepAppend(Insert(o, init, x), [last], playing);
      KeepAppend(init, [last], playing);
    } else {
      assert Insert(o, t, x) == t + [x];
      KeepAppend(t, [x], playing);
    }
  }

  lemma KeepSingle(x: Row, playing: bool)
    ensures Keep([x], playing) == if x.playing == playing then [x] else []
  {
    assert [x][..0] == [];
  }

  /** Sorting never changes how many rows are in play. */
  lemma {:induction false} SortKeepsCounts(o: Ordering, s: seq<Row>)
    ensures CountPlaying(SortRows(o, s)) == CountPlaying(s)
    ensures CountEmpty(SortRows(o, s)) == CountEmpty(s)
  {
    if s != [] {
      var init := s[..|s| - 1];
      SortKeepsCounts(o, init);
      InsertCounts(o, SortRows(o, init), s[|s| - 1], true);
      SortRowsPermutes(o, s);
      assert |SortRows(o, s)| == |s| by {
        assert |multiset(SortRows(o, s))| == |multiset(s)|;
      }
    }
  }

  /**
   * The shown list is the filtered projection in sorted order, rows of equal
   * rank keep the tables' order, and the header counts are those of the
   * filtered list.
   */
  lemma ViewFacts(tables: seq<TableRecord>, sessions: map<int, Option<Session>>, now: int, localEpoch: LocalDateTime -> int, f: Filter, o: Ordering, k: (int, int))
    ensures var rows := ApplyFilter(ProjectAll(tables, sessions, now, localEpoch), f);
      var view := View(tables, sessions, now, localEpoch, f, o);
      && multiset(view) == multiset(rows)
      && SortedBy(o, view)
      && WithKey(o, view, k) == WithKey(o, rows, k)
      && CountPlaying(view) == CountPlaying(rows)
      && CountEmpty(view) == CountEmpty(rows)
  {
    var rows := ApplyFilter(ProjectAll(tables, sessions, now, localEpoch), f);
    SortRowsPermutes(o, rows);
    SortRowsSorted(o, rows);
    SortRowsStable(o, rows, k);
    SortKeepsCounts(o, rows);
  }

  /**
   * Under "playing_first": rows in play come before empty tables, rows in
   * play run from the longest to the shortest, and empty tables follow by id.
   */
  lemma PlayingFirstShape(s: seq<Row>)
    requires SortedBy(PlayingFirst, s)
    ensures forall i, j :: 0 <= i < j < |s| && s[j].playing ==> s[i].playing
    ensures forall i, j :: 0 <= i < j < |s| && s[i].playing && s[j].playing ==> s[i].elapsedMs >= s[j].elapsedMs
    ensures forall i, j :: 0 <= i < j < |s| && !s[i].playing && !s[j].playing ==> SortId(s[i]) <= SortId(s[j])
  {
    forall i, j | 0 <= i < j < |s|
      ensures s[j].playing ==> s[i].playing
      ensures s[i].playing && s[j].playing ==> s[i].elapsedMs >= s[j].elapsedMs
      ensures !s[i].playing && !s[j].playing ==> SortId(s[i]) <= SortId(s[j])
    {
      assert !Precedes(PlayingFirst, s[j], s[i]);
    }
  }

  /** The playing rows of the shown list ranked by money, highest first. */
  function RankedByMoney(view: seq<Row>): seq<Row>
  {
    SortRows(MoneyDesc, Keep(view, true))
  }

  /** `topMoney`: the first three of the playing rows ranked by money. */
  function TopMoneyOf(view: seq<Row>): seq<Row>
  {
    var ranked := RankedByMoney(view);
    ranked[..if |ranked| < 3 then |ranked| else 3]
  }

  /** The `topMoney` memo: copy, keep the playing rows, sort by money descending, take three. */
  method TopMoney(view: seq<Row>) returns (top: seq<Row>)
    ensures top == TopMoneyOf(view)
  {
    var playing := Keep(view, true);
    var a := new Row[|playing|](i requires 0 <= i < |playing| => playing[i]);
    assert a[..] == playing;
    SortInPlace(a, MoneyDesc);
    top := a[..if a.Length < 3 then a.Length else 3];
  }

  /** In a list sorted by money, every row after position `n` charges no more than any row before it. */
  lemma SortedByMoneySplit(ranked: seq<Row>, n: nat)
    requires SortedBy(MoneyDesc, ranked) && n <= |ranked|
    ensures forall i, j :: 0 <= i < j < |ranked| ==> ranked[i].money >= ranked[j].money
    ensures forall x, y :: x in ranked[n..] && y in ranked[..n] ==> x.money <= y.money
  {
    forall i, j | 0 <= i < j < |ranked|
      ensures ranked[i].money >= ranked[j].money
    {
      assert !Precedes(MoneyDesc, ranked[j], ranked[i]);
    }
    forall x, y | x in ranked[n..] && y in ranked[..n]
      ensures x.money <= y.money
    {
      var i :| 0 <= i < n && ranked[..n][i] == y;
      var j :| 0 <= j < |ranked| - n && ranked[n..][j] == x;
      assert ranked[i] == y && ranked[n + j] == x;
    }
  }

  /**
   * The panel holds at most three rows, all in play and taken from the shown
   * list, from the highest charge down; it is full whenever three rows are in
   * play, and every playing row left out charges no more than any row shown.
   */
  lemma TopMoneyFacts(view: seq<Row>)
    ensures var top := TopMoneyOf(view);
      var rest := RankedByMoney(view)[|top|..];
      && |top| == (if CountPlaying(view) < 3 then CountPlaying(view) else 3)
      && (forall x :: x in top ==> x in view && x.playing)
      && (forall i, j :: 0 <= i < j < |top| ==> top[i].money >= top[j].money)
      && multiset(top) + multiset(rest) == multiset(Keep(view, true))
      && (forall x, y :: x in rest && y in top ==> x.money <= y.money)
  {
    var ranked := RankedByMoney(view);
    var n := if |ranked| < 3 then |ranked| else 3;
    RankedFacts(view);
    SortedByMoneySplit(ranked, n);
    PrefixSplit(ranked, n);
  }

  /** The ranked list is sorted by money and holds exactly the playing rows of the view. */
  lemma RankedFacts(view: seq<Row>)
    ensures var ranked := RankedByMoney(view);
      && SortedBy(MoneyDesc, ranked)
      && multiset(ranked) == multiset(Keep(view, true))
      && |ranked| == CountPlaying(view)
      && (forall x :: x in ranked ==> x in view && x.playing)
  {
    var playing := Keep(view, true);
    var ranked := RankedByMoney(view);
    SortRowsPermutes(MoneyDesc, playing);
    SortRowsSorted(MoneyDesc, playing);
    assert |multiset(ranked)| == |multiset(playing)|;
    forall x | x in ranked
      ensures x in view && x.playing
    {
      assert x in multiset(ranked);
    }
  }

  lemma PrefixSplit(s: seq<Row>, n: nat)
    requires n <= |s|
    ensures multiset(s[..n]) + multiset(s[n..]) == multiset(s)
  {
    assert s == s[..n] + s[n..];
  }
}
