/**
 * The cashier's invoice ledger: line items, the derived amounts (subtotal,
 * discount, tax, total) rebuilt from the items and two percentages, adding
 * and removing lines, and the single "table fee" line made from a closed
 * table session. Amounts are exact rationals (`real`).
 */
module Ledger {
  import opened Wrappers
  import opened Text
  import Catalog

  /** A line's identifier: `Date.now()` for a product line, `"table-fee-" + Date.now()` for the fee line. */
  datatype ItemId = Stamp(ms: int) | FeeStamp(ms: int)

  datatype LineItem = LineItem(
    id: ItemId,
    productId: Option<int>,
    productName: string,
    price: Numeric,
    quantity: int,
    lineTotal: Numeric,
    tableFee: bool)

  /** The invoice being assembled; `id` is set only after a checkout succeeded. */
  datatype Invoice = Invoice(
    id: Option<int>,
    items: seq<LineItem>,
    subtotal: real,
    discountPercent: real,
    discountAmount: real,
    taxPercent: real,
    taxAmount: real,
    total: real)

  /** `createEmptyInvoice()`. */
  function EmptyInvoice(): (inv: Invoice)
    ensures inv.items == [] && inv.id.None?
  {
    Invoice(None, [], 0.0, 0.0, 0.0, 0.0, 0.0, 0.0)
  }

  // ---------------------------------------------------------------------
  // Derived amounts
  // ---------------------------------------------------------------------

  /** The `reduce` over the items: each line total, with a non-numeric one counted as 0. */
  function Subtotal(items: seq<LineItem>): real
  {
    if items == [] then 0.0 else Subtotal(items[..|items| - 1]) + OrZero(items[|items| - 1].lineTotal)
  }

  /** The ledger invariant: the four derived fields agree with the items and the two rates. */
  predicate Consistent(inv: Invoice)
  {
    && inv.subtotal == Subtotal(inv.items)
    && inv.discountAmount == inv.subtotal * (inv.discountPercent / 100.0)
    && inv.taxAmount == (inv.subtotal - inv.discountAmount) * (inv.taxPercent / 100.0)
    && inv.total == inv.subtotal - inv.discountAmount + inv.taxAmount
  }

  /** `recalcInvoice`: rebuilds the derived fields and keeps everything else. */
  function Recalc(inv: Invoice): (r: Invoice)
    ensures Consistent(r)
    ensures r.id == inv.id && r.items == inv.items
    ensures r.discountPercent == inv.discountPercent && r.taxPercent == inv.taxPercent
  {
    var subtotal := Subtotal(inv.items);
    var discountAmount := subtotal * (inv.discountPercent / 100.0);
    var afterDiscount := subtotal - discountAmount;
    var taxAmount := afterDiscount * (inv.taxPercent / 100.0);
    inv.(subtotal := subtotal, discountAmount := discountAmount, taxAmount := taxAmount, total := afterDiscount + taxAmount)
  }

  /** A consistent invoice is exactly one that recalculation leaves unchanged; so recalculating twice is recalculating once. */
  lemma RecalcFixpoint(inv: Invoice)
    ensures Consistent(inv) <==> Recalc(inv) == inv
    ensures Recalc(Recalc(inv)) == Recalc(inv)
  {
  }

  lemma {:induction false} SubtotalAppend(a: seq<LineItem>, b: seq<LineItem>)
    ensures Subtotal(a + b) == Subtotal(a) + Subtotal(b)
  {
    if b != [] {
      assert (a + b)[..|a + b| - 1] == a + b[..|b| - 1];
      SubtotalAppend(a, b[..|b| - 1]);
    } else {
      assert a + b == a;
    }
  }

  /** Taking the same line out of two permutations of each other leaves permutations of each other. */
  lemma MultisetRemoveLast(a: seq<LineItem>, b: seq<LineItem>, j: nat)
    requires multiset(a) == multiset(b) && a != [] && j < |b| && b[j] == a[|a| - 1]
    ensures multiset(b[..j] + b[j + 1..]) == multiset(a[..|a| - 1])
  {
    var x := a[|a| - 1];
    assert a == a[..|a| - 1] + [x];
    assert b == b[..j] + [x] + b[j + 1..];
    assert multiset(b) == multiset(b[..j]) + multiset{x} + multiset(b[j + 1..]);
    assert multiset(a) == multiset(a[..|a| - 1]) + multiset{x};
    assert multiset(b[..j] + b[j + 1..]) == multiset(b[..j]) + multiset(b[j + 1..]);
    assert multiset(b[..j] + b[j + 1..]) == multiset(b) - multiset{x};
  }

  /** The subtotal does not depend on the order of the lines. */
  lemma {:induction false} SubtotalPermutation(a: seq<LineItem>, b: seq<LineItem>)
    requires multiset(a) == multiset(b)
    ensures Subtotal(a) == Subtotal(b)
  {
    if a == [] {
      assert |b| == |multiset(b)| == 0;
    } else {
      var x := a[|a| - 1];
      var init := a[..|a| - 1];
      assert Subtotal(a) == Subtotal(init) + OrZero(x.lineTotal);
      assert x in multiset(b);
      var j :| 0 <= j < |b| && b[j] == x;
      var left, right := b[..j], b[j + 1..];
      MultisetRemoveLast(a, b, j);
      SubtotalPermutation(init, left + right);
      assert b == (left + [x]) + right;
      SubtotalAppend(left + [x], right);
      SubtotalAppend(left, [x]);
      assert Subtotal([x]) == OrZero(x.lineTotal) by {
        assert [x][..0] == [];
      }
      SubtotalAppend(left, right);
    }
  }

  /** The total in closed form: the subtotal less the discount rate, plus the tax rate on what remains. */
  lemma RecalcTotal(inv: Invoice)
    ensures Recalc(inv).total == Subtotal(inv.items) * (1.0 - inv.discountPercent / 100.0) * (1.0 + inv.taxPercent / 100.0)
  {
    var s, d, t := Subtotal(inv.items), inv.discountPercent / 100.0, inv.taxPercent / 100.0;
    calc {
      Recalc(inv).total;
      (s - s * d) + (s - s * d) * t;
      (s - s * d) * (1.0 + t);
      s * (1.0 - d) * (1.0 + t);
    }
  }

  /** 10% discount and 8% tax on a single line of 100000: 10000 off, 7200 tax, 97200 to pay. */
  lemma WorkedExample(item: LineItem)
    requires item.lineTotal == Finite(100000.0)
    ensures var r := Recalc(Invoice(None, [item], 0.0, 10.0, 0.0, 8.0, 0.0, 0.0));
      r.subtotal == 100000.0 && r.discountAmount == 10000.0 && r.taxAmount == 7200.0 && r.total == 97200.0
  {
    assert [item][..0] == [];
    assert Subtotal([item]) == 100000.0;
  }

  // ---------------------------------------------------------------------
  // Adding and removing lines
  // ---------------------------------------------------------------------

  function Times(price: Numeric, qty: int): Numeric
  {
    if price.Finite? then Finite(price.value * qty as real) else NaN
  }

  /**
   * `handleAddToInvoice`: with a product selected and a positive quantity,
   * one line is appended whose total is price times quantity and the
   * invoice is recalculated; otherwise nothing changes.
   */
  function AddItem(inv: Invoice, selected: Option<Catalog.Product>, qty: int, now: int): (r: Invoice)
    ensures selected.None? || qty <= 0 ==> r == inv
    ensures selected.Some? && qty > 0 ==>
      && Consistent(r)
      && r.discountPercent == inv.discountPercent && r.taxPercent == inv.taxPercent && r.id == inv.id
      && |r.items| == |inv.items| + 1
      && r.items[..|inv.items|] == inv.items
      && (var x := r.items[|inv.items|];
          && x.id == Stamp(now) && x.productId == Some(selected.value.id) && !x.tableFee
          && x.productName == selected.value.name
          && x.quantity == qty && x.price == selected.value.price
          && (selected.value.price.Finite? ==> x.lineTotal == Finite(selected.value.price.value * qty as real))
          && (selected.value.price.NaN? ==> x.lineTotal.NaN?))
  {
    if selected.None? || qty <= 0 then inv
    else
      var p := selected.value;
      var item := LineItem(Stamp(now), Some(p.id), p.name, p.price, qty, Times(p.price, qty), false);
      var r := Recalc(inv.(items := inv.items + [item]));
      assert r.items[..|inv.items|] == inv.items;
      r
  }

  /** The `filter` of `handleRemoveItem`: every line whose id differs from `id`, in order. */
  function Without(items: seq<LineItem>, id: ItemId): (r: seq<LineItem>)
    ensures |r| <= |items|
    ensures forall x :: x in r <==> x in items && x.id != id
  {
    if items == [] then []
    else
      var rest := Without(items[..|items| - 1], id);
      var last := items[|items| - 1];
      assert forall x :: x in items <==> x in items[..|items| - 1] || x == last;
      if last.id != id then rest + [last] else rest
  }

  /** Removal works line by line, so the kept lines stay in their relative order. */
  lemma {:induction false} WithoutAppend(a: seq<LineItem>, b: seq<LineItem>, id: ItemId)
    ensures Without(a + b, id) == Without(a, id) + Without(b, id)
  {
    if b != [] {
      var init, last := b[..|b| - 1], b[|b| - 1];
      assert (a + b)[..|a + b| - 1] == a + init && (a + b)[|a + b| - 1] == last;
      WithoutAppend(a, init, id);
      var tail := if last.id != id then [last] else [];
      assert Without(a + b, id) == Without(a + init, id) + tail;
      assert Without(b, id) == Without(init, id) + tail;
    } else {
      assert a + b == a;
    }
  }

  /** Removing an id no line carries keeps every line. */
  lemma {:induction false} WithoutAbsent(items: seq<LineItem>, id: ItemId)
    requires forall x :: x in items ==> x.id != id
    ensures Without(items, id) == items
  {
    if items != [] {
      var init, last := items[..|items| - 1], items[|items| - 1];
      assert items == init + [last];
      assert last in items;
      assert forall x :: x in init ==> x in items;
      WithoutAbsent(init, id);
      assert Without(items, id) == Without(init, id) + [last];
    }
  }

  /** `handleRemoveItem`: drops every line with that id and recalculates. */
  function RemoveItem(inv: Invoice, id: ItemId): (r: Invoice)
    ensures Consistent(r)
    ensures forall x :: x in r.items <==> x in inv.items && x.id != id
    ensures r.discountPercent == inv.discountPercent && r.taxPercent == inv.taxPercent && r.id == inv.id
  {
    Recalc(inv.(items := Without(inv.items, id)))
  }

  /** Removing an absent id from a consistent invoice changes nothing. */
  lemma RemoveAbsentIsNoOp(inv: Invoice, id: ItemId)
    requires Consistent(inv)
    requires forall x :: x in inv.items ==> x.id != id
    ensures RemoveItem(inv, id) == inv
  {
    WithoutAbsent(inv.items, id);
    assert inv.(items := Without(inv.items, id)) == inv;
    RecalcFixpoint(inv);
  }

  /** Removing the line just added (by its fresh id) restores the recalculated invoice. */
  lemma AddThenRemove(inv: Invoice, p: Catalog.Product, qty: int, now: int)
    requires qty > 0
    requires forall x :: x in inv.items ==> x.id != Stamp(now)
    ensures RemoveItem(AddItem(inv, Some(p), qty, now), Stamp(now)) == Recalc(inv)
  {
    var added := AddItem(inv, Some(p), qty, now);
    var item := added.items[|inv.items|];
    assert added.items == inv.items + [item];
    assert Without(added.items, Stamp(now)) == inv.items by {
      WithoutAppend(inv.items, [item], Stamp(now));
      WithoutAbsent(inv.items, Stamp(now));
      assert Without([item], Stamp(now)) == [] by {
        assert [item][..0] == [];
      }
    }
    RecalcIgnoresDerived(added.(items := Without(added.items, Stamp(now))), inv);
  }

  /** Recalculation reads only the lines, the two rates and the id. */
  lemma RecalcIgnoresDerived(a: Invoice, b: Invoice)
    requires a.id == b.id && a.items == b.items
    requires a.discountPercent == b.discountPercent && a.taxPercent == b.taxPercent
    ensures Recalc(a) == Recalc(b)
  {
  }

  // ---------------------------------------------------------------------
  // The table-fee line
  // ---------------------------------------------------------------------

  /** `Math.max(1, Math.floor((end - start) / 60000))`: whole minutes played, at least one. */
  function PlayedMinutes(startMs: int, endMs: int): (m: nat)
    ensures m >= 1
    ensures endMs - startMs >= 60000 ==> m * 60000 <= endMs - startMs < (m + 1) * 60000
    ensures endMs - startMs < 120000 ==> m == 1
  {
    var whole := (endMs - startMs) / 60000;
    if whole < 1 then 1 else whole
  }

  /** The duration label: `"{h}h{m}p"` when there is at least one hour, otherwise `"{m}p"`. */
  function MinutesLabel(minutes: nat): string
  {
    var h, m := minutes / 60, minutes % 60;
    if h > 0 then NatToString(h) + "h" + NatToString(m) + "p" else NatToString(m) + "p"
  }

  /** Reads a duration label back into minutes. */
  function ParseMinutesLabel(s: string): Option<nat>
  {
    if s == [] || s[|s| - 1] != 'p' then None else ParseLabelBody(s[..|s| - 1])
  }

  /** A label without its final 'p': minutes alone, or hours, 'h' and minutes under 60. */
  function ParseLabelBody(body: string): Option<nat>
  {
    var k := IndexOf(body, 'h');
    if k == |body| then ParseNat(body) else HoursAndMinutes(ParseNat(body[..k]), ParseNat(body[k + 1..]))
  }

  /** Hours and minutes read from the two sides of the 'h': both numbers, and minutes under 60. */
  function HoursAndMinutes(h: Option<nat>, m: Option<nat>): Option<nat>
  {
    if h.Some? && m.Some? && m.value < 60 then Some(h.value * 60 + m.value) else None
  }

  /** A label is its body followed by 'p'. */
  lemma LabelHasBody(body: string)
    ensures ParseMinutesLabel(body + "p") == ParseLabelBody(body)
  {
    assert (body + "p")[..|body|] == body;
  }

  lemma NoLetterInDigits(s: string, c: char)
    requires AllDigits(s) && !IsDigit(c)
    ensures c !in s && IndexOf(s, c) == |s|
  {
  }

  /** In "{h}h{m}" the first 'h' sits right after the hours' digits. */
  lemma HoursSeparator(hs: string, ms: string)
    requires AllDigits(hs)
    ensures IndexOf(hs + "h" + ms, 'h') == |hs|
  {
    NoLetterInDigits(hs, 'h');
    IndexOfAppend(hs, "h" + ms, 'h');
    assert hs + "h" + ms == hs + ("h" + ms);
  }

  lemma ParseHoursLabel(h: nat, m: nat)
    requires m < 60
    ensures ParseMinutesLabel(NatToString(h) + "h" + NatToString(m) + "p") == Some(h * 60 + m)
  {
    ParseNatToString(h);
    ParseNatToString(m);
    ParseHoursParts(NatToString(h), NatToString(m), h, m);
  }

  lemma ParseHoursParts(hs: string, ms: string, h: nat, m: nat)
    requires AllDigits(hs) && ParseNat(hs) == Some(h) && ParseNat(ms) == Some(m) && m < 60
    ensures ParseMinutesLabel(hs + "h" + ms + "p") == Some(h * 60 + m)
  {
    ParseJoinedLabel(hs, ms);
  }

  /** "{hs}h{ms}p" with digits before the 'h' reads as the hours and minutes on either side. */
  lemma ParseJoinedLabel(hs: string, ms: string)
    requires AllDigits(hs)
    ensures ParseMinutesLabel(hs + "h" + ms + "p") == HoursAndMinutes(ParseNat(hs), ParseNat(ms))
  {
    var body := hs + "h" + ms;
    HoursSeparator(hs, ms);
    assert body[..|hs|] == hs && body[|hs| + 1..] == ms;
    LabelHasBody(body);
    SplitBody(body, |hs|);
  }

  lemma SplitBody(body: string, k: nat)
    requires k < |body| && IndexOf(body, 'h') == k
    ensures ParseLabelBody(body) == HoursAndMinutes(ParseNat(body[..k]), ParseNat(body[k + 1..]))
  {
  }

  lemma ParseMinutesOnlyLabel(m: nat)
    ensures ParseMinutesLabel(NatToString(m) + "p") == Some(m)
  {
    var ms := NatToString(m);
    LabelHasBody(ms);
    NoLetterInDigits(ms, 'h');
    ParseNatToString(m);
  }

  /** A label names exactly the minutes it was made from. */
  lemma MinutesLabelRoundTrip(minutes: nat)
    ensures ParseMinutesLabel(MinutesLabel(minutes)) == Some(minutes)
  {
    var h, m := minutes / 60, minutes % 60;
    assert h * 60 + m == minutes && m < 60;
    if h > 0 {
      assert MinutesLabel(minutes) == NatToString(h) + "h" + NatToString(m) + "p";
      ParseHoursLabel(h, m);
    } else {
      assert MinutesLabel(minutes) == NatToString(m) + "p" && m == minutes;
      ParseMinutesOnlyLabel(m);
    }
  }

  /**
   * `toDurationText` as the authors meant it: the label of the played
   * minutes, or "" when either time is not a valid date (the `catch` branch).
   * A time is the epoch-millisecond value of `new Date(...)`; `None` is an
   * invalid date.
   */
  function DurationText(startMs: Option<int>, endMs: Option<int>): (text: string)
    ensures startMs.None? || endMs.None? ==> text == ""
    ensures startMs.Some? && endMs.Some? ==>
      ParseMinutesLabel(text) == Some(PlayedMinutes(startMs.value, endMs.value))
  {
    if startMs.None? || endMs.None? then ""
    else
      MinutesLabelRoundTrip(PlayedMinutes(startMs.value, endMs.value));
      MinutesLabel(PlayedMinutes(startMs.value, endMs.value))
  }

  /**
   * `toDurationText` as written: an invalid date throws nothing, the
   * subtraction gives NaN, and the label becomes "NaNp"; the `catch` that
   * returns "" is never reached.
   */
  function DurationTextAsWritten(startMs: Option<int>, endMs: Option<int>): (text: string)
    ensures text != ""
  {
    if startMs.None? || endMs.None? then "NaNp"
    else MinutesLabel(PlayedMinutes(startMs.value, endMs.value))
  }

  /** With an invalid start time the label as written is "NaNp", not the "" the fee line's fallback expects. */
  lemma InvalidDateLabel(endMs: int)
    ensures DurationTextAsWritten(None, Some(endMs)) == "NaNp"
    ensures DurationText(None, Some(endMs)) == ""
  {
  }

  /** Labels for 90 minutes and 45 seconds of play. */
  lemma DurationExamples(t: int)
    ensures DurationText(Some(t), Some(t + 90 * 60000)) == "1h30p"
    ensures DurationText(Some(t), Some(t + 45000)) == "1p"
  {
    assert PlayedMinutes(t, t + 90 * 60000) == 90;
    assert PlayedMinutes(t, t + 45000) == 1;
    assert NatToString(1) == "1" by {
      NatToStringSmall(1);
    }
    assert NatToString(30) == "30" by {
      NatToStringSmall(3);
      NatToStringSmall(0);
      assert NatToString(30) == NatToString(3) + [DigitChar(0)];
    }
    assert MinutesLabel(90) == "1h30p" by {
      assert 90 / 60 == 1 && 90 % 60 == 30;
    }
    assert MinutesLabel(1) == "1p" by {
      assert 1 / 60 == 0 && 1 % 60 == 1;
    }
  }

  /** The line `buildTableFeeItem` makes once the label is known: named "{table} - {label}", or just the table name when the label is "". */
  function FeeLine(tableName: string, durationText: string, total: Numeric, now: int): (x: LineItem)
    ensures x.quantity == 1 && x.productId.None? && x.tableFee && x.id == FeeStamp(now)
    ensures x.price == x.lineTotal == Finite(OrZero(total))
    ensures durationText != "" ==> x.productName == tableName + " - " + durationText
    ensures durationText == "" ==> x.productName == tableName
  {
    var name := if durationText != "" then tableName + " - " + durationText else tableName;
    var amount := Finite(OrZero(total));
    LineItem(FeeStamp(now), None, name, amount, 1, amount, true)
  }

  /**
   * `buildTableFeeItem` as written: one line, quantity 1, no product, priced
   * at the session total (`Number(total || 0)`: the reply's total is a JSON
   * number, so a NaN total, being falsy, becomes 0), named
   * "{table} - {label}". Since the label as written is never "", the
   * fallback to the bare table name is never taken: an invalid date gives
   * "{table} - NaNp".
   */
  function TableFeeItem(tableName: string, startMs: Option<int>, endMs: Option<int>, total: Numeric, now: int): (x: LineItem)
    ensures x.quantity == 1 && x.productId.None? && x.tableFee && x.id == FeeStamp(now)
    ensures x.price == x.lineTotal == Finite(OrZero(total))
    ensures startMs.Some? && endMs.Some? ==>
      StartsWith(x.productName, tableName + " - ") &&
      ParseMinutesLabel(x.productName[|tableName| + 3..]) == Some(PlayedMinutes(startMs.value, endMs.value))
    ensures startMs.None? || endMs.None? ==> x.productName == tableName + " - NaNp"
    ensures StartsWith(x.productName, tableName + " - ")
  {
    var durationText := DurationTextAsWritten(startMs, endMs);
    FeeLabelSuffix(tableName, durationText);
    if startMs.Some? && endMs.Some? then
      MinutesLabelRoundTrip(PlayedMinutes(startMs.value, endMs.value));
      FeeLine(tableName, durationText, total, now)
    else
      FeeLine(tableName, durationText, total, now)
  }

  /**
   * `buildTableFeeItem` as its authors meant it, on the intended label:
   * a valid session is named "{table} - {label}" and an invalid date falls
   * back to the bare table name.
   */
  function TableFeeItemIntended(tableName: string, startMs: Option<int>, endMs: Option<int>, total: Numeric, now: int): (x: LineItem)
    ensures x.quantity == 1 && x.productId.None? && x.tableFee && x.id == FeeStamp(now)
    ensures x.price == x.lineTotal == Finite(OrZero(total))
    ensures startMs.Some? && endMs.Some? ==>
      StartsWith(x.productName, tableName + " - ") &&
      ParseMinutesLabel(x.productName[|tableName| + 3..]) == Some(PlayedMinutes(startMs.value, endMs.value))
    ensures startMs.None? || endMs.None? ==> x.productName == tableName
  {
    var durationText := DurationText(startMs, endMs);
    if durationText != "" then
      FeeLabelSuffix(tableName, durationText);
      FeeLine(tableName, durationText, total, now)
    else
      FeeLine(tableName, durationText, total, now)
  }

  lemma FeeLabelSuffix(tableName: string, suffix: string)
    ensures StartsWith(tableName + " - " + suffix, tableName + " - ")
    ensures (tableName + " - " + suffix)[|tableName| + 3..] == suffix
  {
    assert (tableName + " - " + suffix)[..|tableName| + 3] == tableName + " - ";
  }

  /** The two fee lines differ exactly on an invalid date: "{table} - NaNp" as written, the bare name as intended. */
  lemma FeeLineNames(tableName: string, startMs: Option<int>, endMs: Option<int>, total: Numeric, now: int)
    ensures startMs.Some? && endMs.Some? ==>
      TableFeeItem(tableName, startMs, endMs, total, now) == TableFeeItemIntended(tableName, startMs, endMs, total, now)
    ensures startMs.None? || endMs.None? ==>
      TableFeeItem(tableName, startMs, endMs, total, now).productName
        == TableFeeItemIntended(tableName, startMs, endMs, total, now).productName + " - NaNp"
  {
  }
}
