/**
  Promotion rows, the display-window calculator, and the per-vendor aggregation
  of `retail_promotions_to_shopify_metafields.py`. Dates are day numbers
  (module Dates), so `timedelta(days=k)` is `+ k`.
*/
module Promotions {
  import opened Wrappers
  import opened Text
  import opened Dates
  import opened Sequences

  /** `RetailPromoRow`. */
  datatype PromoRow = PromoRow(
    id: int,
    vendor: string,
    collectionId: Option<string>,
    entryType: string,
    start: Day,
    end: Option<Day>)

  datatype Category = Sale | PriceIncrease | OtherType

  /** The entry type as the aggregation reads it: `normalize(entry_type)` against "sale" and "price increase". */
  function CategoryOf(entryType: string): Category {
    var t := Normalize(entryType);
    if t == "sale" then Sale else if t == "price increase" then PriceIncrease else OtherType
  }

  /** A closed date range (`display_start`, `display_end`). */
  datatype Window = Window(start: Day, end: Day)

  /** `compute_display_window(row, x, y, z)`. */
  function DisplayWindow(r: PromoRow, x: int, y: int, z: int): Window {
    match CategoryOf(r.entryType)
    case Sale => Window(r.start - x, r.end.GetOr(r.start))
    case PriceIncrease => Window(r.start - y, if r.end.Some? then r.end.value else r.start + z)
    case OtherType => Window(r.start, r.start)
  }

  /**
    With non-negative lead times the display window of a sale or a price
    increase covers every day of the real promotion, from its start to its end
    (its start when it has none); one with an end disappears exactly at that
    end, and a price increase without one still shows for Z days after it
    starts. A sale opens X days before its real start and a price increase Y
    days before. A row of any other type shows on its start day only, whatever its end.
  */
  lemma DisplayWindowCoversReal(r: PromoRow, x: int, y: int, z: int, t: Day)
    requires x >= 0 && y >= 0 && z >= 0
    ensures CategoryOf(r.entryType) == Sale ==> r.start - DisplayWindow(r, x, y, z).start == x
    ensures CategoryOf(r.entryType) == PriceIncrease ==> r.start - DisplayWindow(r, x, y, z).start == y
    ensures CategoryOf(r.entryType) != OtherType && r.start <= t <= r.end.GetOr(r.start) ==>
      DisplayWindow(r, x, y, z).start <= t <= DisplayWindow(r, x, y, z).end
    ensures CategoryOf(r.entryType) == OtherType ==> DisplayWindow(r, x, y, z) == Window(r.start, r.start)
    ensures CategoryOf(r.entryType) != OtherType && r.end.Some? ==> DisplayWindow(r, x, y, z).end == r.end.value
    ensures CategoryOf(r.entryType) == PriceIncrease && r.end.None? && r.start <= t <= r.start + z ==>
      DisplayWindow(r, x, y, z).start <= t <= DisplayWindow(r, x, y, z).end
  {
  }

  /** The entry type compares after `normalize`: case and spacing do not matter. */
  lemma CategoryIgnoresCaseAndSpacing(a: string, b: string)
    requires Words(Lower(a)) == Words(Lower(b))
    ensures CategoryOf(a) == CategoryOf(b)
  {
    NormalizeEqualIffSameWords(a, b);
  }

  // ---- VendorPlan and aggregation ----

  /** `VendorPlan`: per vendor, its collection ids and, per category, a display window and a real window. */
  datatype VendorPlan = VendorPlan(
    vendor: string,
    collectionIds: seq<string>,
    saleDisplayStart: Option<Day>,
    saleDisplayEnd: Option<Day>,
    piDisplayStart: Option<Day>,
    piDisplayEnd: Option<Day>,
    saleRealStart: Option<Day>,
    saleRealEnd: Option<Day>,
    piRealStart: Option<Day>,
    piRealEnd: Option<Day>)

  function EmptyPlan(v: string): VendorPlan {
    VendorPlan(v, [], None, None, None, None, None, None, None, None)
  }

  /** `d if acc is None else min(acc, d)`. */
  function Earliest(acc: Option<Day>, d: Day): Day {
    if acc.None? || d < acc.value then d else acc.value
  }

  /** `d if acc is None else max(acc, d)`. */
  function Latest(acc: Option<Day>, d: Day): Day {
    if acc.None? || d > acc.value then d else acc.value
  }

  /** The collection-id step: append a non-empty id not seen before. */
  function AddCollectionId(ids: seq<string>, cid: Option<string>): seq<string> {
    if cid.Some? && cid.value != "" && cid.value !in ids then ids + [cid.value] else ids
  }

  /** The sale branch of the loop body: widen the sale windows with row `r` and its display window `win`. */
  function AbsorbSale(w: VendorPlan, r: PromoRow, win: Window): VendorPlan {
    w.(saleDisplayStart := Some(Earliest(w.saleDisplayStart, win.start)),
       saleDisplayEnd := Some(Latest(w.saleDisplayEnd, win.end)),
       saleRealStart := Some(Earliest(w.saleRealStart, r.start)),
       saleRealEnd := Some(Latest(w.saleRealEnd, r.end.GetOr(r.start))))
  }

  /** The price-increase branch: as for a sale, except that a row without an end leaves the real end alone. */
  function AbsorbPriceIncrease(w: VendorPlan, r: PromoRow, win: Window): VendorPlan {
    var w2 := w.(piDisplayStart := Some(Earliest(w.piDisplayStart, win.start)),
                 piDisplayEnd := Some(Latest(w.piDisplayEnd, win.end)),
                 piRealStart := Some(Earliest(w.piRealStart, r.start)));
    if r.end.Some? then w2.(piRealEnd := Some(Latest(w2.piRealEnd, r.end.value))) else w2
  }

  /** One iteration of the loop in `aggregate_by_vendor`: fold row `r` into plan `w`. */
  function Absorb(w: VendorPlan, r: PromoRow, x: int, y: int, z: int): VendorPlan {
    var w1 := w.(collectionIds := AddCollectionId(w.collectionIds, r.collectionId));
    var win := DisplayWindow(r, x, y, z);
    match CategoryOf(r.entryType)
    case Sale => AbsorbSale(w1, r, win)
    case PriceIncrease => AbsorbPriceIncrease(w1, r, win)
    case OtherType => w1
  }

  /** Absorbing a row keeps the vendor and takes the collection-id step. */
  lemma AbsorbIds(w: VendorPlan, r: PromoRow, x: int, y: int, z: int)
    ensures Absorb(w, r, x, y, z).vendor == w.vendor
    ensures Absorb(w, r, x, y, z).collectionIds == AddCollectionId(w.collectionIds, r.collectionId)
  {
  }

  /** Folding rows into a plan, first row first. */
  function FoldRows(w: VendorPlan, rows: seq<PromoRow>, x: int, y: int, z: int): VendorPlan {
    if rows == [] then w else Absorb(FoldRows(w, rows[..|rows| - 1], x, y, z), rows[|rows| - 1], x, y, z)
  }

  /** The rows of vendor `v` (exact string match), in order. */
  function RowsOf(rows: seq<PromoRow>, v: string): seq<PromoRow> {
    if rows == [] then []
    else RowsOf(rows[..|rows| - 1], v) + (if rows[|rows| - 1].vendor == v then [rows[|rows| - 1]] else [])
  }

  /** The distinct vendor strings of `rows`, in first-seen order (the key order of `by_vendor`). */
  function Vendors(rows: seq<PromoRow>): seq<string> {
    if rows == [] then []
    else
      var vs := Vendors(rows[..|rows| - 1]);
      if rows[|rows| - 1].vendor in vs then vs else vs + [rows[|rows| - 1].vendor]
  }

  /** `RowsOf` keeps exactly the rows of vendor `v`. */
  lemma {:induction false} RowsOfMembers(rows: seq<PromoRow>, v: string)
    ensures forall r :: r in RowsOf(rows, v) <==> r in rows && r.vendor == v
  {
    if rows != [] {
      var init := rows[..|rows| - 1];
      RowsOfMembers(init, v);
      assert rows == init + [rows[|rows| - 1]];
    }
  }

  /** The plan that aggregation builds for vendor `v`. */
  function PlanOf(rows: seq<PromoRow>, v: string, x: int, y: int, z: int): VendorPlan {
    FoldRows(EmptyPlan(v), RowsOf(rows, v), x, y, z)
  }

  lemma RowsOfSnoc(rows: seq<PromoRow>, r: PromoRow, v: string)
    ensures RowsOf(rows + [r], v) == RowsOf(rows, v) + (if r.vendor == v then [r] else [])
  {
    assert (rows + [r])[..|rows|] == rows;
  }

  lemma VendorsSnoc(rows: seq<PromoRow>, r: PromoRow)
    ensures Vendors(rows + [r]) == if r.vendor in Vendors(rows) then Vendors(rows) else Vendors(rows) + [r.vendor]
  {
    assert (rows + [r])[..|rows|] == rows;
  }

  /** A vendor appears in `Vendors(rows)` exactly when some row carries it. */
  lemma {:induction false} VendorsMembers(rows: seq<PromoRow>, v: string)
    ensures v in Vendors(rows) <==> exists r :: r in rows && r.vendor == v
  {
    if rows != [] {
      var init := rows[..|rows| - 1];
      VendorsMembers(init, v);
      assert rows == init + [rows[|rows| - 1]];
    }
  }

  /** One more row changes only its own vendor's plan, by `Absorb`. */
  lemma PlanOfStep(rows: seq<PromoRow>, r: PromoRow, u: string, x: int, y: int, z: int)
    ensures PlanOf(rows + [r], u, x, y, z) ==
      if r.vendor == u then Absorb(PlanOf(rows, u, x, y, z), r, x, y, z) else PlanOf(rows, u, x, y, z)
  {
    RowsOfSnoc(rows, r, u);
    var rs := RowsOf(rows, u);
    if r.vendor == u {
      var rs' := rs + [r];
      assert RowsOf(rows + [r], u) == rs';
      assert rs'[..|rs'| - 1] == rs && rs'[|rs'| - 1] == r;
      assert FoldRows(EmptyPlan(u), rs', x, y, z) == Absorb(FoldRows(EmptyPlan(u), rs, x, y, z), r, x, y, z);
    } else {
      assert rs + [] == rs;
    }
  }

  /** The map of plans built so far stays keyed by the vendors seen, each holding its vendor's fold. */
  lemma MapStep(prefix: seq<PromoRow>, r: PromoRow, m: map<string, VendorPlan>, x: int, y: int, z: int)
    requires forall v :: v in m <==> v in Vendors(prefix)
    requires forall v :: v in m ==> m[v] == PlanOf(prefix, v, x, y, z)
    ensures var m' := m[r.vendor := Absorb(if r.vendor in m then m[r.vendor] else EmptyPlan(r.vendor), r, x, y, z)];
      && (forall v :: v in m' <==> v in Vendors(prefix + [r]))
      && (forall v :: v in m' ==> m'[v] == PlanOf(prefix + [r], v, x, y, z))
  {
    VendorsSnoc(prefix, r);
    if r.vendor !in m {
      PlanOfAbsent(prefix, r.vendor, x, y, z);
    }
    forall u ensures PlanOf(prefix + [r], u, x, y, z) ==
      if r.vendor == u then Absorb(PlanOf(prefix, u, x, y, z), r, x, y, z) else PlanOf(prefix, u, x, y, z)
    {
      PlanOfStep(prefix, r, u, x, y, z);
    }
  }

  /** A vendor with no rows so far has the empty plan. */
  lemma PlanOfAbsent(rows: seq<PromoRow>, u: string, x: int, y: int, z: int)
    requires u !in Vendors(rows)
    ensures PlanOf(rows, u, x, y, z) == EmptyPlan(u)
  {
    VendorsMembers(rows, u);
    RowsOfMembers(rows, u);
  }

  /** The sale branch of the loop body, field by field. */
  method SaleStep(w0: VendorPlan, r: PromoRow, win: Window) returns (w: VendorPlan)
    ensures w == AbsorbSale(w0, r, win)
  {
    w := w0;
    w := w.(saleDisplayStart := if w.saleDisplayStart.None? then Some(win.start) else Some(Min(w.saleDisplayStart.value, win.start)));
    w := w.(saleDisplayEnd := if w.saleDisplayEnd.None? then Some(win.end) else Some(Max(w.saleDisplayEnd.value, win.end)));
    w := w.(saleRealStart := if w.saleRealStart.None? then Some(r.start) else Some(Min(w.saleRealStart.value, r.start)));
    var realEnd := if r.end.Some? then r.end.value else r.start;
    w := w.(saleRealEnd := if w.saleRealEnd.None? then Some(realEnd) else Some(Max(w.saleRealEnd.value, realEnd)));
  }

  /** The price-increase branch of the loop body, field by field. */
  method PriceIncreaseStep(w0: VendorPlan, r: PromoRow, win: Window) returns (w: VendorPlan)
    ensures w == AbsorbPriceIncrease(w0, r, win)
  {
    w := w0;
    w := w.(piDisplayStart := if w.piDisplayStart.None? then Some(win.start) else Some(Min(w.piDisplayStart.value, win.start)));
    w := w.(piDisplayEnd := if w.piDisplayEnd.None? then Some(win.end) else Some(Max(w.piDisplayEnd.value, win.end)));
    w := w.(piRealStart := if w.piRealStart.None? then Some(r.start) else Some(Min(w.piRealStart.value, r.start)));
    if r.end.Some? {
      w := w.(piRealEnd := if w.piRealEnd.None? then Some(r.end.value) else Some(Max(w.piRealEnd.value, r.end.value)));
    }
  }

  /** The body of the loop in `aggregate_by_vendor`: update plan `w` with row `r`. */
  method AbsorbRow(w0: VendorPlan, r: PromoRow, x: int, y: int, z: int) returns (w: VendorPlan)
    ensures w == Absorb(w0, r, x, y, z)
  {
    w := w0;
    if r.collectionId.Some? && r.collectionId.value != "" && r.collectionId.value !in w.collectionIds {
      w := w.(collectionIds := w.collectionIds + [r.collectionId.value]);
    }
    var t := CategoryOf(r.entryType);
    var win := DisplayWindow(r, x, y, z);
    if t == Sale {
      w := SaleStep(w, r, win);
    } else if t == PriceIncrease {
      w := PriceIncreaseStep(w, r, win);
    }
  }

  /**
    `aggregate_by_vendor(rows, x, y, z)`: one plan per distinct vendor string, in
    first-seen order, each the fold of that vendor's rows.
  */
  method AggregateByVendor(rows: seq<PromoRow>, x: int, y: int, z: int) returns (plans: seq<VendorPlan>)
    ensures |plans| == |Vendors(rows)|
    ensures forall k :: 0 <= k < |plans| ==> plans[k] == PlanOf(rows, Vendors(rows)[k], x, y, z)
  {
    var byVendor: map<string, VendorPlan> := map[];
    var order: seq<string> := [];
    ghost var seen: seq<PromoRow> := [];
    var i := 0;
    while i < |rows|
      invariant 0 <= i <= |rows| && seen == rows[..i]
      invariant order == Vendors(seen)
      invariant forall v :: v in byVendor <==> v in order
      invariant forall v :: v in byVendor ==> byVendor[v] == PlanOf(seen, v, x, y, z)
    {
      byVendor, order := AggregateRow(byVendor, order, seen, rows[i], x, y, z);
      TakeSnoc(rows, i);
      seen := seen + [rows[i]];
      i := i + 1;
    }
    assert seen == rows[..|rows|] == rows;
    plans := seq(|order|, k requires 0 <= k < |order| => byVendor[order[k]]);
  }

  /** The body of the aggregation loop for one row `r`, after the rows `prefix`. */
  method AggregateRow(byVendor: map<string, VendorPlan>, order: seq<string>, ghost prefix: seq<PromoRow>, r: PromoRow, x: int, y: int, z: int)
    returns (byVendor': map<string, VendorPlan>, order': seq<string>)
    requires order == Vendors(prefix)
    requires forall v :: v in byVendor <==> v in order
    requires forall v :: v in byVendor ==> byVendor[v] == PlanOf(prefix, v, x, y, z)
    ensures order' == Vendors(prefix + [r])
    ensures forall v :: v in byVendor' <==> v in order'
    ensures forall v :: v in byVendor' ==> byVendor'[v] == PlanOf(prefix + [r], v, x, y, z)
  {
    var v := r.vendor;
    var w := if v in byVendor then byVendor[v] else EmptyPlan(v);
    w := AbsorbRow(w, r, x, y, z);
    MapStep(prefix, r, byVendor, x, y, z);
    byVendor' := byVendor[v := w];
    order' := order;
    if v !in order {
      order' := order + [v];
    }
    VendorsSnoc(prefix, r);
  }

  function Min(a: int, b: int): int { if a <= b then a else b }
  function Max(a: int, b: int): int { if a >= b then a else b }

  // ---- The date fields: minima and maxima over the vendor's rows ----

  /** The eight date fields of a plan. */
  datatype DateField =
    | SaleDisplayStart | SaleDisplayEnd | PiDisplayStart | PiDisplayEnd
    | SaleRealStart | SaleRealEnd | PiRealStart | PiRealEnd

  /** Start fields keep a minimum, end fields a maximum. */
  predicate IsStartField(f: DateField) {
    f == SaleDisplayStart || f == PiDisplayStart || f == SaleRealStart || f == PiRealStart
  }

  predicate IsSaleField(f: DateField) {
    f == SaleDisplayStart || f == SaleDisplayEnd || f == SaleRealStart || f == SaleRealEnd
  }

  function Get(p: VendorPlan, f: DateField): Option<Day> {
    match f
    case SaleDisplayStart => p.saleDisplayStart
    case SaleDisplayEnd => p.saleDisplayEnd
    case PiDisplayStart => p.piDisplayStart
    case PiDisplayEnd => p.piDisplayEnd
    case SaleRealStart => p.saleRealStart
    case SaleRealEnd => p.saleRealEnd
    case PiRealStart => p.piRealStart
    case PiRealEnd => p.piRealEnd
  }

  /**
    The date one row offers to a field, or `None` when it offers none: sale rows
    feed the sale fields, price-increase rows the price-increase fields; display
    fields take the row shifted by X, Y or Z, real fields its own dates; a sale
    without an end ends at its start, and a price increase without an end offers
    no real end.
  */
  function Contribution(r: PromoRow, f: DateField, x: int, y: int, z: int): Option<Day> {
    var c := CategoryOf(r.entryType);
    match f
    case SaleDisplayStart => if c == Sale then Some(r.start - x) else None
    case SaleDisplayEnd => if c == Sale then Some(if r.end.Some? then r.end.value else r.start) else None
    case SaleRealStart => if c == Sale then Some(r.start) else None
    case SaleRealEnd => if c == Sale then Some(if r.end.Some? then r.end.value else r.start) else None
    case PiDisplayStart => if c == PriceIncrease then Some(r.start - y) else None
    case PiDisplayEnd => if c == PriceIncrease then Some(if r.end.Some? then r.end.value else r.start + z) else None
    case PiRealStart => if c == PriceIncrease then Some(r.start) else None
    case PiRealEnd => if c == PriceIncrease then r.end else None
  }

  /** Merging one offered date into an accumulated field. */
  function Merge(f: DateField, acc: Option<Day>, c: Option<Day>): Option<Day> {
    match c
    case None => acc
    case Some(d) => Some(if IsStartField(f) then Earliest(acc, d) else Latest(acc, d))
  }

  /** Each field of `Absorb(w, r)` is the field of `w` merged with what `r` offers it. */
  lemma AbsorbField(w: VendorPlan, r: PromoRow, f: DateField, x: int, y: int, z: int)
    ensures Get(Absorb(w, r, x, y, z), f) == Merge(f, Get(w, f), Contribution(r, f, x, y, z))
  {
  }

  /** The fold of one field over rows, first row first. */
  function FoldField(acc: Option<Day>, rs: seq<PromoRow>, f: DateField, x: int, y: int, z: int): Option<Day> {
    if rs == [] then acc else Merge(f, FoldField(acc, rs[..|rs| - 1], f, x, y, z), Contribution(rs[|rs| - 1], f, x, y, z))
  }

  lemma {:induction false} FoldRowsField(w: VendorPlan, rs: seq<PromoRow>, f: DateField, x: int, y: int, z: int)
    ensures Get(FoldRows(w, rs, x, y, z), f) == FoldField(Get(w, f), rs, f, x, y, z)
  {
    if rs != [] {
      FoldRowsField(w, rs[..|rs| - 1], f, x, y, z);
      AbsorbField(FoldRows(w, rs[..|rs| - 1], x, y, z), rs[|rs| - 1], f, x, y, z);
    }
  }

  /** `m` bounds `d` on the side the field keeps: below for a start, above for an end. */
  predicate Bounds(f: DateField, m: Day, d: Day) {
    if IsStartField(f) then m <= d else m >= d
  }

  /** A merge keeps the accumulated date or takes the offered one. */
  lemma MergeChoice(f: DateField, acc: Option<Day>, c: Option<Day>)
    ensures Merge(f, acc, c) == acc || (c.Some? && Merge(f, acc, c) == c)
  {
  }

  /** Folding a field from `None` gives `None` exactly when no row offers a date. */
  lemma {:induction false} FoldFieldNone(rs: seq<PromoRow>, f: DateField, x: int, y: int, z: int)
    ensures FoldField(None, rs, f, x, y, z).None? <==> forall r :: r in rs ==> Contribution(r, f, x, y, z).None?
  {
    if rs != [] {
      var init := rs[..|rs| - 1];
      FoldFieldNone(init, f, x, y, z);
      assert rs == init + [rs[|rs| - 1]];
    }
  }

  /** A folded field that is set holds a date some row offers. */
  lemma {:induction false} FoldFieldAttained(rs: seq<PromoRow>, f: DateField, x: int, y: int, z: int)
    requires FoldField(None, rs, f, x, y, z).Some?
    ensures exists r :: r in rs && Contribution(r, f, x, y, z) == FoldField(None, rs, f, x, y, z)
  {
    var init := rs[..|rs| - 1];
    var last := rs[|rs| - 1];
    assert rs == init + [last];
    var acc := FoldField(None, init, f, x, y, z);
    var c := Contribution(last, f, x, y, z);
    MergeChoice(f, acc, c);
    if c.Some? && FoldField(None, rs, f, x, y, z) == c {
      assert last in rs;
    } else {
      FoldFieldAttained(init, f, x, y, z);
      var w :| w in init && Contribution(w, f, x, y, z) == acc;
      assert w in rs;
    }
  }

  /** A folded field bounds every date the rows offer it: from below for a start, from above for an end. */
  lemma {:induction false} FoldFieldBounds(rs: seq<PromoRow>, f: DateField, x: int, y: int, z: int)
    ensures forall r :: r in rs && Contribution(r, f, x, y, z).Some? ==>
      FoldField(None, rs, f, x, y, z).Some? &&
      Bounds(f, FoldField(None, rs, f, x, y, z).value, Contribution(r, f, x, y, z).value)
  {
    if rs != [] {
      var init := rs[..|rs| - 1];
      FoldFieldBounds(init, f, x, y, z);
      assert rs == init + [rs[|rs| - 1]];
    }
  }

  /**
    Every date field of a vendor's plan is `None` exactly when none of the
    vendor's rows offers that field a date, and otherwise is a date one of those
    rows offers and the minimum (start fields) or maximum (end fields) of all of
    them.
  */
  lemma PlanFieldIsExtreme(rows: seq<PromoRow>, v: string, f: DateField, x: int, y: int, z: int)
    ensures Get(PlanOf(rows, v, x, y, z), f).None? <==>
      forall r :: r in rows && r.vendor == v ==> Contribution(r, f, x, y, z).None?
    ensures Get(PlanOf(rows, v, x, y, z), f).Some? ==>
      exists r :: r in rows && r.vendor == v && Contribution(r, f, x, y, z) == Get(PlanOf(rows, v, x, y, z), f)
    ensures forall r :: r in rows && r.vendor == v && Contribution(r, f, x, y, z).Some? ==>
      Bounds(f, Get(PlanOf(rows, v, x, y, z), f).value, Contribution(r, f, x, y, z).value)
  {
    var rs := RowsOf(rows, v);
    FoldRowsField(EmptyPlan(v), rs, f, x, y, z);
    assert Get(EmptyPlan(v), f) == None;
    FoldFieldNone(rs, f, x, y, z);
    if FoldField(None, rs, f, x, y, z).Some? {
      FoldFieldAttained(rs, f, x, y, z);
    }
    FoldFieldBounds(rs, f, x, y, z);
    RowsOfMembers(rows, v);
  }

  /**
    The date fields do not depend on row order: two row lists holding the same
    rows give every vendor the same dates.
  */
  lemma PlanDatesOrderIndependent(rows1: seq<PromoRow>, rows2: seq<PromoRow>, v: string, f: DateField, x: int, y: int, z: int)
    requires multiset(rows1) == multiset(rows2)
    ensures Get(PlanOf(rows1, v, x, y, z), f) == Get(PlanOf(rows2, v, x, y, z), f)
  {
    PlanFieldIsExtreme(rows1, v, f, x, y, z);
    PlanFieldIsExtreme(rows2, v, f, x, y, z);
    var m1 := Get(PlanOf(rows1, v, x, y, z), f);
    var m2 := Get(PlanOf(rows2, v, x, y, z), f);
    assert forall r :: r in rows1 <==> r in rows2 by {
      forall r ensures r in rows1 <==> r in rows2 {
        assert r in rows1 <==> r in multiset(rows1);
        assert r in rows2 <==> r in multiset(rows2);
      }
    }
    if m1.Some? && m2.Some? {
      var r1 :| r1 in rows1 && r1.vendor == v && Contribution(r1, f, x, y, z) == m1;
      var r2 :| r2 in rows2 && r2.vendor == v && Contribution(r2, f, x, y, z) == m2;
      assert Bounds(f, m1.value, m2.value) && Bounds(f, m2.value, m1.value);
    }
  }

  /**
    Sale and price-increase fields never interact: a row of one category (or of
    neither) leaves the other category's fields as they were.
  */
  lemma CategoriesIndependent(w: VendorPlan, r: PromoRow, f: DateField, x: int, y: int, z: int)
    requires (IsSaleField(f) && CategoryOf(r.entryType) != Sale)
      || (!IsSaleField(f) && CategoryOf(r.entryType) != PriceIncrease)
    ensures Get(Absorb(w, r, x, y, z), f) == Get(w, f)
  {
    AbsorbField(w, r, f, x, y, z);
  }

  /** A row of any other entry type changes no date, and only its collection id may be added. */
  lemma OtherTypeAddsOnlyCollectionId(w: VendorPlan, r: PromoRow, x: int, y: int, z: int)
    requires CategoryOf(r.entryType) == OtherType
    ensures forall f :: Get(Absorb(w, r, x, y, z), f) == Get(w, f)
    ensures Absorb(w, r, x, y, z).vendor == w.vendor
    ensures Absorb(w, r, x, y, z).collectionIds == AddCollectionId(w.collectionIds, r.collectionId)
  {
    forall f ensures Get(Absorb(w, r, x, y, z), f) == Get(w, f) {
      AbsorbField(w, r, f, x, y, z);
    }
  }

  /**
    The display and real fields of one category are set together: a vendor has
    a sale display window iff it has real sale dates iff one of its rows is a
    sale; likewise for price increases, whose real end alone may stay `None`.
  */
  lemma PlanFieldsSetTogether(rows: seq<PromoRow>, v: string, x: int, y: int, z: int)
    ensures var p := PlanOf(rows, v, x, y, z);
      var hasSale := exists r :: r in rows && r.vendor == v && CategoryOf(r.entryType) == Sale;
      var hasPi := exists r :: r in rows && r.vendor == v && CategoryOf(r.entryType) == PriceIncrease;
      && (p.saleDisplayStart.Some? <==> hasSale) && (p.saleDisplayEnd.Some? <==> hasSale)
      && (p.saleRealStart.Some? <==> hasSale) && (p.saleRealEnd.Some? <==> hasSale)
      && (p.piDisplayStart.Some? <==> hasPi) && (p.piDisplayEnd.Some? <==> hasPi)
      && (p.piRealStart.Some? <==> hasPi) && (p.piRealEnd.Some? ==> hasPi)
  {
    SaleFieldsSetTogether(rows, v, x, y, z);
    PiFieldsSetTogether(rows, v, x, y, z);
  }

  /** The four sale fields are set exactly when the vendor has a sale row. */
  lemma SaleFieldsSetTogether(rows: seq<PromoRow>, v: string, x: int, y: int, z: int)
    ensures var p := PlanOf(rows, v, x, y, z);
      var hasSale := exists r :: r in rows && r.vendor == v && CategoryOf(r.entryType) == Sale;
      && (p.saleDisplayStart.Some? <==> hasSale) && (p.saleDisplayEnd.Some? <==> hasSale)
      && (p.saleRealStart.Some? <==> hasSale) && (p.saleRealEnd.Some? <==> hasSale)
  {
    var p := PlanOf(rows, v, x, y, z);
    assert Get(p, SaleDisplayStart) == p.saleDisplayStart && Get(p, SaleDisplayEnd) == p.saleDisplayEnd;
    assert Get(p, SaleRealStart) == p.saleRealStart && Get(p, SaleRealEnd) == p.saleRealEnd;
    FieldSetIff(rows, v, SaleDisplayStart, Sale, x, y, z);
    FieldSetIff(rows, v, SaleDisplayEnd, Sale, x, y, z);
    FieldSetIff(rows, v, SaleRealStart, Sale, x, y, z);
    FieldSetIff(rows, v, SaleRealEnd, Sale, x, y, z);
  }

  /** Three price-increase fields are set exactly when the vendor has a price-increase row; the real end only then. */
  lemma PiFieldsSetTogether(rows: seq<PromoRow>, v: string, x: int, y: int, z: int)
    ensures var p := PlanOf(rows, v, x, y, z);
      var hasPi := exists r :: r in rows && r.vendor == v && CategoryOf(r.entryType) == PriceIncrease;
      && (p.piDisplayStart.Some? <==> hasPi) && (p.piDisplayEnd.Some? <==> hasPi)
      && (p.piRealStart.Some? <==> hasPi) && (p.piRealEnd.Some? ==> hasPi)
  {
    var p := PlanOf(rows, v, x, y, z);
    assert Get(p, PiDisplayStart) == p.piDisplayStart && Get(p, PiDisplayEnd) == p.piDisplayEnd;
    assert Get(p, PiRealStart) == p.piRealStart && Get(p, PiRealEnd) == p.piRealEnd;
    FieldSetIff(rows, v, PiDisplayStart, PriceIncrease, x, y, z);
    FieldSetIff(rows, v, PiDisplayEnd, PriceIncrease, x, y, z);
    FieldSetIff(rows, v, PiRealStart, PriceIncrease, x, y, z);
    PlanFieldIsExtreme(rows, v, PiRealEnd, x, y, z);
  }

  /** A field other than the price-increase real end is set exactly when the vendor has a row of its category. */
  lemma FieldSetIff(rows: seq<PromoRow>, v: string, f: DateField, cat: Category, x: int, y: int, z: int)
    requires f != PiRealEnd && cat == (if IsSaleField(f) then Sale else PriceIncrease)
    ensures Get(PlanOf(rows, v, x, y, z), f).Some? <==>
      exists r :: r in rows && r.vendor == v && CategoryOf(r.entryType) == cat
  {
    PlanFieldIsExtreme(rows, v, f, x, y, z);
    assert forall r :: Contribution(r, f, x, y, z).Some? <==> CategoryOf(r.entryType) == cat;
  }

  // ---- Collection ids ----

  lemma {:induction false} FoldRowsIds(w: VendorPlan, rs: seq<PromoRow>, x: int, y: int, z: int)
    requires Distinct(w.collectionIds) && forall c :: c in w.collectionIds ==> c != ""
    ensures var ids := FoldRows(w, rs, x, y, z).collectionIds;
      && Distinct(ids)
      && w.collectionIds <= ids
      && forall c :: c in ids <==> c in w.collectionIds || (c != "" && exists r :: r in rs && r.collectionId == Some(c))
  {
    if rs != [] {
      var init := rs[..|rs| - 1];
      var last := rs[|rs| - 1];
      FoldRowsIds(w, init, x, y, z);
      AbsorbIds(FoldRows(w, init, x, y, z), last, x, y, z);
      assert rs == init + [last];
      forall c ensures (exists r :: r in init && r.collectionId == Some(c)) ==> exists r :: r in rs && r.collectionId == Some(c) {
        if r :| r in init && r.collectionId == Some(c) {
          assert r in rs;
        }
      }
      forall c | exists r :: r in rs && r.collectionId == Some(c)
        ensures (exists r :: r in init && r.collectionId == Some(c)) || last.collectionId == Some(c)
      {
        var r :| r in rs && r.collectionId == Some(c);
        if r != last {
          assert r in init;
        }
      }
    }
  }

  /**
    A vendor's `collection_ids` are distinct and non-empty, and are exactly the
    non-empty collection ids on that vendor's rows.
  */
  lemma PlanCollectionIds(rows: seq<PromoRow>, v: string, x: int, y: int, z: int)
    ensures var ids := PlanOf(rows, v, x, y, z).collectionIds;
      && Distinct(ids)
      && (forall c :: c in ids ==> c != "")
      && (forall c :: c in ids <==> c != "" && exists r :: r in rows && r.vendor == v && r.collectionId == Some(c))
      && ids == Dedupe(RowCollectionIds(RowsOf(rows, v)))
  {
    FoldRowsIds(EmptyPlan(v), RowsOf(rows, v), x, y, z);
    FoldRowsIdsOrder(EmptyPlan(v), RowsOf(rows, v), x, y, z);
    RowsOfMembers(rows, v);
  }

  /** The non-empty collection ids of the rows, row after row, repeats included. */
  function RowCollectionIds(rs: seq<PromoRow>): seq<string> {
    if rs == [] then []
    else
      var c := rs[|rs| - 1].collectionId;
      RowCollectionIds(rs[..|rs| - 1]) + (if c.Some? && c.value != "" then [c.value] else [])
  }

  /**
    From a plan without ids, the fold lists the rows' non-empty collection ids
    once each, in the order their first rows come (see `DedupeFirstSeen`).
  */
  lemma {:induction false} FoldRowsIdsOrder(w: VendorPlan, rs: seq<PromoRow>, x: int, y: int, z: int)
    requires w.collectionIds == []
    ensures FoldRows(w, rs, x, y, z).collectionIds == Dedupe(RowCollectionIds(rs))
  {
    if rs != [] {
      var init := rs[..|rs| - 1];
      var last := rs[|rs| - 1];
      var before := FoldRows(w, init, x, y, z);
      FoldRowsIdsOrder(w, init, x, y, z);
      AbsorbIds(before, last, x, y, z);
      assert FoldRows(w, rs, x, y, z) == Absorb(before, last, x, y, z);
      var c := last.collectionId;
      var prev := RowCollectionIds(init);
      if c.Some? && c.value != "" {
        assert RowCollectionIds(rs) == prev + [c.value];
        DedupeSnoc(prev, c.value);
      } else {
        assert RowCollectionIds(rs) == prev + [];
        assert prev + [] == prev;
      }
    }
  }

  /** Plans are keyed by the exact vendor string: the vendor list has no repeats and holds every row's vendor. */
  lemma {:induction false} VendorsDistinct(rows: seq<PromoRow>)
    ensures Distinct(Vendors(rows))
    ensures forall v :: v in Vendors(rows) <==> exists r :: r in rows && r.vendor == v
  {
    if rows != [] {
      VendorsDistinct(rows[..|rows| - 1]);
      forall v ensures v in Vendors(rows) <==> exists r :: r in rows && r.vendor == v {
        VendorsMembers(rows, v);
      }
    }
  }

  /** Vendors come out in the order of their first row: an earlier plan's vendor first appears earlier. */
  lemma {:induction false} VendorsFirstSeenOrder(rows: seq<PromoRow>, a: nat, b: nat, j: nat)
    requires a < b < |Vendors(rows)|
    requires j < |rows| && rows[j].vendor == Vendors(rows)[b]
    ensures exists i :: 0 <= i < j && rows[i].vendor == Vendors(rows)[a]
  {
    var init := rows[..|rows| - 1];
    var last := rows[|rows| - 1];
    VendorsMembers(init, Vendors(rows)[a]);
    if j == |rows| - 1 {
      // `last` is new or already listed; either way the earlier vendor was seen in `init`
      if b < |Vendors(init)| {
        VendorsMembers(init, Vendors(rows)[b]);
        var k :| k in init && k.vendor == Vendors(rows)[b];
        var kk :| 0 <= kk < |init| && init[kk] == k;
        VendorsFirstSeenOrder(init, a, b, kk);
        var i :| 0 <= i < kk && init[i].vendor == Vendors(rows)[a];
        assert rows[i] == init[i];
      } else {
        assert Vendors(rows)[a] in Vendors(init);
        var k :| k in init && k.vendor == Vendors(rows)[a];
        var i :| 0 <= i < |init| && init[i] == k;
        assert rows[i] == init[i];
      }
    } else {
      assert rows[j] == init[j];
      VendorsMembers(init, rows[j].vendor);
      assert rows[j] in init;
      assert b < |Vendors(init)|;
      VendorsFirstSeenOrder(init, a, b, j);
      var i :| 0 <= i < j && init[i].vendor == Vendors(rows)[a];
      assert rows[i] == init[i];
    }
  }

  // ---- Reading rows (`fetch_active_today`) ----

  /** A row as the database driver returns it, before cleaning. `collectionId` is the text `str()` gives. */
  datatype RawPromo = RawPromo(
    id: int,
    vendor: Option<string>,
    collectionId: Option<string>,
    entryType: Option<string>,
    start: DbValue,
    end: DbValue)

  /**
    One iteration of the row loop: strip the vendor, the collection id (empty
    becomes `None`) and the entry type, read both dates, and skip the row when
    the vendor, the entry type or the start date is missing.
  */
  function ReadRow(raw: RawPromo, laterFormats: string -> Option<Day>): Option<PromoRow> {
    var vendor := Strip(raw.vendor.GetOr(""));
    var cid := CleanCollectionId(raw.collectionId);
    var entryType := Strip(raw.entryType.GetOr(""));
    var s := ToDateOnly(raw.start, laterFormats);
    var e := ToDateOnly(raw.end, laterFormats);
    if vendor == "" || entryType == "" || s.None? then None
    else Some(PromoRow(raw.id, vendor, cid, entryType, s.value, e))
  }

  /** A collection id stripped, or `None` when it is missing or blank. */
  function CleanCollectionId(c: Option<string>): Option<string> {
    if c.Some? && Strip(c.value) != "" then Some(Strip(c.value)) else None
  }

  /** The rows kept from `raws`, in order. */
  function ReadAll(raws: seq<RawPromo>, laterFormats: string -> Option<Day>): seq<PromoRow> {
    if raws == [] then []
    else
      var rest := ReadAll(raws[..|raws| - 1], laterFormats);
      match ReadRow(raws[|raws| - 1], laterFormats)
      case Some(r) => rest + [r]
      case None => rest
  }

  lemma ReadAllSnoc(raws: seq<RawPromo>, raw: RawPromo, laterFormats: string -> Option<Day>)
    ensures ReadAll(raws + [raw], laterFormats) ==
      ReadAll(raws, laterFormats) + (if ReadRow(raw, laterFormats).Some? then [ReadRow(raw, laterFormats).value] else [])
  {
    assert (raws + [raw])[..|raws|] == raws;
  }

  lemma ReadAllStep(raws: seq<RawPromo>, i: nat, laterFormats: string -> Option<Day>)
    requires i < |raws|
    ensures ReadAll(raws[..i + 1], laterFormats) ==
      ReadAll(raws[..i], laterFormats) + (if ReadRow(raws[i], laterFormats).Some? then [ReadRow(raws[i], laterFormats).value] else [])
  {
    assert raws[..i + 1] == raws[..i] + [raws[i]];
    ReadAllSnoc(raws[..i], raws[i], laterFormats);
  }

  /** The body of the row loop: clean one raw row, or skip it (`None`). */
  method CleanRaw(raw: RawPromo, laterFormats: string -> Option<Day>) returns (row: Option<PromoRow>)
    ensures row == ReadRow(raw, laterFormats)
  {
    row := None;
    var vendor := Strip(raw.vendor.GetOr(""));
    var collectionId := CleanCollectionId(raw.collectionId);
    var entryType := Strip(raw.entryType.GetOr(""));
    var s := ToDateOnly(raw.start, laterFormats);
    var e := ToDateOnly(raw.end, laterFormats);
    if vendor != "" && entryType != "" && s.Some? {
      row := Some(PromoRow(raw.id, vendor, collectionId, entryType, s.value, e));
    }
  }

  /** The loop of `fetch_active_today` after the query. */
  method ReadRows(raws: seq<RawPromo>, laterFormats: string -> Option<Day>) returns (rows: seq<PromoRow>)
    ensures rows == ReadAll(raws, laterFormats)
  {
    rows := [];
    var i := 0;
    while i < |raws|
      invariant 0 <= i <= |raws|
      invariant rows == ReadAll(raws[..i], laterFormats)
    {
      var raw := raws[i];
      ReadAllStep(raws, i, laterFormats);
      var row := CleanRaw(raw, laterFormats);
      if row.Some? {
        rows := rows + [row.value];
      }
      i := i + 1;
    }
    assert raws[..i] == raws;
  }

  /** A row that is read has a stripped non-empty vendor and entry type, and a collection id that is stripped and non-empty when present. */
  predicate CleanRow(r: PromoRow) {
    && r.vendor != "" && Strip(r.vendor) == r.vendor
    && r.entryType != "" && Strip(r.entryType) == r.entryType
    && (r.collectionId.Some? ==> r.collectionId.value != "" && Strip(r.collectionId.value) == r.collectionId.value)
  }

  /**
    Every row read is clean, and comes from a raw row of the input that reads
    to it, whose start date converts to the row's start.
  */
  lemma {:induction false} ReadAllClean(raws: seq<RawPromo>, laterFormats: string -> Option<Day>)
    ensures forall r :: r in ReadAll(raws, laterFormats) ==> CleanRow(r)
    ensures forall r :: r in ReadAll(raws, laterFormats) ==> ReadFrom(r, raws, laterFormats)
    ensures |ReadAll(raws, laterFormats)| <= |raws|
  {
    if raws != [] {
      var init := raws[..|raws| - 1];
      ReadAllClean(init, laterFormats);
      var last := raws[|raws| - 1];
      ReadRowClean(last, laterFormats);
      var rest := ReadAll(init, laterFormats);
      forall r | r in ReadAll(raws, laterFormats) ensures CleanRow(r) {
        assert r in rest || r == ReadRow(last, laterFormats).value;
      }
      ReadAllFromStep(raws, init, laterFormats);
    }
  }

  /** The inductive step of provenance: rows read from the prefix, and the last row's read, come from `raws`. */
  lemma ReadAllFromStep(raws: seq<RawPromo>, init: seq<RawPromo>, laterFormats: string -> Option<Day>)
    requires raws != [] && init == raws[..|raws| - 1]
    requires forall r :: r in ReadAll(init, laterFormats) ==> ReadFrom(r, init, laterFormats)
    ensures forall r :: r in ReadAll(raws, laterFormats) ==> ReadFrom(r, raws, laterFormats)
  {
    var last := raws[|raws| - 1];
    var rest := ReadAll(init, laterFormats);
    forall r | r in ReadAll(raws, laterFormats) ensures ReadFrom(r, raws, laterFormats) {
      if r in rest {
        ReadFromWider(r, init, raws, laterFormats);
      } else {
        assert ReadRow(last, laterFormats) == Some(r);
        assert last in raws;
      }
    }
  }

  /** `r` is what some raw row of `raws` reads to, with that raw row's start date. */
  predicate ReadFrom(r: PromoRow, raws: seq<RawPromo>, laterFormats: string -> Option<Day>) {
    exists raw :: raw in raws && ReadRow(raw, laterFormats) == Some(r) && ToDateOnly(raw.start, laterFormats) == Some(r.start)
  }

  lemma ReadFromWider(r: PromoRow, init: seq<RawPromo>, raws: seq<RawPromo>, laterFormats: string -> Option<Day>)
    requires ReadFrom(r, init, laterFormats)
    requires forall raw :: raw in init ==> raw in raws
    ensures ReadFrom(r, raws, laterFormats)
  {
    var raw :| raw in init && ReadRow(raw, laterFormats) == Some(r) && ToDateOnly(raw.start, laterFormats) == Some(r.start);
    assert raw in raws;
  }

  /** A row read from a raw row is clean. */
  lemma ReadRowClean(raw: RawPromo, laterFormats: string -> Option<Day>)
    ensures ReadRow(raw, laterFormats).Some? ==> CleanRow(ReadRow(raw, laterFormats).value)
  {
    var r := ReadRow(raw, laterFormats);
    if r.Some? {
      assert r.value.vendor == Strip(raw.vendor.GetOr(""));
      assert r.value.entryType == Strip(raw.entryType.GetOr(""));
      assert r.value.collectionId == CleanCollectionId(raw.collectionId);
      StripIdempotent(raw.vendor.GetOr(""));
      StripIdempotent(raw.entryType.GetOr(""));
      CleanCollectionIdClean(raw.collectionId);
    }
  }

  lemma CleanCollectionIdClean(c: Option<string>)
    ensures CleanCollectionId(c).Some? ==> CleanCollectionId(c).value != "" && Strip(CleanCollectionId(c).value) == CleanCollectionId(c).value
  {
    if c.Some? {
      StripIdempotent(c.value);
    }
  }

  // ---- The SQL pre-filter (the WHERE clause of the query) ----

  /** `LTRIM`: SQL Server removes leading space characters only. */
  function SqlTrimLeft(s: string): (r: string)
    ensures |r| <= |s| && r == s[|s| - |r|..]
    ensures forall i :: 0 <= i < |s| - |r| ==> s[i] == ' '
    ensures r != [] ==> r[0] != ' '
  {
    if s != [] && s[0] == ' ' then SqlTrimLeft(s[1..]) else s
  }

  /** `RTRIM`: SQL Server removes trailing space characters only. */
  function SqlTrimRight(s: string): (r: string)
    ensures |r| <= |s| && r == s[..|r|]
    ensures forall i :: |r| <= i < |s| ==> s[i] == ' '
    ensures r != [] ==> r[|r| - 1] != ' '
  {
    if s != [] && s[|s| - 1] == ' ' then SqlTrimRight(s[..|s| - 1]) else s
  }

  /** `LTRIM(RTRIM(s))`. */
  function SqlTrim(s: string): string {
    SqlTrimLeft(SqlTrimRight(s))
  }

  /**
    `LTRIM(RTRIM(EntryType)) = 'Sale'` (or `'Price Increase'`) under the
    server's case-insensitive collation: the trimmed text, lower-cased, is the
    lower-case literal `lit`. A case-sensitive collation accepts fewer rows, and
    everything proved below still holds for them.
  */
  predicate SqlTypeIs(entryType: string, lit: string) {
    Lower(SqlTrim(entryType)) == lit
  }

  /** The WHERE clause: rows whose display window contains `today`, with dates as `TRY_CONVERT(date, ...)` gives them. */
  predicate PreFilter(entryType: string, start: Option<Day>, end: Option<Day>, today: Day, x: int, y: int, z: int) {
    || (&& SqlTypeIs(entryType, "sale")
        && start.Some? && end.Some?
        && start.value - x <= today
        && end.value >= today)
    || (&& SqlTypeIs(entryType, "price increase")
        && start.Some?
        && start.value - y <= today
        && (if end.Some? then end.value else start.value + z) >= today)
  }

  /** `LTRIM(RTRIM(s))` removes space padding, and only space padding. */
  lemma SqlTrimSplit(s: string) returns (sp1: string, sp2: string)
    ensures AllSpace(sp1) && AllSpace(sp2) && s == sp1 + SqlTrim(s) + sp2
  {
    var rr := SqlTrimRight(s);
    var t := SqlTrimLeft(rr);
    sp1 := SqlLeading(rr);
    sp2 := SqlTrailing(s);
    assert s == sp1 + t + sp2;
  }

  /** The spaces `LTRIM` removes. */
  lemma SqlLeading(s: string) returns (sp: string)
    ensures AllSpace(sp) && s == sp + SqlTrimLeft(s)
  {
    var t := SqlTrimLeft(s);
    sp := s[..|s| - |t|];
    forall k | 0 <= k < |sp| ensures IsSpace(sp[k]) {
      assert sp[k] == s[k] == ' ';
    }
    assert s == sp + s[|s| - |t|..];
  }

  /** The spaces `RTRIM` removes. */
  lemma SqlTrailing(s: string) returns (sp: string)
    ensures AllSpace(sp) && s == SqlTrimRight(s) + sp
  {
    var t := SqlTrimRight(s);
    sp := s[|t|..];
    forall k | 0 <= k < |sp| ensures IsSpace(sp[k]) {
      assert sp[k] == s[|t| + k] == ' ';
    }
    assert s == s[..|t|] + sp;
  }

  /** A character whose lower case is not whitespace is not whitespace. */
  lemma LowerKeepsNonSpace(c: char)
    requires !IsSpace(LowerChar(c))
    ensures !IsSpace(c)
  {
  }

  /**
    A text the database compares equal to `lit`, where `lit` is lower-case
    words joined by single spaces, is read by the script as `lit` once
    stripped and normalised.
  */
  lemma SqlMatchNormalizes(raw: string, lit: string, ws: seq<string>)
    requires ws != [] && forall k :: 0 <= k < |ws| ==> IsWord(ws[k]) && NoUpper(ws[k])
    requires JoinWith(" ", ws) == lit
    requires SqlTypeIs(raw, lit)
    ensures Normalize(Strip(raw)) == lit
  {
    var t := SqlTrim(raw);
    var sp1, sp2 := SqlTrimSplit(raw);
    JoinIsNormalized(ws);
    assert lit != [] && !IsSpace(lit[0]) && !IsSpace(lit[|lit| - 1]);
    assert t != [] && LowerChar(t[0]) == lit[0] && LowerChar(t[|t| - 1]) == lit[|lit| - 1];
    LowerKeepsNonSpace(t[0]);
    LowerKeepsNonSpace(t[|t| - 1]);
    StripPadded(sp1, t, sp2);
    WordsOfJoin(ws);
  }

  /**
    Every row the database returns is one the script treats as shown today: its
    entry type normalises to "sale" or "price increase", and its display window
    contains `today`.
  */
  lemma SqlSaleIsSale(raw: string)
    requires SqlTypeIs(raw, "sale")
    ensures CategoryOf(Strip(raw)) == Sale
  {
    SaleWords();
    SqlMatchNormalizes(raw, "sale", ["sale"]);
  }

  lemma SaleWords()
    ensures JoinWith(" ", ["sale"]) == "sale"
    ensures forall k :: 0 <= k < 1 ==> IsWord(["sale"][k]) && NoUpper(["sale"][k])
  {
  }

  lemma SqlPriceIncreaseIsPriceIncrease(raw: string)
    requires SqlTypeIs(raw, "price increase")
    ensures CategoryOf(Strip(raw)) == PriceIncrease
  {
    PriceIncreaseWords();
    SqlMatchNormalizes(raw, "price increase", ["price", "increase"]);
  }

  lemma PriceIncreaseWords()
    ensures JoinWith(" ", ["price", "increase"]) == "price increase"
    ensures forall k :: 0 <= k < 2 ==> IsWord(["price", "increase"][k]) && NoUpper(["price", "increase"][k])
  {
    assert JoinWith(" ", ["price", "increase"]) == "price" + " " + JoinWith(" ", ["increase"]);
  }

  lemma PreFilterShowsToday(raw: string, start: Day, end: Option<Day>, today: Day, x: int, y: int, z: int, id: int, vendor: string, cid: Option<string>)
    requires PreFilter(raw, Some(start), end, today, x, y, z)
    ensures var r := PromoRow(id, vendor, cid, Strip(raw), start, end);
      && CategoryOf(r.entryType) != OtherType
      && DisplayWindow(r, x, y, z).start <= today <= DisplayWindow(r, x, y, z).end
  {
    if SqlTypeIs(raw, "sale") {
      SqlSaleIsSale(raw);
    } else {
      SqlPriceIncreaseIsPriceIncrease(raw);
    }
  }
}
