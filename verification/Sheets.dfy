/** The stock sheet and its movement ledger (store/app/catalog/sheets.py): what one inventory
    mutation computes, as a function of the sheet before it. */
module Sheets {
  import opened Common

  type Sku = string
  type OrderId = string

  datatype Direction = Deduct | Restore

  function Sign(dir: Direction): int {
    if dir == Deduct then -1 else 1
  }

  /** Each order owns two operation ids. */
  datatype OpId = ReserveOp(order: OrderId) | ReleaseOp(order: OrderId)

  /** One order line. `details` is the product name and size, which the ledger ignores.
      Prices are integer cents. */
  datatype Item = Item(sku: Sku, quantity: int, unitPrice: Option<int>, details: string)

  /** One row of the product sheet. */
  datatype Product = Product(sku: Sku, stock: int, active: bool, price: Option<int>)

  /** One row of the append-only ledger, without its timestamp. */
  datatype Movement = Movement(op: OpId, kind: Direction, sku: Sku, quantity: int, before: int, after: int)

  /** What goes wrong with the remote calls of one mutation. */
  datatype Fault = NoFault | FailBeforeRead | FailBeforeCommit | FailAfterCommit

  datatype Error =
    | InvalidItem
    | Unavailable
    | DuplicateSku
    | UnknownSku(sku: Sku)
    | InactiveSku(sku: Sku)
    | PriceChanged(sku: Sku)
    | InsufficientStock(sku: Sku)
    | IncompleteEntry
    | MismatchedEntry
    | MissingSku

  /** Durable rows and ledger, and the ledger copy this process holds. */
  datatype Sheet = Sheet(rows: seq<Product>, ledger: seq<Movement>, cache: Option<seq<Movement>>)

  /** The in-process ledger copy, when there is one, shows the durable ledger. */
  predicate Coherent(sh: Sheet) {
    sh.cache.Some? ==> sh.cache.value == sh.ledger
  }

  // ---------------------------------------------------------------- the request

  predicate ValidItems(items: seq<Item>) {
    forall i :: 0 <= i < |items| ==> items[i].sku != "" && items[i].quantity > 0
  }

  /** The requested SKUs in order of first appearance. */
  function Skus(items: seq<Item>): seq<Sku> {
    if items == [] then []
    else
      var front := Skus(items[..|items| - 1]);
      var sku := items[|items| - 1].sku;
      if sku in front then front else front + [sku]
  }

  /** The quantity requested for a SKU: its repeated lines add up. */
  function Total(items: seq<Item>, sku: Sku): int {
    if items == [] then 0
    else
      var last := items[|items| - 1];
      Total(items[..|items| - 1], sku) + (if last.sku == sku then last.quantity else 0)
  }

  lemma {:induction false} SkusDistinct(items: seq<Item>)
    ensures Distinct(Skus(items))
    ensures forall sku :: sku in Skus(items) <==> exists i :: 0 <= i < |items| && items[i].sku == sku
  {
    if items != [] {
      var n := |items| - 1;
      SkusDistinct(items[..n]);
      forall i | 0 <= i < |items|
        ensures items[i].sku in Skus(items)
      {
        if i < n {
          assert items[..n][i].sku in Skus(items[..n]);
        }
      }
      forall sku | sku in Skus(items)
        ensures exists i :: 0 <= i < |items| && items[i].sku == sku
      {
        if sku in Skus(items[..n]) {
          var i :| 0 <= i < n && items[..n][i].sku == sku;
          assert items[i].sku == sku;
        } else {
          assert items[n].sku == sku;
        }
      }
    }
  }

  lemma SkusNonEmpty(items: seq<Item>)
    ensures items != [] ==> |Skus(items)| > 0
  {
  }

  lemma {:induction false} TotalPositive(items: seq<Item>, sku: Sku)
    requires ValidItems(items)
    ensures sku in Skus(items) ==> Total(items, sku) > 0
    ensures sku !in Skus(items) ==> Total(items, sku) == 0
    ensures Total(items, "") == 0
  {
    if items != [] {
      var n := |items| - 1;
      assert ValidItems(items[..n]);
      TotalPositive(items[..n], sku);
      TotalPositive(items[..n], items[n].sku);
    }
  }

  // ---------------------------------------------------------------- the rows

  predicate HasDuplicate(rows: seq<Product>) {
    exists i, j :: 0 <= i < j < |rows| && rows[i].sku == rows[j].sku && rows[i].sku != ""
  }

  /** The first row of a SKU. */
  function RowOf(rows: seq<Product>, sku: Sku): (r: Option<nat>)
    ensures r.Some? ==> r.value < |rows| && rows[r.value].sku == sku
  {
    if rows == [] then None
    else if rows[0].sku == sku then Some(0)
    else
      var rest := RowOf(rows[1..], sku);
      if rest.Some? then Some(rest.value + 1) else None
  }

  lemma {:induction false} RowOfFinds(rows: seq<Product>, i: nat)
    requires i < |rows|
    ensures RowOf(rows, rows[i].sku).Some?
  {
    if rows[0].sku != rows[i].sku {
      RowOfFinds(rows[1..], i - 1);
    }
  }

  function StockOf(rows: seq<Product>, sku: Sku): int {
    var r := RowOf(rows, sku);
    if r.Some? then rows[r.value].stock else 0
  }

  /** The price the order expects of a SKU: its first line that carries one. */
  function ExpectedPrice(items: seq<Item>, sku: Sku): Option<int> {
    if items == [] then None
    else if items[0].sku == sku && items[0].unitPrice.Some? then items[0].unitPrice
    else ExpectedPrice(items[1..], sku)
  }

  /** Prices agree within one cent. */
  predicate PriceAgrees(current: Option<int>, expected: Option<int>) {
    expected.Some? ==> current.Some? && -1 <= current.value - expected.value <= 1
  }

  /** Why one requested SKU cannot move, if it cannot. */
  function Problem(rows: seq<Product>, items: seq<Item>, dir: Direction, sku: Sku): Option<Error> {
    var r := RowOf(rows, sku);
    if r.None? then Some(UnknownSku(sku))
    else
      var row := rows[r.value];
      if dir == Deduct && !row.active then Some(InactiveSku(sku))
      else if dir == Deduct && !PriceAgrees(row.price, ExpectedPrice(items, sku)) then Some(PriceChanged(sku))
      else if row.stock + Sign(dir) * Total(items, sku) < 0 then Some(InsufficientStock(sku))
      else None
  }

  function FirstProblem(rows: seq<Product>, items: seq<Item>, dir: Direction, skus: seq<Sku>): (e: Option<Error>)
    ensures e.None? <==> forall i :: 0 <= i < |skus| ==> Problem(rows, items, dir, skus[i]).None?
  {
    if skus == [] then None
    else
      var front := FirstProblem(rows, items, dir, skus[..|skus| - 1]);
      if front.Some? then front else Problem(rows, items, dir, skus[|skus| - 1])
  }

  /** Every row moved by the quantity requested of its SKU. */
  function Moved(rows: seq<Product>, items: seq<Item>, dir: Direction): (r: seq<Product>)
    ensures |r| == |rows|
    ensures forall i :: 0 <= i < |rows| ==>
      r[i] == rows[i].(stock := rows[i].stock + Sign(dir) * Total(items, rows[i].sku))
  {
    seq(|rows|, i requires 0 <= i < |rows| =>
      rows[i].(stock := rows[i].stock + Sign(dir) * Total(items, rows[i].sku)))
  }

  // ---------------------------------------------------------------- the ledger

  function OpRows(ledger: seq<Movement>, op: OpId): seq<Movement> {
    if ledger == [] then []
    else
      var n := |ledger| - 1;
      OpRows(ledger[..n], op) + (if ledger[n].op == op then [ledger[n]] else [])
  }

  /** The ledger has a row of this operation. */
  predicate Recorded(ledger: seq<Movement>, op: OpId) {
    exists i :: 0 <= i < |ledger| && ledger[i].op == op
  }

  lemma {:induction false} RecordedHasRows(ledger: seq<Movement>, op: OpId)
    ensures Recorded(ledger, op) <==> |OpRows(ledger, op)| > 0
  {
    if ledger != [] {
      var n := |ledger| - 1;
      RecordedHasRows(ledger[..n], op);
      if i :| 0 <= i < |ledger| && ledger[i].op == op {
        assert i < n ==> ledger[..n][i].op == op;
      }
      if i :| 0 <= i < n && ledger[..n][i].op == op {
        assert ledger[i].op == op;
      }
    }
  }

  lemma {:induction false} OpRowsAppend(a: seq<Movement>, b: seq<Movement>, op: OpId)
    ensures OpRows(a + b, op) == OpRows(a, op) + OpRows(b, op)
  {
    if b == [] {
      assert a + b == a;
    } else {
      var n := |b| - 1;
      OpRowsAppend(a, b[..n], op);
      assert (a + b)[..|a + b| - 1] == a + b[..n];
    }
  }

  lemma {:induction false} OpRowsAll(b: seq<Movement>, op: OpId)
    requires forall i :: 0 <= i < |b| ==> b[i].op == op
    ensures OpRows(b, op) == b
  {
    if b != [] {
      OpRowsAll(b[..|b| - 1], op);
    }
  }

  lemma {:induction false} OpRowsNone(b: seq<Movement>, op: OpId)
    requires forall i :: 0 <= i < |b| ==> b[i].op != op
    ensures OpRows(b, op) == []
  {
    if b != [] {
      OpRowsNone(b[..|b| - 1], op);
    }
  }

  /** SKU to stock after, the last row of a SKU winning. */
  function AfterMap(rows: seq<Movement>): (m: map<Sku, int>)
    ensures m.Keys == set i | 0 <= i < |rows| :: rows[i].sku
  {
    if rows == [] then map[]
    else
      var n := |rows| - 1;
      var front := AfterMap(rows[..n]);
      assert (set i | 0 <= i < n :: rows[..n][i].sku) == set i | 0 <= i < n :: rows[i].sku;
      assert (set i | 0 <= i < |rows| :: rows[i].sku) == (set i | 0 <= i < n :: rows[i].sku) + {rows[n].sku};
      front[rows[n].sku := rows[n].after]
  }

  predicate RowFits(row: Movement, items: seq<Item>, dir: Direction) {
    row.kind == dir && row.sku in Skus(items) && row.quantity == Total(items, row.sku)
  }

  /** Whether recorded rows are those of the requested mutation; if so, the stock they left. */
  function Validate(rows: seq<Movement>, items: seq<Item>, dir: Direction): Result<map<Sku, int>, Error> {
    if |rows| != |Skus(items)| then Failure(IncompleteEntry)
    else if exists i :: 0 <= i < |rows| && !RowFits(rows[i], items, dir) then Failure(MismatchedEntry)
    else if AfterMap(rows).Keys != set sku | sku in Skus(items) then Failure(MissingSku)
    else Success(AfterMap(rows))
  }

  /** The ledger rows one mutation writes, in request order. */
  function Written(rows: seq<Product>, items: seq<Item>, dir: Direction, op: OpId): (w: seq<Movement>)
    ensures |w| == |Skus(items)|
    ensures forall i :: 0 <= i < |w| ==> w[i].op == op
  {
    var skus := Skus(items);
    seq(|skus|, i requires 0 <= i < |skus| =>
      var before := StockOf(rows, skus[i]);
      var quantity := Total(items, skus[i]);
      Movement(op, dir, skus[i], quantity, before, before + Sign(dir) * quantity))
  }

  /** Rows written from position `at` on; what stood there is lost. */
  function Overwrite(ledger: seq<Movement>, at: nat, rows: seq<Movement>): seq<Movement>
    requires at <= |ledger|
  {
    ledger[..at] + rows + (if at + |rows| < |ledger| then ledger[at + |rows|..] else [])
  }

  /** The in-process copy never runs ahead of the durable ledger. */
  predicate Valid(sh: Sheet) {
    sh.cache.Some? ==> |sh.cache.value| <= |sh.ledger|
  }

  type StockSheet = sh: Sheet | Valid(sh) witness Sheet([], [], None)

  // ---------------------------------------------------------------- the operations

  /** Why the mutation as a whole cannot go ahead, if it cannot. */
  function Blocked(rows: seq<Product>, items: seq<Item>, dir: Direction): Option<Error> {
    if HasDuplicate(rows) then Some(DuplicateSku) else FirstProblem(rows, items, dir, Skus(items))
  }

  /** The sheet after the batch write: rows moved and ledger rows placed where the in-process copy
      ends. The copy learns of them only when the reply arrives. */
  function Commit(sh: Sheet, seen: seq<Movement>, items: seq<Item>, dir: Direction, op: OpId, replied: bool): Sheet
    requires |seen| <= |sh.ledger|
  {
    var written := Written(sh.rows, items, dir, op);
    Sheet(Moved(sh.rows, items, dir), Overwrite(sh.ledger, |seen|, written),
        Some(if replied then seen + written else seen))
  }

  /** One stock mutation under an operation id. The ledger is read through the in-process copy;
      the batch write is atomic. */
  function UpdateStock(sh: StockSheet, items: seq<Item>, dir: Direction, op: OpId, fault: Fault)
      : (StockSheet, Result<map<Sku, int>, Error>)
  {
    if !ValidItems(items) then (sh, Failure(InvalidItem))
    else if fault == FailBeforeRead then (sh, Failure(Unavailable))
    else
      var seen := sh.cache.GetOr(sh.ledger);
      var loaded := sh.(cache := Some(seen));
      if Recorded(seen, op) then (loaded, Validate(OpRows(seen, op), items, dir))
      else if fault == FailBeforeCommit then (loaded, Failure(Unavailable))
      else
        var blocked := Blocked(sh.rows, items, dir);
        if blocked.Some? then (loaded, Failure(blocked.value))
        else
          var lost := fault == FailAfterCommit && items != [];
          (Commit(sh, seen, items, dir, op, !lost),
           if lost then Failure(Unavailable) else Success(AfterMap(Written(sh.rows, items, dir, op))))
  }

  /** Whether the durable ledger, read afresh, records this mutation. */
  function OperationApplied(sh: StockSheet, op: OpId, items: seq<Item>, dir: Direction, readable: bool)
      : (StockSheet, Result<bool, Error>)
  {
    if !ValidItems(items) then (sh, Failure(InvalidItem))
    else if !readable then (sh, Failure(Unavailable))
    else
      var reloaded := sh.(cache := Some(sh.ledger));
      if !Recorded(sh.ledger, op) then (reloaded, Success(false))
      else
        var verdict := Validate(OpRows(sh.ledger, op), items, dir);
        if verdict.Failure? then (reloaded, Failure(verdict.error)) else (reloaded, Success(true))
  }

  // ---------------------------------------------------------------- what a mutation guarantees

  /** The rows a mutation writes are accepted when read back, with the stock it reported. */
  lemma {:induction false} WrittenValidates(rows: seq<Product>, items: seq<Item>, dir: Direction, op: OpId)
    ensures Validate(Written(rows, items, dir, op), items, dir) == Success(AfterMap(Written(rows, items, dir, op)))
  {
    var w := Written(rows, items, dir, op);
    var skus := Skus(items);
    forall sku
      ensures sku in AfterMap(w).Keys <==> sku in skus
    {
      if sku in skus {
        var i :| 0 <= i < |skus| && skus[i] == sku;
        assert w[i].sku == sku;
      }
    }
    assert AfterMap(w).Keys == set sku | sku in skus;
  }

  function Triple(row: Movement): (Direction, Sku, int) {
    (row.kind, row.sku, row.quantity)
  }

  /** `p` lists every position of `rows` once, pairing it with an equal entry of `written`. */
  predicate Rearranges(p: seq<nat>, rows: seq<Movement>, written: seq<Movement>) {
    && |p| == |rows| == |written|
    && Distinct(p)
    && forall i :: 0 <= i < |p| ==> p[i] < |rows| && Triple(rows[p[i]]) == Triple(written[i])
  }

  function IndexOf(s: seq<Sku>, sku: Sku): (i: nat)
    requires sku in s
    ensures i < |s| && s[i] == sku
  {
    if s[0] == sku then 0 else IndexOf(s[1..], sku) + 1
  }

  /** A recorded entry is accepted exactly when its rows are, in some order, the type, SKU and
      quantity of the rows the mutation itself writes. */
  lemma {:induction false} ValidateExact(recorded: seq<Movement>, rows: seq<Product>, items: seq<Item>, dir: Direction,
                                         op: OpId)
    ensures Validate(recorded, items, dir).Success?
       <==> exists p :: Rearranges(p, recorded, Written(rows, items, dir, op))
  {
    var w := Written(rows, items, dir, op);
    var skus := Skus(items);
    SkusDistinct(items);
    if Validate(recorded, items, dir).Success? {
      var names := seq(|recorded|, i requires 0 <= i < |recorded| => recorded[i].sku);
      forall k | 0 <= k < |skus|
        ensures skus[k] in names
      {
        assert skus[k] in AfterMap(recorded).Keys;
        var i :| 0 <= i < |recorded| && recorded[i].sku == skus[k];
        assert names[i] == skus[k];
      }
      var p := seq(|skus|, k requires 0 <= k < |skus| => IndexOf(names, skus[k]));
      assert Rearranges(p, recorded, w) by {
        forall k | 0 <= k < |p|
          ensures p[k] < |recorded| && Triple(recorded[p[k]]) == Triple(w[k])
        {
          assert recorded[p[k]].sku == skus[k];
          assert RowFits(recorded[p[k]], items, dir);
        }
      }
    }
    if p :| Rearranges(p, recorded, w) {
      RearrangedFits(p, recorded, rows, items, dir, op);
    }
  }

  lemma RearrangedFits(p: seq<nat>, recorded: seq<Movement>, rows: seq<Product>, items: seq<Item>,
                       dir: Direction, op: OpId)
    requires Rearranges(p, recorded, Written(rows, items, dir, op))
    ensures Validate(recorded, items, dir).Success?
  {
    var w := Written(rows, items, dir, op);
    var skus := Skus(items);
    DistinctHitsAll(p);
    forall i | 0 <= i < |recorded|
      ensures RowFits(recorded[i], items, dir)
    {
      assert i in p;
      var k :| 0 <= k < |p| && p[k] == i;
      assert Triple(recorded[p[k]]) == Triple(w[k]);
      assert w[k].sku == skus[k];
    }
    assert AfterMap(recorded).Keys == set sku | sku in skus by {
      forall k | 0 <= k < |skus|
        ensures skus[k] in AfterMap(recorded).Keys
      {
        assert Triple(recorded[p[k]]) == Triple(w[k]);
        assert recorded[p[k]].sku == skus[k];
      }
    }
  }

  /** A list of `n` distinct positions below `n` names every one of them. */
  lemma DistinctHitsAll(p: seq<nat>)
    requires Distinct(p) && forall k :: 0 <= k < |p| ==> p[k] < |p|
    ensures forall i: nat :: i < |p| ==> i in p
  {
    DistinctCardinality(p);
    SubsetOfSameSize((set x | x in p), Below(|p|));
    forall i: nat | i < |p|
      ensures i in p
    {
      assert i in Below(|p|);
    }
  }

  function Below(n: nat): (r: set<nat>)
    ensures forall i: nat :: i in r <==> i < n
    ensures |r| == n
  {
    if n == 0 then {} else Below(n - 1) + {n - 1}
  }

  lemma SubsetOfSameSize<T>(a: set<T>, b: set<T>)
    requires a <= b && |a| == |b|
    ensures a == b
  {
    assert b == a + (b - a);
    assert |b - a| == 0;
  }

  // ---------------------------------------------------------------- all or nothing, and once

  predicate NonNegative(rows: seq<Product>) {
    forall i :: 0 <= i < |rows| ==> rows[i].stock >= 0
  }

  /** The mutation reached the sheet: every requested SKU moved, and the ledger gained its rows. */
  predicate Committed(before: Sheet, after: Sheet, items: seq<Item>, dir: Direction, op: OpId) {
    && ValidItems(items) && items != []
    && !Recorded(before.ledger, op)
    && Blocked(before.rows, items, dir).None?
    && after.rows == Moved(before.rows, items, dir)
    && after.ledger == before.ledger + Written(before.rows, items, dir, op)
  }

  predicate Untouched(before: Sheet, after: Sheet) {
    after.rows == before.rows && after.ledger == before.ledger
  }

  /** With a coherent copy, the batch write appends to the ledger. */
  lemma CommitAppends(sh: Sheet, items: seq<Item>, dir: Direction, op: OpId, replied: bool)
    requires Coherent(sh) && ValidItems(items) && items != []
    requires !Recorded(sh.ledger, op) && Blocked(sh.rows, items, dir).None?
    ensures var after := Commit(sh, sh.ledger, items, dir, op, replied);
      && Committed(sh, after, items, dir, op)
      && Recorded(after.ledger, op)
      && (Coherent(after) <==> replied)
  {
    AppendRecords(sh.ledger, Written(sh.rows, items, dir, op), items, op);
  }

  lemma AppendRecords(ledger: seq<Movement>, w: seq<Movement>, items: seq<Item>, op: OpId)
    requires items != [] && |w| == |Skus(items)|
    requires forall i :: 0 <= i < |w| ==> w[i].op == op
    ensures Recorded(ledger + w, op) && |ledger + w| > |ledger|
    ensures Overwrite(ledger, |ledger|, w) == ledger + w
  {
    SkusNonEmpty(items);
    assert (ledger + w)[|ledger|].op == op;
  }

  /** New rows of an operation are found again. */
  lemma NewRows(ledger: seq<Movement>, w: seq<Movement>, op: OpId)
    requires forall i :: 0 <= i < |w| ==> w[i].op == op
    requires !Recorded(ledger, op)
    ensures OpRows(ledger + w, op) == w
  {
    RecordedHasRows(ledger, op);
    OpRowsAppend(ledger, w, op);
    OpRowsAll(w, op);
  }

  lemma NothingRequested(sh: Sheet, dir: Direction, op: OpId, replied: bool)
    requires Coherent(sh)
    ensures var after := Commit(sh, sh.ledger, [], dir, op, replied);
      Untouched(sh, after) && Coherent(after)
  {
    assert Written(sh.rows, [], dir, op) == [];
    assert Moved(sh.rows, [], dir) == sh.rows;
    assert Overwrite(sh.ledger, |sh.ledger|, []) == sh.ledger;
  }

  /** With a coherent copy a mutation is all or nothing across its SKUs, and coherence is lost
      exactly when it commits and then reports failure. */
  lemma UpdateStockCases(sh: Sheet, items: seq<Item>, dir: Direction, op: OpId, fault: Fault,
                         after: Sheet, result: Result<map<Sku, int>, Error>)
    requires Coherent(sh) && UpdateStock(sh, items, dir, op, fault) == (after, result)
    ensures Untouched(sh, after) || Committed(sh, after, items, dir, op)
    ensures result.Success? && items != [] ==> ValidItems(items) && Recorded(after.ledger, op)
    ensures Coherent(after) <==> !(Committed(sh, after, items, dir, op) && fault == FailAfterCommit)
    ensures Recorded(sh.ledger, op) ==> Untouched(sh, after)
    ensures result.Failure? && fault != FailAfterCommit ==> Untouched(sh, after)
  {
    if ValidItems(items) && fault != FailBeforeRead && !Recorded(sh.ledger, op) && fault != FailBeforeCommit
       && Blocked(sh.rows, items, dir).None? {
      if items == [] {
        NothingRequested(sh, dir, op, true);
      } else {
        CommitAppends(sh, items, dir, op, fault != FailAfterCommit);
      }
    } else if Committed(sh, after, items, dir, op) {
      SkusNonEmpty(items);
      assert false;
    }
  }

  /** A request that is refused outright, or that cannot read the sheet, does not even load the copy. */
  lemma UnreadIsUnchanged(sh: StockSheet, items: seq<Item>, dir: Direction, op: OpId)
    ensures UpdateStock(sh, items, dir, op, FailBeforeRead).0 == sh
    ensures !ValidItems(items) ==> forall fault ::
        UpdateStock(sh, items, dir, op, fault) == (sh, Failure(InvalidItem))
  {
  }

  /** Line `k` is the first line of the SKU that carries a price. */
  predicate FirstPriced(items: seq<Item>, k: int, sku: Sku) {
    && 0 <= k < |items| && items[k].sku == sku && items[k].unitPrice.Some?
    && forall j :: 0 <= j < k && items[j].sku == sku ==> items[j].unitPrice.None?
  }

  /** The row's price is within one cent of the first line of its SKU that carries one. */
  predicate PriceHolds(row: Product, items: seq<Item>) {
    forall k :: 0 <= k < |items| && FirstPriced(items, k, row.sku) ==>
      row.price.Some? && items[k].unitPrice.value - 1 <= row.price.value <= items[k].unitPrice.value + 1
  }

  /** The row allows the requested move: a deduction needs an active row at the expected price, and
      no stock goes below zero. */
  predicate CanMove(row: Product, items: seq<Item>, dir: Direction) {
    && (dir == Deduct ==> row.active && PriceHolds(row, items) && row.stock >= Total(items, row.sku))
    && (dir == Restore ==> row.stock + Total(items, row.sku) >= 0)
  }

  predicate Listed(rows: seq<Product>, sku: Sku) {
    exists i :: 0 <= i < |rows| && rows[i].sku == sku
  }

  predicate Requested(items: seq<Item>, sku: Sku) {
    exists k :: 0 <= k < |items| && items[k].sku == sku
  }

  lemma {:induction false} ExpectedMeans(items: seq<Item>, sku: Sku) returns (k: int)
    ensures ExpectedPrice(items, sku).Some? ==>
      FirstPriced(items, k, sku) && ExpectedPrice(items, sku) == items[k].unitPrice
    ensures ExpectedPrice(items, sku).None? ==> forall j :: !FirstPriced(items, j, sku)
  {
    k := 0;
    if items != [] && !(items[0].sku == sku && items[0].unitPrice.Some?) {
      var m := ExpectedMeans(items[1..], sku);
      k := m + 1;
      forall j | FirstPriced(items, j, sku)
        ensures FirstPriced(items[1..], j - 1, sku)
      {
        assert items[1..][j - 1] == items[j];
        assert forall l :: 0 <= l < j - 1 ==> items[1..][l] == items[l + 1];
      }
    }
  }

  lemma PriceMeans(row: Product, items: seq<Item>)
    ensures PriceAgrees(row.price, ExpectedPrice(items, row.sku)) <==> PriceHolds(row, items)
  {
    var k := ExpectedMeans(items, row.sku);
    hide ExpectedPrice;
    assert forall j, l :: FirstPriced(items, j, row.sku) && FirstPriced(items, l, row.sku) ==> j == l;
  }

  /** A fault-free mutation whose operation is new succeeds exactly when no SKU but the empty one stands
      in two rows, every requested SKU has a row, and each of these rows allows its move: for a
      deduction it is active, at a price within one cent of the first requested one, and has the stock. */
  lemma SucceedsWhenPossible(sh: Sheet, items: seq<Item>, dir: Direction, op: OpId)
    requires Coherent(sh) && ValidItems(items) && !Recorded(sh.ledger, op)
    ensures UpdateStock(sh, items, dir, op, NoFault).1.Success? <==>
      && (forall i, j :: 0 <= i < j < |sh.rows| && sh.rows[i].sku == sh.rows[j].sku ==> sh.rows[i].sku == "")
      && (forall k :: 0 <= k < |items| ==> Listed(sh.rows, items[k].sku))
      && forall i :: 0 <= i < |sh.rows| && Requested(items, sh.rows[i].sku) ==> CanMove(sh.rows[i], items, dir)
  {
    NotBlockedMeans(sh.rows, items, dir);
    SkusDistinct(items);
    assert forall k :: 0 <= k < |items| ==> items[k].sku in Skus(items);
    hide Problem, CanMove, Skus, Listed, Commit, Written, AfterMap;
    if !HasDuplicate(sh.rows) {
      forall sku | sku in Skus(items)
        ensures Problem(sh.rows, items, dir, sku).None? ==> Listed(sh.rows, sku)
      {
        ProblemMeans(sh.rows, items, dir, sku);
      }
      forall i | 0 <= i < |sh.rows| && sh.rows[i].sku in Skus(items)
        ensures Problem(sh.rows, items, dir, sh.rows[i].sku).None? <==> CanMove(sh.rows[i], items, dir)
      {
        TotalPositive(items, sh.rows[i].sku);
        ListedProblem(sh.rows, items, dir, i);
      }
      forall sku | sku in Skus(items) && Listed(sh.rows, sku)
        ensures exists i :: 0 <= i < |sh.rows| && sh.rows[i].sku == sku
      {
        ListedMeans(sh.rows, sku);
      }
    }
  }

  lemma ListedMeans(rows: seq<Product>, sku: Sku)
    ensures Listed(rows, sku) <==> exists i :: 0 <= i < |rows| && rows[i].sku == sku
  {
  }

  lemma ProblemMeans(rows: seq<Product>, items: seq<Item>, dir: Direction, sku: Sku)
    ensures Problem(rows, items, dir, sku).None? ==> Listed(rows, sku)
  {
  }

  lemma ListedProblem(rows: seq<Product>, items: seq<Item>, dir: Direction, i: nat)
    requires !HasDuplicate(rows) && i < |rows| && rows[i].sku != ""
    ensures Problem(rows, items, dir, rows[i].sku).None? <==> CanMove(rows[i], items, dir)
  {
    OnlyRow(rows, i);
    PriceMeans(rows[i], items);
    hide ExpectedPrice, PriceHolds, PriceAgrees;
  }

  /** The quantities of repeated lines add up, over any split of the request. */
  lemma {:induction false} TotalAddsUp(a: seq<Item>, b: seq<Item>, one: Item, sku: Sku)
    ensures Total(a + b, sku) == Total(a, sku) + Total(b, sku)
    ensures Total([one], sku) == if one.sku == sku then one.quantity else 0
  {
    assert [one][..0] == [];
    if b == [] {
      assert a + b == a;
    } else {
      var n := |b| - 1;
      TotalAddsUp(a, b[..n], one, sku);
      assert (a + b)[..|a| + n] == a + b[..n];
    }
  }

  /** A row of the requested SKU. */
  predicate RequestedRow(rows: seq<Product>, i: int, items: seq<Item>, sku: Sku) {
    0 <= i < |rows| && rows[i].sku == sku && Requested(items, sku)
  }

  predicate Short(row: Product, items: seq<Item>, dir: Direction) {
    row.stock + (if dir == Deduct then -Total(items, row.sku) else Total(items, row.sku)) < 0
  }

  /** What each refusal says about the sheet and the request. */
  predicate Explains(rows: seq<Product>, items: seq<Item>, dir: Direction, error: Error) {
    match error
    case DuplicateSku => exists i, j :: 0 <= i < j < |rows| && rows[i].sku == rows[j].sku != ""
    case UnknownSku(x) => Requested(items, x) && !Listed(rows, x)
    case InactiveSku(x) =>
      dir == Deduct && exists i :: 0 <= i < |rows| && RequestedRow(rows, i, items, x) && !rows[i].active
    case PriceChanged(x) =>
      dir == Deduct && exists i :: 0 <= i < |rows| && RequestedRow(rows, i, items, x) && !PriceHolds(rows[i], items)
    case InsufficientStock(x) =>
      exists i :: 0 <= i < |rows| && RequestedRow(rows, i, items, x) && Short(rows[i], items, dir)
    case _ => false
  }

  /** What is refused, and why: the error names a requested SKU and its problem. */
  lemma FailureMeans(sh: Sheet, items: seq<Item>, dir: Direction, op: OpId, error: Error)
    requires Coherent(sh) && ValidItems(items) && !Recorded(sh.ledger, op)
    requires UpdateStock(sh, items, dir, op, NoFault).1 == Failure(error)
    ensures Explains(sh.rows, items, dir, error)
  {
    hide Problem, PriceHolds, Listed, RequestedRow, Commit, Written, AfterMap, Explains;
    if HasDuplicate(sh.rows) {
      DuplicateExplained(sh.rows, items, dir);
    } else {
      SkusDistinct(items);
      var sku := TheProblem(sh.rows, items, dir, Skus(items));
      hide FirstProblem, Skus;
      ProblemSays(sh.rows, items, dir, sku);
    }
  }

  lemma DuplicateExplained(rows: seq<Product>, items: seq<Item>, dir: Direction)
    requires HasDuplicate(rows)
    ensures Explains(rows, items, dir, DuplicateSku)
  {
  }

  lemma {:induction false} TheProblem(rows: seq<Product>, items: seq<Item>, dir: Direction, skus: seq<Sku>)
      returns (sku: Sku)
    ensures FirstProblem(rows, items, dir, skus).Some? ==>
      sku in skus && FirstProblem(rows, items, dir, skus) == Problem(rows, items, dir, sku)
  {
    hide Problem;
    sku := "";
    if skus != [] {
      var n := |skus| - 1;
      sku := TheProblem(rows, items, dir, skus[..n]);
      if FirstProblem(rows, items, dir, skus[..n]).None? {
        sku := skus[n];
      }
    }
  }

  lemma {:induction false} NoRow(rows: seq<Product>, sku: Sku)
    ensures RowOf(rows, sku).None? ==> !Listed(rows, sku)
  {
    if rows != [] {
      NoRow(rows[1..], sku);
      assert forall i :: 1 <= i < |rows| ==> rows[i] == rows[1..][i - 1];
    }
  }

  lemma ProblemSays(rows: seq<Product>, items: seq<Item>, dir: Direction, sku: Sku)
    requires Requested(items, sku) && Problem(rows, items, dir, sku).Some?
    ensures Explains(rows, items, dir, Problem(rows, items, dir, sku).value)
  {
    NoRow(rows, sku);
    var r := RowOf(rows, sku);
    if r.Some? {
      PriceMeans(rows[r.value], items);
      assert RequestedRow(rows, r.value, items, sku);
    }
    hide ExpectedPrice, PriceHolds, PriceAgrees, RowOf, Listed;
  }

  lemma NotBlockedMeans(rows: seq<Product>, items: seq<Item>, dir: Direction)
    ensures Blocked(rows, items, dir).None?
       <==> !HasDuplicate(rows) && forall sku :: sku in Skus(items) ==> Problem(rows, items, dir, sku).None?
  {
    var skus := Skus(items);
    assert (forall i :: 0 <= i < |skus| ==> Problem(rows, items, dir, skus[i]).None?)
      <==> forall sku :: sku in skus ==> Problem(rows, items, dir, sku).None?;
  }

  /** The reported stock of each requested SKU is the one its row now shows, and the ledger row of the
      SKU gives the quantity, the stock before and the stock after. */
  lemma ReportedStockIsReal(sh: Sheet, items: seq<Item>, dir: Direction, op: OpId, i: nat, k: nat)
    requires Blocked(sh.rows, items, dir).None? && i < |sh.rows| && k < |Skus(items)|
    requires sh.rows[i].sku == Skus(items)[k] != ""
    ensures var after, w := Moved(sh.rows, items, dir), Written(sh.rows, items, dir, op);
      var sku := sh.rows[i].sku;
      && after[i].stock == sh.rows[i].stock + (if dir == Deduct then -Total(items, sku) else Total(items, sku)) >= 0
      && sku in AfterMap(w) && AfterMap(w)[sku] == after[i].stock
      && w[k] == Movement(op, dir, sku, Total(items, sku), sh.rows[i].stock, after[i].stock)
  {
    OnlyRow(sh.rows, i);
    StockMoves(sh.rows, items, dir, sh.rows[i].sku);
    ReportOf(sh.rows, items, dir, op, sh.rows[i].sku);
  }

  /** Each requested SKU has one ledger row, in the order in which the request first names them. */
  lemma {:induction false} SkusInOrder(items: seq<Item>, a: nat, b: nat) returns (i: nat)
    requires a < b < |Skus(items)|
    ensures i < |items| && items[i].sku == Skus(items)[a]
    ensures forall j :: 0 <= j < |items| && items[j].sku == Skus(items)[b] ==> i < j
  {
    var n := |items| - 1;
    SkusDistinct(items[..n]);
    if b < |Skus(items[..n])| {
      i := SkusInOrder(items[..n], a, b);
      assert forall j :: 0 <= j < n ==> items[j] == items[..n][j];
    } else {
      assert Skus(items[..n])[a] in Skus(items[..n]);
      var m :| 0 <= m < n && items[..n][m].sku == Skus(items[..n])[a];
      i := m;
      assert forall j :: 0 <= j < n ==> items[..n][j].sku in Skus(items[..n]);
    }
  }

  lemma StockMoves(rows: seq<Product>, items: seq<Item>, dir: Direction, sku: Sku)
    requires Blocked(rows, items, dir).None? && sku in Skus(items)
    ensures StockOf(Moved(rows, items, dir), sku) == StockOf(rows, sku) + Sign(dir) * Total(items, sku)
    ensures StockOf(rows, sku) + Sign(dir) * Total(items, sku) >= 0
  {
    NotBlockedMeans(rows, items, dir);
    assert Problem(rows, items, dir, sku).None?;
    RowOfMoved(rows, Moved(rows, items, dir), sku);
  }

  lemma ReportOf(rows: seq<Product>, items: seq<Item>, dir: Direction, op: OpId, sku: Sku)
    requires sku in Skus(items)
    ensures var report := AfterMap(Written(rows, items, dir, op));
      sku in report && report[sku] == StockOf(rows, sku) + Sign(dir) * Total(items, sku)
  {
    var skus := Skus(items);
    SkusDistinct(items);
    var k :| 0 <= k < |skus| && skus[k] == sku;
    var w := Written(rows, items, dir, op);
    assert forall i :: 0 <= i < |w| ==> w[i].sku == skus[i];
    AfterMapAt(w, k);
  }

  lemma {:induction false} AfterMapAt(rows: seq<Movement>, k: nat)
    requires k < |rows|
    requires forall i, j :: 0 <= i < j < |rows| ==> rows[i].sku != rows[j].sku
    ensures rows[k].sku in AfterMap(rows) && AfterMap(rows)[rows[k].sku] == rows[k].after
  {
    if k < |rows| - 1 {
      AfterMapAt(rows[..|rows| - 1], k);
    }
  }

  lemma {:induction false} RowOfMoved(a: seq<Product>, b: seq<Product>, sku: Sku)
    requires |a| == |b| && forall i :: 0 <= i < |a| ==> a[i].sku == b[i].sku
    ensures RowOf(a, sku) == RowOf(b, sku)
  {
    if a != [] {
      RowOfMoved(a[1..], b[1..], sku);
    }
  }

  /** Once its rows are in the ledger, a mutation is recognised as applied, with the stock it left. */
  lemma WrittenRecords(sh: Sheet, items: seq<Item>, dir: Direction, op: OpId, ledger: seq<Movement>)
    requires !Recorded(sh.ledger, op) && items != []
    requires ledger == sh.ledger + Written(sh.rows, items, dir, op)
    ensures Recorded(ledger, op)
    ensures Validate(OpRows(ledger, op), items, dir) == Success(AfterMap(Written(sh.rows, items, dir, op)))
  {
    var w := Written(sh.rows, items, dir, op);
    NewRows(sh.ledger, w, op);
    WrittenValidates(sh.rows, items, dir, op);
    AppendRecords(sh.ledger, w, items, op);
  }

  lemma CommitShape(sh: Sheet, items: seq<Item>, dir: Direction, op: OpId, replied: bool)
    ensures var ledger := sh.ledger + Written(sh.rows, items, dir, op);
      Commit(sh, sh.ledger, items, dir, op, replied)
        == Sheet(Moved(sh.rows, items, dir), ledger, Some(if replied then ledger else sh.ledger))
  {
    var w := Written(sh.rows, items, dir, op);
    assert Overwrite(sh.ledger, |sh.ledger|, w) == sh.ledger + w;
  }

  /** Repeating a mutation that succeeded changes nothing and reports the same stock. */
  lemma UpdateStockIdempotent(sh: Sheet, items: seq<Item>, dir: Direction, op: OpId, fault: Fault, again: Fault,
                              after: Sheet, report: map<Sku, int>)
    requires Coherent(sh) && items != [] && again != FailBeforeRead
    requires UpdateStock(sh, items, dir, op, fault) == (after, Success(report))
    ensures UpdateStock(after, items, dir, op, again) == (after, Success(report))
  {
    if !Recorded(sh.ledger, op) {
      CommitShape(sh, items, dir, op, true);
      WrittenRecords(sh, items, dir, op, after.ledger);
    }
  }

  /** A mutation that committed but reported failure is recognised once the ledger is read afresh,
      and the sheet and copy are then those the reported success would have left. */
  lemma LostReplyIsReconciled(sh: Sheet, items: seq<Item>, dir: Direction, op: OpId,
                              after: Sheet, report: map<Sku, int>, lost: Sheet, reply: Result<map<Sku, int>, Error>)
    requires Coherent(sh) && items != [] && !Recorded(sh.ledger, op)
    requires UpdateStock(sh, items, dir, op, NoFault) == (after, Success(report))
    requires UpdateStock(sh, items, dir, op, FailAfterCommit) == (lost, reply)
    ensures reply == Failure(Unavailable) && lost != after
    ensures OperationApplied(lost, op, items, dir, true) == (after, Success(true))
  {
    CommitShape(sh, items, dir, op, true);
    CommitShape(sh, items, dir, op, false);
    assert lost.ledger == after.ledger;
    WrittenRecords(sh, items, dir, op, after.ledger);
    assert lost.cache.value != after.cache.value by {
      assert Recorded(after.cache.value, op);
    }
  }

  /** Reading the ledger afresh always restores coherence and never touches the sheet. */
  lemma ReloadIsCoherent(sh: StockSheet, op: OpId, items: seq<Item>, dir: Direction, readable: bool)
    ensures var (after, applied) := OperationApplied(sh, op, items, dir, readable);
      && Untouched(sh, after)
      && (Coherent(sh) ==> Coherent(after))
      && (readable && ValidItems(items) ==> Coherent(after))
      && (applied.Success? ==> applied.value == Recorded(sh.ledger, op) && Coherent(after))
  {
  }

  /** The recorded rows are, in some order, those the mutation writes. */
  ghost predicate RowsMatch(recorded: seq<Movement>, rows: seq<Product>, items: seq<Item>, dir: Direction, op: OpId) {
    exists p :: Rearranges(p, recorded, Written(rows, items, dir, op))
  }

  lemma RowsMatchExactly(recorded: seq<Movement>, rows: seq<Product>, items: seq<Item>, dir: Direction, op: OpId)
    ensures Validate(recorded, items, dir).Success? <==> RowsMatch(recorded, rows, items, dir, op)
  {
    ValidateExact(recorded, rows, items, dir, op);
  }

  /** Why recorded rows are refused: a wrong number of them, else one that is not of the request, else a SKU
      without a row. */
  lemma RefusedExactly(recorded: seq<Movement>, items: seq<Item>, dir: Direction)
    ensures var n, verdict := |Skus(items)|, Validate(recorded, items, dir);
      && (verdict == Failure(IncompleteEntry) <==> |recorded| != n)
      && (verdict == Failure(MismatchedEntry) <==>
            |recorded| == n && !forall i :: 0 <= i < n ==>
              recorded[i].kind == dir && recorded[i].sku in Skus(items)
              && recorded[i].quantity == Total(items, recorded[i].sku))
      && (verdict.Failure? ==> verdict.error in {IncompleteEntry, MismatchedEntry, MissingSku})
  {
    hide Skus, Total, AfterMap;
  }

  /** The answer of a forced reload: applied exactly when the ledger has rows of the operation and they are,
      in some order, those the mutation writes; not applied exactly when it has none; else an error. */
  lemma AppliedExactly(sh: StockSheet, op: OpId, items: seq<Item>, dir: Direction, readable: bool)
    ensures var applied := OperationApplied(sh, op, items, dir, readable).1;
      && (applied == Success(false) <==>
            ValidItems(items) && readable && forall i :: 0 <= i < |sh.ledger| ==> sh.ledger[i].op != op)
      && (applied == Success(true) <==>
            && ValidItems(items) && readable && (exists i :: 0 <= i < |sh.ledger| && sh.ledger[i].op == op)
            && RowsMatch(OpRows(sh.ledger, op), sh.rows, items, dir, op))
      && (!ValidItems(items) ==> applied == Failure(InvalidItem))
      && (ValidItems(items) && !readable ==> applied == Failure(Unavailable))
  {
    RowsMatchExactly(OpRows(sh.ledger, op), sh.rows, items, dir, op);
    hide Validate, RowsMatch, ValidItems, OpRows;
  }

  /** An operation that the copy shows moves nothing: it succeeds exactly when its rows are those the
      mutation writes, and another request under its id is refused. */
  lemma RecordedExactly(sh: StockSheet, items: seq<Item>, dir: Direction, op: OpId, fault: Fault)
    requires ValidItems(items) && fault != FailBeforeRead && Recorded(sh.cache.GetOr(sh.ledger), op)
    ensures var (after, result) := UpdateStock(sh, items, dir, op, fault);
      && after == sh.(cache := Some(sh.cache.GetOr(sh.ledger)))
      && (result.Success? <==> RowsMatch(OpRows(sh.cache.GetOr(sh.ledger), op), sh.rows, items, dir, op))
  {
    RowsMatchExactly(OpRows(sh.cache.GetOr(sh.ledger), op), sh.rows, items, dir, op);
    hide Validate, RowsMatch, OpRows, Written, Commit, Blocked;
  }

  /** A commit under one operation leaves the recorded rows of every other operation alone. */
  lemma OtherOperationsKept(sh: Sheet, after: Sheet, items: seq<Item>, dir: Direction, op: OpId, other: OpId)
    requires Committed(sh, after, items, dir, op) && other != op
    ensures OpRows(after.ledger, other) == OpRows(sh.ledger, other)
  {
    var w := Written(sh.rows, items, dir, op);
    OpRowsAppend(sh.ledger, w, other);
    OpRowsNone(w, other);
  }

  /** A mutation never makes a stock negative. */
  lemma StockStaysNonNegative(before: Sheet, after: Sheet, items: seq<Item>, dir: Direction, op: OpId)
    requires Committed(before, after, items, dir, op) && NonNegative(before.rows)
    ensures NonNegative(after.rows)
  {
    forall i | 0 <= i < |before.rows|
      ensures after.rows[i].stock >= 0
    {
      var sku := before.rows[i].sku;
      TotalPositive(items, sku);
      if sku in Skus(items) {
        assert sku != "";
        NotBlockedMeans(before.rows, items, dir);
        assert Problem(before.rows, items, dir, sku).None?;
        OnlyRow(before.rows, i);
      }
    }
  }

  lemma OnlyRow(rows: seq<Product>, i: nat)
    requires !HasDuplicate(rows) && i < |rows| && rows[i].sku != ""
    ensures RowOf(rows, rows[i].sku) == Some(i)
  {
    var r := RowOf(rows, rows[i].sku);
    RowOfFinds(rows, i);
    assert rows[r.value].sku == rows[i].sku;
    assert !(r.value < i) && !(i < r.value);
  }
}
