/** The module state of store/app/catalog/sheets.py: the product sheet, the durable ledger and the
    ledger copy of this process, changed in place by the inventory operations. */
module SheetService {
  import opened Common
  import opened Sheets

  /** `_build_inventory_request`: the requested SKUs in order of appearance and their quantities. */
  method BuildRequest(items: seq<Item>) returns (ok: bool, order: seq<Sku>, requested: map<Sku, int>)
    ensures ok <==> ValidItems(items)
    ensures ok ==> order == Skus(items) && requested.Keys == set sku | sku in order
    ensures ok ==> forall sku :: sku in order ==> requested[sku] == Total(items, sku)
  {
    ok, order, requested := true, [], map[];
    for i := 0 to |items|
      invariant ok && ValidItems(items[..i])
      invariant order == Skus(items[..i]) && requested.Keys == set sku | sku in order
      invariant forall sku :: sku in order ==> requested[sku] == Total(items[..i], sku)
    {
      var item := items[i];
      assert items[..i + 1][..i] == items[..i];
      if item.sku == "" || item.quantity <= 0 {
        return false, [], map[];
      }
      TotalPositive(items[..i], item.sku);
      if item.sku in requested {
        requested := requested[item.sku := requested[item.sku] + item.quantity];
      } else {
        requested := requested[item.sku := item.quantity];
        order := order + [item.sku];
      }
    }
    assert items[..|items|] == items;
  }

  /** `_ledger_operation_rows`. */
  method OperationRows(ledger: seq<Movement>, op: OpId) returns (rows: seq<Movement>)
    ensures rows == OpRows(ledger, op)
  {
    rows := [];
    for i := 0 to |ledger|
      invariant rows == OpRows(ledger[..i], op)
    {
      assert ledger[..i + 1][..i] == ledger[..i];
      if ledger[i].op == op {
        rows := rows + [ledger[i]];
      }
    }
    assert ledger[..|ledger|] == ledger;
  }

  /** `_validate_existing_inventory_operation`. */
  method ValidateExisting(rows: seq<Movement>, items: seq<Item>, order: seq<Sku>, requested: map<Sku, int>,
                          dir: Direction)
      returns (result: Result<map<Sku, int>, Error>)
    requires order == Skus(items) && requested.Keys == set sku | sku in order
    requires forall sku :: sku in order ==> requested[sku] == Total(items, sku)
    ensures result == Validate(rows, items, dir)
  {
    if |rows| != |order| {
      return Failure(IncompleteEntry);
    }
    var applied: map<Sku, int> := map[];
    for i := 0 to |rows|
      invariant applied == AfterMap(rows[..i])
      invariant forall k :: 0 <= k < i ==> RowFits(rows[k], items, dir)
    {
      var row := rows[i];
      assert rows[..i + 1][..i] == rows[..i];
      if row.kind != dir || row.sku !in requested || requested[row.sku] != row.quantity {
        assert !RowFits(rows[i], items, dir);
        return Failure(MismatchedEntry);
      }
      applied := applied[row.sku := row.after];
    }
    assert rows[..|rows|] == rows;
    if applied.Keys != requested.Keys {
      return Failure(MissingSku);
    }
    result := Success(applied);
  }

  /** SKU to row number, or the news that a SKU appears twice. */
  method IndexRows(rows: seq<Product>) returns (duplicate: bool, index: map<Sku, nat>)
    ensures duplicate <==> HasDuplicate(rows)
    ensures !duplicate ==> forall sku :: sku != "" ==> (sku in index <==> RowOf(rows, sku).Some?)
    ensures !duplicate ==> forall sku :: sku in index ==> RowOf(rows, sku) == Some(index[sku])
  {
    duplicate, index := false, map[];
    for i := 0 to |rows|
      invariant !duplicate && "" !in index
      invariant forall sku :: sku in index ==> index[sku] < i && rows[index[sku]].sku == sku
      invariant forall k :: 0 <= k < i && rows[k].sku != "" ==> rows[k].sku in index && index[rows[k].sku] == k
    {
      var sku := rows[i].sku;
      if sku != "" {
        if sku in index {
          return true, map[];
        }
        index := index[sku := i];
      }
    }
    forall sku | sku != ""
      ensures sku in index <==> RowOf(rows, sku).Some?
    {
      if sku in index {
        RowOfFinds(rows, index[sku]);
      }
    }
    forall sku | sku in index
      ensures RowOf(rows, sku) == Some(index[sku])
    {
      RowOfFinds(rows, index[sku]);
    }
  }

  /** The first price an item line of the SKU carries. */
  method FindExpectedPrice(items: seq<Item>, sku: Sku) returns (price: Option<int>)
    ensures price == ExpectedPrice(items, sku)
  {
    for i := 0 to |items|
      invariant ExpectedPrice(items, sku) == ExpectedPrice(items[i..], sku)
    {
      assert items[i..][1..] == items[i + 1..];
      if items[i].sku == sku && items[i].unitPrice.Some? {
        return items[i].unitPrice;
      }
    }
    price := None;
  }

  predicate DistinctTargets(updates: seq<(nat, int)>) {
    forall i, j :: 0 <= i < j < |updates| ==> updates[i].0 != updates[j].0
  }

  /** The stock cells of one batch write. */
  method WriteCells(rows: seq<Product>, updates: seq<(nat, int)>) returns (written: seq<Product>)
    requires forall j :: 0 <= j < |updates| ==> updates[j].0 < |rows|
    requires DistinctTargets(updates)
    ensures |written| == |rows|
    ensures forall j :: 0 <= j < |updates| ==> written[updates[j].0] == rows[updates[j].0].(stock := updates[j].1)
    ensures forall i :: 0 <= i < |rows| && (forall j :: 0 <= j < |updates| ==> updates[j].0 != i) ==>
        written[i] == rows[i]
  {
    written := rows;
    for k := 0 to |updates|
      invariant |written| == |rows|
      invariant forall j :: 0 <= j < k ==> written[updates[j].0] == rows[updates[j].0].(stock := updates[j].1)
      invariant forall i :: 0 <= i < |rows| && (forall j :: 0 <= j < k ==> updates[j].0 != i) ==> written[i] == rows[i]
    {
      var (row, stock) := updates[k];
      written := written[row := written[row].(stock := stock)];
    }
  }

  /** The cell updates a mutation prepares, one per requested SKU. */
  predicate UpdatesFor(updates: seq<(nat, int)>, rows: seq<Product>, items: seq<Item>, dir: Direction,
                       order: seq<Sku>) {
    && |updates| == |order|
    && forall j :: 0 <= j < |order| ==>
         && RowOf(rows, order[j]) == Some(updates[j].0)
         && updates[j].1 == rows[updates[j].0].stock + Sign(dir) * Total(items, order[j])
  }

  lemma UpdatesAreMoved(updates: seq<(nat, int)>, rows: seq<Product>, written: seq<Product>, items: seq<Item>,
                        dir: Direction)
    requires ValidItems(items) && !HasDuplicate(rows) && UpdatesFor(updates, rows, items, dir, Skus(items))
    requires |written| == |rows|
    requires forall j :: 0 <= j < |updates| ==>
        updates[j].0 < |rows| && written[updates[j].0] == rows[updates[j].0].(stock := updates[j].1)
    requires forall i :: 0 <= i < |rows| && (forall j :: 0 <= j < |updates| ==> updates[j].0 != i) ==>
        written[i] == rows[i]
    ensures written == Moved(rows, items, dir)
  {
    var order := Skus(items);
    forall i | 0 <= i < |rows|
      ensures written[i] == Moved(rows, items, dir)[i]
    {
      var sku := rows[i].sku;
      TotalPositive(items, sku);
      if sku in order {
        var j :| 0 <= j < |order| && order[j] == sku;
        OnlyRow(rows, i);
        assert updates[j].0 == i;
      } else {
        assert forall j :: 0 <= j < |updates| ==> rows[updates[j].0].sku == order[j];
      }
    }
  }

  lemma SkusValid(items: seq<Item>, sku: Sku)
    requires ValidItems(items) && sku in Skus(items)
    ensures sku != ""
  {
    TotalPositive(items, sku);
  }

  lemma UpdatesCount(updates: seq<(nat, int)>, rows: seq<Product>, items: seq<Item>, dir: Direction)
    requires UpdatesFor(updates, rows, items, dir, Skus(items))
    ensures updates == [] <==> |Skus(items)| == 0
    ensures items == [] ==> updates == []
  {
  }

  lemma DistinctUpdates(updates: seq<(nat, int)>, rows: seq<Product>, items: seq<Item>, dir: Direction)
    requires UpdatesFor(updates, rows, items, dir, Skus(items))
    ensures DistinctTargets(updates) && forall j :: 0 <= j < |updates| ==> updates[j].0 < |rows|
  {
    SkusDistinct(items);
    forall i, j | 0 <= i < j < |updates|
      ensures updates[i].0 != updates[j].0
    {
      assert RowOf(rows, Skus(items)[i]) == Some(updates[i].0) && RowOf(rows, Skus(items)[j]) == Some(updates[j].0);
    }
  }

  class Spreadsheet {
    var rows: seq<Product>
    var ledger: seq<Movement>
    var cache: Option<seq<Movement>>

    ghost predicate Valid()
      reads this
    {
      Sheets.Valid(Sheet(rows, ledger, cache))
    }

    /** The abstract value. */
    ghost function Snapshot(): StockSheet
      reads this
      requires Valid()
    {
      Sheet(rows, ledger, cache)
    }

    constructor (rows: seq<Product>, ledger: seq<Movement>)
      ensures Valid() && Snapshot() == Sheet(rows, ledger, None)
    {
      this.rows, this.ledger, this.cache := rows, ledger, None;
    }

    /** The process starts again: the copy is gone, the sheet is not. */
    method Forget()
      requires Valid()
      modifies this`cache
      ensures Valid() && Snapshot() == old(Snapshot()).(cache := None)
    {
      cache := None;
    }

    /** The checks and updates of one requested SKU after another. */
    method PrepareUpdates(items: seq<Item>, order: seq<Sku>, requested: map<Sku, int>, dir: Direction, op: OpId,
                          index: map<Sku, nat>)
        returns (problem: Option<Error>, updates: seq<(nat, int)>, written: seq<Movement>, newStock: map<Sku, int>)
      requires ValidItems(items) && order == Skus(items) && requested.Keys == set sku | sku in order
      requires forall sku :: sku in order ==> requested[sku] == Total(items, sku)
      requires forall sku :: sku != "" ==> (sku in index <==> RowOf(rows, sku).Some?)
      requires forall sku :: sku in index ==> RowOf(rows, sku) == Some(index[sku])
      ensures problem == FirstProblem(rows, items, dir, Skus(items))
      ensures problem.None? ==> UpdatesFor(updates, rows, items, dir, Skus(items))
      ensures problem.None? ==> written == Written(rows, items, dir, op) && newStock == AfterMap(written)
    {
      hide Problem, RowOf, Total, Skus, AfterMap, FirstProblem, Written;
      problem, updates, written, newStock := None, [], [], map[];
      ghost var target := Written(rows, items, dir, op);
      NothingYet(rows, items, dir, order);
      for i := 0 to |order|
        invariant problem.None? && FirstProblem(rows, items, dir, order[..i]).None?
        invariant UpdatesFor(updates, rows, items, dir, order[..i])
        invariant |target| == |order| && written == target[..i] && newStock == AfterMap(written)
      {
        var sku := order[i];
        SkusValid(items, sku);
        var trouble: Option<Error>, stock := CheckSku(items, sku, requested[sku], dir, index);
        if trouble.Some? {
          FirstProblemStays(rows, items, dir, order, i);
          return trouble, [], [], map[];
        }
        ProblemGrows(rows, items, dir, order, i);
        var row := index[sku];
        var movement := Movement(op, dir, sku, requested[sku], rows[row].stock, stock);
        WrittenAt(rows, items, dir, op, i, row);
        AfterMapGrows(written, movement);
        newStock := newStock[sku := stock];
        updates := updates + [(row, stock)];
        written := written + [movement];
      }
      assert order[..|order|] == order && target[..|order|] == target;
    }

    /** One requested SKU against its row. */
    method CheckSku(items: seq<Item>, sku: Sku, quantity: int, dir: Direction, index: map<Sku, nat>)
        returns (trouble: Option<Error>, stock: int)
      requires quantity == Total(items, sku)
      requires sku in index <==> RowOf(rows, sku).Some?
      requires sku in index ==> RowOf(rows, sku) == Some(index[sku])
      ensures trouble == Problem(rows, items, dir, sku)
      ensures trouble.None? ==> sku in index && stock == rows[index[sku]].stock + Sign(dir) * quantity
    {
      stock := 0;
      if sku !in index {
        return Some(UnknownSku(sku)), 0;
      }
      var row := rows[index[sku]];
      if dir == Deduct {
        if !row.active {
          return Some(InactiveSku(sku)), 0;
        }
        var expected := FindExpectedPrice(items, sku);
        if expected.Some?
            && (row.price.None? || row.price.value - expected.value > 1 || expected.value - row.price.value > 1) {
          return Some(PriceChanged(sku)), 0;
        }
      }
      stock := row.stock + Sign(dir) * quantity;
      if stock < 0 {
        return Some(InsufficientStock(sku)), 0;
      }
      trouble := None;
    }

    /** `_update_stock` with an operation id. */
    method UpdateStock(items: seq<Item>, dir: Direction, op: OpId, fault: Fault)
        returns (result: Result<map<Sku, int>, Error>)
      requires Valid()
      modifies this
      ensures Valid() && (Snapshot(), result) == Sheets.UpdateStock(old(Snapshot()), items, dir, op, fault)
    {
      hide Validate, OpRows, FirstProblem, Written, Moved, Skus, Total, AfterMap, RowOf, HasDuplicate, UpdatesFor;
      var ok, order, requested := BuildRequest(items);
      if !ok {
        return Failure(InvalidItem);
      }
      if fault == FailBeforeRead {
        return Failure(Unavailable);
      }
      if cache.None? {
        cache := Some(ledger);
      }
      var seen := cache.value;
      var existing := OperationRows(seen, op);
      RecordedHasRows(seen, op);
      if existing != [] {
        result := ValidateExisting(existing, items, order, requested, dir);
        return;
      }
      if fault == FailBeforeCommit {
        return Failure(Unavailable);
      }
      result := MoveStock(items, order, requested, dir, op, fault);
    }

    /** The part of `_update_stock` that follows the ledger lookup: check every SKU, then write
        stock cells and ledger rows in one batch. */
    method MoveStock(items: seq<Item>, order: seq<Sku>, requested: map<Sku, int>, dir: Direction, op: OpId,
                     fault: Fault)
        returns (result: Result<map<Sku, int>, Error>)
      requires Valid() && cache.Some?
      requires ValidItems(items) && order == Skus(items) && requested.Keys == set sku | sku in order
      requires forall sku :: sku in order ==> requested[sku] == Total(items, sku)
      modifies this
      ensures Valid()
      ensures var blocked := Blocked(old(rows), items, dir);
        var lost := fault == FailAfterCommit && items != [];
        if blocked.Some? then Snapshot() == old(Snapshot()) && result == Failure(blocked.value)
        else
          && Snapshot() == Commit(old(Snapshot()), old(cache).value, items, dir, op, !lost)
          && result == if lost then Failure(Unavailable) else Success(AfterMap(Written(old(rows), items, dir, op)))
    {
      hide FirstProblem, Written, Moved, Skus, Total, AfterMap, RowOf, HasDuplicate, UpdatesFor;
      var seen := cache.value;
      var duplicate, index := IndexRows(rows);
      if duplicate {
        return Failure(DuplicateSku);
      }
      var problem, updates, written, newStock := PrepareUpdates(items, order, requested, dir, op, index);
      if problem.Some? {
        return Failure(problem.value);
      }
      SkusNonEmpty(items);
      UpdatesCount(updates, rows, items, dir);
      if updates != [] {
        DistinctUpdates(updates, rows, items, dir);
        var moved := WriteCells(rows, updates);
        UpdatesAreMoved(updates, rows, moved, items, dir);
        rows, ledger := moved, Overwrite(ledger, |seen|, written);
        if fault == FailAfterCommit {
          return Failure(Unavailable);
        }
        cache := Some(seen + written);
      } else {
        NothingMoves(Snapshot(), seen, dir, op);
      }
      result := Success(newStock);
    }

    /** `inventory_operation_applied`: the ledger is always read afresh. */
    method OperationApplied(op: OpId, items: seq<Item>, dir: Direction, readable: bool)
        returns (result: Result<bool, Error>)
      requires Valid()
      modifies this`cache
      ensures Valid() && (Snapshot(), result) == Sheets.OperationApplied(old(Snapshot()), op, items, dir, readable)
    {
      var ok, order, requested := BuildRequest(items);
      if !ok {
        return Failure(InvalidItem);
      }
      if !readable {
        return Failure(Unavailable);
      }
      cache := Some(ledger);
      var existing := OperationRows(ledger, op);
      RecordedHasRows(ledger, op);
      if existing == [] {
        return Success(false);
      }
      var verdict := ValidateExisting(existing, items, order, requested, dir);
      result := if verdict.Failure? then Failure(verdict.error) else Success(true);
    }
  }

  /** Later SKUs cannot undo the first problem found. */
  lemma {:induction false} FirstProblemStays(rows: seq<Product>, items: seq<Item>, dir: Direction, order: seq<Sku>,
                                             at: nat)
    requires at < |order| && FirstProblem(rows, items, dir, order[..at]).None?
    requires Problem(rows, items, dir, order[at]).Some?
    ensures FirstProblem(rows, items, dir, order) == Problem(rows, items, dir, order[at])
    decreases |order|
  {
    var n := |order| - 1;
    if at < n {
      assert order[..n][..at] == order[..at];
      FirstProblemStays(rows, items, dir, order[..n], at);
    } else {
      assert order[..n] == order[..at];
    }
  }

  lemma NothingMoves(sh: StockSheet, seen: seq<Movement>, dir: Direction, op: OpId)
    requires |seen| <= |sh.ledger|
    ensures Commit(sh, seen, [], dir, op, true) == sh.(cache := Some(seen))
  {
    assert Written(sh.rows, [], dir, op) == [];
    assert Moved(sh.rows, [], dir) == sh.rows;
    assert Overwrite(sh.ledger, |seen|, []) == sh.ledger;
    assert seen + [] == seen;
  }

  lemma NothingYet(rows: seq<Product>, items: seq<Item>, dir: Direction, order: seq<Sku>)
    requires order == Skus(items)
    ensures FirstProblem(rows, items, dir, order[..0]).None? && UpdatesFor([], rows, items, dir, order[..0])
    ensures AfterMap([]) == map[]
    ensures forall op :: |Written(rows, items, dir, op)| == |order|
  {
  }

  lemma WrittenAt(rows: seq<Product>, items: seq<Item>, dir: Direction, op: OpId, i: nat, row: nat)
    requires i < |Skus(items)| && RowOf(rows, Skus(items)[i]) == Some(row)
    ensures var sku := Skus(items)[i];
      var quantity := Total(items, sku);
      Written(rows, items, dir, op)[i]
        == Movement(op, dir, sku, quantity, rows[row].stock, rows[row].stock + Sign(dir) * quantity)
  {
  }

  lemma AfterMapGrows(rows: seq<Movement>, row: Movement)
    ensures AfterMap(rows + [row]) == AfterMap(rows)[row.sku := row.after]
  {
    assert (rows + [row])[..|rows|] == rows;
  }

  lemma ProblemGrows(rows: seq<Product>, items: seq<Item>, dir: Direction, order: seq<Sku>, i: nat)
    requires i < |order| && FirstProblem(rows, items, dir, order[..i]).None?
    requires Problem(rows, items, dir, order[i]).None?
    ensures FirstProblem(rows, items, dir, order[..i + 1]).None?
  {
    hide Problem;
    assert order[..i + 1][..i] == order[..i];
  }
}
