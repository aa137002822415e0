/** Grouping of catalog rows into products (store/app/catalog/sheets.py) against the resolution of an
    order line to a row (store/app/crm/orders.py). Lower-casing and the size-suffix pattern are
    arbitrary functions; texts come trimmed and sizes normalised, as the sheet parser leaves them. */
module Catalog {
  import opened Common

  type Sku = string

  /** The text in lower case. */
  type Lower = string -> string

  /** A SKU read as base and upper-case size, when it ends in a size suffix. */
  type Split = Sku -> Option<(string, string)>

  /** One active row; prices are cents. */
  datatype Row = Row(sku: Sku, parent: Sku, name: string, brand: string, category: string,
                     sizes: seq<string>, price: int, stock: int)

  // ---------------------------------------------------------------- derived products

  /** A row whose SKU ends in its own single size and that names no parent. */
  predicate Candidate(r: Row, split: Split) {
    r.parent == "" && split(r.sku).Some? && |r.sizes| == 1 && split(r.sku).value.1 == r.sizes[0]
  }

  function BaseKey(r: Row, split: Split, lower: Lower): string
    requires Candidate(r, split)
  {
    lower(split(r.sku).value.0)
  }

  function Family(rows: seq<Row>, base: string, split: Split, lower: Lower): (r: seq<Row>)
    ensures forall x :: x in r ==> x in rows && Candidate(x, split) && BaseKey(x, split, lower) == base
  {
    if rows == [] then []
    else
      var n := |rows| - 1;
      Family(rows[..n], base, split, lower)
      + (if Candidate(rows[n], split) && BaseKey(rows[n], split, lower) == base then [rows[n]] else [])
  }

  /** At least two SKUs and at least two sizes. */
  predicate Confirmed(family: seq<Row>, split: Split)
    requires forall r :: r in family ==> Candidate(r, split)
  {
    |set r | r in family :: r.sku| >= 2 && |set r | r in family && |r.sizes| == 1 :: r.sizes[0]| >= 2
  }

  predicate Derives(rows: seq<Row>, r: Row, split: Split, lower: Lower) {
    Candidate(r, split) && Confirmed(Family(rows, BaseKey(r, split, lower), split, lower), split)
  }

  /** `get_confirmed_derived_product_skus`: the SKUs of confirmed families, each with the base as the
      first row of the family spells it. */
  function Derived(rows: seq<Row>, split: Split, lower: Lower): map<Sku, Sku> {
    map sku | sku in (set r | r in rows && Derives(rows, r, split, lower) :: r.sku) && split(sku).Some? ::
      FirstBase(rows, lower(split(sku).value.0), split, lower)
  }

  function FirstBase(rows: seq<Row>, base: string, split: Split, lower: Lower): Sku {
    var family := Family(rows, base, split, lower);
    if family == [] then ""
    else
      var first := family[0];
      assert first in family;
      split(first.sku).value.0
  }

  lemma {:induction false} FamilyMeans(rows: seq<Row>, base: string, split: Split, lower: Lower, r: Row)
    ensures r in Family(rows, base, split, lower) <==>
      r in rows && Candidate(r, split) && BaseKey(r, split, lower) == base
  {
    if rows != [] {
      var n := |rows| - 1;
      FamilyMeans(rows[..n], base, split, lower, r);
      assert r in rows <==> r in rows[..n] || r == rows[n];
    }
  }

  /** The suffix pattern never matches the empty SKU and never leaves an empty base. */
  ghost predicate SplitFits(split: Split) {
    split("").None? && forall sku :: split(sku).Some? ==> split(sku).value.0 != ""
  }

  lemma DerivedIsNonEmpty(rows: seq<Row>, split: Split, lower: Lower)
    requires SplitFits(split)
    ensures DerivedFits(Derived(rows, split, lower))
  {
    var derived := Derived(rows, split, lower);
    forall sku | sku in derived
      ensures sku != "" && derived[sku] != ""
    {
      var r :| r in rows && Derives(rows, r, split, lower) && r.sku == sku;
      FamilyMeans(rows, BaseKey(r, split, lower), split, lower, r);
      var first := Family(rows, BaseKey(r, split, lower), split, lower)[0];
      assert first in Family(rows, BaseKey(r, split, lower), split, lower);
    }
  }

  /** Derived bases are never empty and belong to SKUs that are not. */
  predicate DerivedFits(derived: map<Sku, Sku>) {
    forall sku :: sku in derived ==> sku != "" && derived[sku] != ""
  }

  /** A family is confirmed as a whole, under one spelling of its base, and so grouped as a whole. */
  lemma FamilyStaysTogether(rows: seq<Row>, a: Row, b: Row, split: Split, lower: Lower)
    requires a in rows && b in rows && Candidate(a, split) && Candidate(b, split)
    requires BaseKey(a, split, lower) == BaseKey(b, split, lower) && Derives(rows, a, split, lower)
    requires SplitFits(split)
    ensures var derived := Derived(rows, split, lower);
      && a.sku in derived && b.sku in derived && derived[a.sku] == derived[b.sku]
      && GroupKey(a, derived, lower) == GroupKey(b, derived, lower)
  {
    assert Derives(rows, b, split, lower);
  }

  /** Candidates by base, in the order of the catalog. */
  predicate Collected(candidates: map<string, seq<Row>>, rows: seq<Row>, split: Split, lower: Lower) {
    && (forall base :: base in candidates ==>
         candidates[base] == Family(rows, base, split, lower) && candidates[base] != [])
    && (forall i :: 0 <= i < |rows| && Candidate(rows[i], split) ==> BaseKey(rows[i], split, lower) in candidates)
  }

  method CollectCandidates(rows: seq<Row>, split: Split, lower: Lower) returns (candidates: map<string, seq<Row>>)
    ensures Collected(candidates, rows, split, lower)
  {
    candidates := map[];
    for i := 0 to |rows|
      invariant Collected(candidates, rows[..i], split, lower)
    {
      CollectOne(candidates, rows, i, split, lower);
      if Candidate(rows[i], split) {
        var base := BaseKey(rows[i], split, lower);
        candidates := candidates[base := (if base in candidates then candidates[base] else []) + [rows[i]]];
      }
    }
    assert rows[..|rows|] == rows;
  }

  lemma CollectOne(candidates: map<string, seq<Row>>, rows: seq<Row>, i: nat, split: Split, lower: Lower)
    requires i < |rows| && Collected(candidates, rows[..i], split, lower)
    ensures !Candidate(rows[i], split) ==> Collected(candidates, rows[..i + 1], split, lower)
    ensures Candidate(rows[i], split) ==>
      var base := BaseKey(rows[i], split, lower);
      Collected(candidates[base := (if base in candidates then candidates[base] else []) + [rows[i]]], rows[..i + 1],
          split, lower)
  {
    hide BaseKey, Candidate, Family;
    forall base
      ensures base !in candidates ==> Family(rows[..i], base, split, lower) == []
      ensures Family(rows[..i + 1], base, split, lower) ==
        if Candidate(rows[i], split) && BaseKey(rows[i], split, lower) == base
        then Family(rows[..i], base, split, lower) + [rows[i]] else Family(rows[..i], base, split, lower)
    {
      NoFamily(candidates, rows[..i], base, split, lower);
      FamilyGrows(rows, i, base, split, lower);
    }
    var front := rows[..i + 1];
    assert forall j :: 0 <= j < i ==> front[j] == rows[..i][j];
  }

  lemma FamilyGrows(rows: seq<Row>, i: nat, base: string, split: Split, lower: Lower)
    requires i < |rows|
    ensures Family(rows[..i + 1], base, split, lower) ==
      if Candidate(rows[i], split) && BaseKey(rows[i], split, lower) == base
      then Family(rows[..i], base, split, lower) + [rows[i]] else Family(rows[..i], base, split, lower)
  {
    assert rows[..i + 1][..i] == rows[..i];
    var front := Family(rows[..i], base, split, lower);
    assert front + [] == front;
  }

  lemma NoFamily(candidates: map<string, seq<Row>>, rows: seq<Row>, base: string, split: Split, lower: Lower)
    requires Collected(candidates, rows, split, lower)
    ensures base !in candidates ==> Family(rows, base, split, lower) == []
  {
    hide BaseKey, Candidate, Family;
    assert Family(rows, base, split, lower) != [] ==>
        Family(rows, base, split, lower)[0] in Family(rows, base, split, lower);
  }

  function SkusOf(family: seq<Row>): set<Sku> {
    set r | r in family :: r.sku
  }

  function SkuBase(sku: Sku, split: Split, lower: Lower): string {
    if split(sku).Some? then lower(split(sku).value.0) else ""
  }

  predicate SkuDerives(rows: seq<Row>, sku: Sku, split: Split, lower: Lower) {
    exists r :: r in rows && Derives(rows, r, split, lower) && r.sku == sku
  }

  /** The SKUs of the families looked at so far. */
  ghost predicate SoFar(derived: map<Sku, Sku>, rows: seq<Row>, left: set<string>, split: Split, lower: Lower) {
    && (forall sku :: sku in derived <==> SkuDerives(rows, sku, split, lower) && SkuBase(sku, split, lower) !in left)
    && (forall sku :: sku in derived ==> derived[sku] == FirstBase(rows, SkuBase(sku, split, lower), split, lower))
  }

  /** The SKUs of one family derive together or not at all. */
  lemma FamilySkus(rows: seq<Row>, base: string, sku: Sku, split: Split, lower: Lower)
    ensures SkuDerives(rows, sku, split, lower) && SkuBase(sku, split, lower) == base <==>
      Confirmed(Family(rows, base, split, lower), split) && sku in SkusOf(Family(rows, base, split, lower))
  {
    hide Confirmed, Family;
    var family := Family(rows, base, split, lower);
    if SkuDerives(rows, sku, split, lower) && SkuBase(sku, split, lower) == base {
      var r :| r in rows && Derives(rows, r, split, lower) && r.sku == sku;
      FamilyMeans(rows, base, split, lower, r);
    }
    if Confirmed(family, split) && sku in SkusOf(family) {
      var r :| r in family && r.sku == sku;
      FamilyMeans(rows, base, split, lower, r);
      assert Derives(rows, r, split, lower);
    }
  }

  lemma AddFamily(derived: map<Sku, Sku>, rows: seq<Row>, left: set<string>, base: string, split: Split, lower: Lower)
    requires SoFar(derived, rows, left, split, lower) && base in left
    requires Family(rows, base, split, lower) != []
    ensures var family := Family(rows, base, split, lower);
      && family[0] in family
      && SoFar(if Confirmed(family, split)
               then derived + map sku | sku in SkusOf(family) :: split(family[0].sku).value.0
               else derived, rows, left - {base}, split, lower)
  {
    var family := Family(rows, base, split, lower);
    assert family[0] in family;
    assert FirstBase(rows, base, split, lower) == split(family[0].sku).value.0;
    hide *;
    forall sku
      ensures SkuDerives(rows, sku, split, lower) && SkuBase(sku, split, lower) == base <==>
        Confirmed(family, split) && sku in SkusOf(family)
    {
      FamilySkus(rows, base, sku, split, lower);
    }
    SoFarGrows(derived, rows, left, base, family, split, lower);
  }

  lemma SoFarGrows(derived: map<Sku, Sku>, rows: seq<Row>, left: set<string>, base: string, family: seq<Row>,
                   split: Split, lower: Lower)
    requires SoFar(derived, rows, left, split, lower) && base in left && family != []
    requires forall r :: r in family ==> Candidate(r, split)
    requires family[0] in family && Candidate(family[0], split)
    requires FirstBase(rows, base, split, lower) == split(family[0].sku).value.0
    requires forall sku :: SkuDerives(rows, sku, split, lower) && SkuBase(sku, split, lower) == base <==>
               Confirmed(family, split) && sku in SkusOf(family)
    ensures SoFar(if Confirmed(family, split)
                  then derived + map sku | sku in SkusOf(family) :: split(family[0].sku).value.0
                  else derived, rows, left - {base}, split, lower)
  {
    hide Confirmed, SkusOf, SkuDerives, SkuBase, FirstBase;
  }

  lemma AllConfirmed(derived: map<Sku, Sku>, rows: seq<Row>, split: Split, lower: Lower)
    requires SoFar(derived, rows, {}, split, lower)
    ensures derived == Derived(rows, split, lower)
  {
    hide FirstBase, Derives;
    forall sku | SkuDerives(rows, sku, split, lower)
      ensures split(sku).Some?
    {
      var r :| r in rows && Derives(rows, r, split, lower) && r.sku == sku;
      DerivesMeans(rows, r, split, lower);
    }
    assert forall sku :: sku in Derived(rows, split, lower) <==> sku in derived;
  }

  lemma DerivesMeans(rows: seq<Row>, r: Row, split: Split, lower: Lower)
    requires Derives(rows, r, split, lower)
    ensures split(r.sku).Some?
  {
  }

  lemma NoneConfirmed(candidates: map<string, seq<Row>>, rows: seq<Row>, split: Split, lower: Lower)
    requires Collected(candidates, rows, split, lower)
    ensures SoFar(map[], rows, candidates.Keys, split, lower)
  {
    hide Family, Confirmed;
    forall sku | SkuDerives(rows, sku, split, lower)
      ensures SkuBase(sku, split, lower) in candidates
    {
      var r :| r in rows && Derives(rows, r, split, lower) && r.sku == sku;
      var i :| 0 <= i < |rows| && rows[i] == r;
    }
  }

  /** `get_confirmed_derived_product_skus`: collect the candidates by base, then keep confirmed families. */
  method ConfirmDerived(rows: seq<Row>, split: Split, lower: Lower) returns (derived: map<Sku, Sku>)
    ensures derived == Derived(rows, split, lower)
  {
    var candidates := CollectCandidates(rows, split, lower);
    derived := map[];
    var left := candidates.Keys;
    NoneConfirmed(candidates, rows, split, lower);
    hide SoFar, Confirmed, Family, Derived;
    while left != {}
      invariant left <= candidates.Keys && SoFar(derived, rows, left, split, lower)
      decreases |left|
    {
      var base :| base in left;
      var family := candidates[base];
      AddFamily(derived, rows, left, base, split, lower);
      if Confirmed(family, split) {
        derived := derived + map sku | sku in SkusOf(family) :: split(family[0].sku).value.0;
      }
      left := left - {base};
    }
    AllConfirmed(derived, rows, split, lower);
  }

  // ---------------------------------------------------------------- grouping

  /** The SKU a customer orders a row under. */
  function ProductSku(r: Row, derived: map<Sku, Sku>): Sku {
    if r.parent != "" then r.parent else if r.sku in derived && derived[r.sku] != "" then derived[r.sku] else r.sku
  }

  /** `_catalog_group_key`. */
  function GroupKey(r: Row, derived: map<Sku, Sku>, lower: Lower): string {
    if r.parent != "" then lower(r.parent)
    else if r.sku != "" then lower(if r.sku in derived then derived[r.sku] else r.sku)
    else lower(r.brand) + "|" + lower(r.name) + "|" + lower(r.category)
  }

  function Members(rows: seq<Row>, key: string, derived: map<Sku, Sku>, lower: Lower): seq<Row> {
    if rows == [] then []
    else
      var n := |rows| - 1;
      Members(rows[..n], key, derived, lower) + (if GroupKey(rows[n], derived, lower) == key then [rows[n]] else [])
  }

  function Stock(rows: seq<Row>): int {
    if rows == [] then 0 else Stock(rows[..|rows| - 1]) + Max(rows[|rows| - 1].stock, 0)
  }

  function SizesOf(rows: seq<Row>): set<string> {
    if rows == [] then {} else SizesOf(rows[..|rows| - 1]) + SizeSet(rows[|rows| - 1])
  }

  function SizeSet(r: Row): set<string> {
    set x | x in r.sizes
  }

  function Prices(rows: seq<Row>): set<int> {
    if rows == [] then {} else Prices(rows[..|rows| - 1]) + {rows[|rows| - 1].price}
  }

  /** The first SKU offered for each size. */
  function SizeSkus(rows: seq<Row>): map<string, Sku> {
    if rows == [] then map[]
    else
      var last := rows[|rows| - 1];
      var front := SizeSkus(rows[..|rows| - 1]);
      if last.sku == "" then front
      else front + map x | x in last.sizes && x !in front :: last.sku
  }

  /** One customer-facing product. */
  datatype Group = Group(sku: Sku, stock: int, sizes: set<string>, prices: set<int>, variants: seq<Row>,
                         sizeSkus: map<string, Sku>)

  function GroupOf(members: seq<Row>, derived: map<Sku, Sku>): Group
    requires members != []
  {
    Group(ProductSku(members[0], derived), Stock(members), SizesOf(members), Prices(members), members,
        SizeSkus(members))
  }

  /** What the groups of a catalog are: for each key in use, the rows with that key and their totals. */
  predicate Grouped(groups: map<string, Group>, rows: seq<Row>, derived: map<Sku, Sku>, lower: Lower) {
    && (forall i :: 0 <= i < |rows| ==> GroupKey(rows[i], derived, lower) in groups)
    && (forall key :: key in groups ==>
          && Members(rows, key, derived, lower) != []
          && groups[key] == GroupOf(Members(rows, key, derived, lower), derived))
  }

  lemma AddMember(rows: seq<Row>, i: nat, key: string, derived: map<Sku, Sku>, lower: Lower)
    requires i < |rows|
    ensures Members(rows[..i + 1], key, derived, lower)
         == Members(rows[..i], key, derived, lower)
             + (if GroupKey(rows[i], derived, lower) == key then [rows[i]] else [])
  {
    assert rows[..i + 1][..i] == rows[..i];
  }

  lemma GroupGrows(members: seq<Row>, r: Row, derived: map<Sku, Sku>)
    ensures var g := GroupOf(members + [r], derived);
      && g.stock == Stock(members) + Max(r.stock, 0)
      && g.sizes == SizesOf(members) + SizeSet(r)
      && g.prices == Prices(members) + {r.price}
      && g.sizeSkus == (if r.sku == "" then SizeSkus(members)
                        else SizeSkus(members) + map x | x in r.sizes && x !in SizeSkus(members) :: r.sku)
      && g.sku == ProductSku(if members == [] then r else members[0], derived)
  {
    assert (members + [r])[..|members|] == members;
  }

  /** `group_catalog_products`, up to the sorting of its result; `order` lists the groups as they
      first appear. */
  method GroupProducts(rows: seq<Row>, derived: map<Sku, Sku>, lower: Lower)
      returns (groups: map<string, Group>, order: seq<string>)
    ensures Grouped(groups, rows, derived, lower)
    ensures Distinct(order) && forall key :: key in order <==> key in groups
  {
    hide GroupKey, ProductSku, Stock, SizesOf, Prices, SizeSkus, GroupOf, Members;
    groups, order := map[], [];
    for i := 0 to |rows|
      invariant Grouped(groups, rows[..i], derived, lower)
      invariant Distinct(order) && forall key :: key in order <==> key in groups
    {
      var r := rows[i];
      var key := GroupKey(r, derived, lower);
      ghost var members := Members(rows[..i], key, derived, lower);
      Unlisted(groups, rows[..i], key, derived, lower);
      var g := if key in groups then groups[key] else Group(ProductSku(r, derived), 0, {}, {}, [], map[]);
      g := g.(stock := g.stock + Max(r.stock, 0), prices := g.prices + {r.price}, sizes := g.sizes + SizeSet(r),
              variants := g.variants + [r]);
      if r.sku != "" {
        g := g.(sizeSkus := g.sizeSkus + map x | x in r.sizes && x !in g.sizeSkus :: r.sku);
      }
      GroupStep(groups, members, key, r, g, derived);
      if key !in groups {
        order := order + [key];
      }
      StillGrouped(groups, rows, i, g, derived, lower);
      groups := groups[key := g];
    }
    assert rows[..|rows|] == rows;
  }

  /** A key without a group has no rows yet. */
  lemma Unlisted(groups: map<string, Group>, rows: seq<Row>, key: string, derived: map<Sku, Sku>, lower: Lower)
    requires Grouped(groups, rows, derived, lower)
    ensures key in groups <==> Members(rows, key, derived, lower) != []
  {
    hide GroupKey, GroupOf;
    if key !in groups {
      NoMembers(rows, key, derived, lower);
    }
  }

  lemma {:induction false} NoMembers(rows: seq<Row>, key: string, derived: map<Sku, Sku>, lower: Lower)
    requires forall i :: 0 <= i < |rows| ==> GroupKey(rows[i], derived, lower) != key
    ensures Members(rows, key, derived, lower) == []
  {
    hide GroupKey;
    if rows != [] {
      NoMembers(rows[..|rows| - 1], key, derived, lower);
    }
  }

  lemma GroupStep(groups: map<string, Group>, members: seq<Row>, key: string, r: Row, g: Group, derived: map<Sku, Sku>)
    requires key in groups <==> members != []
    requires key in groups ==> groups[key] == GroupOf(members, derived)
    requires var before := if key in groups then groups[key] else Group(ProductSku(r, derived), 0, {}, {}, [], map[]);
      g == Group(before.sku, before.stock + Max(r.stock, 0), before.sizes + SizeSet(r), before.prices + {r.price},
                 before.variants + [r],
                 if r.sku == "" then before.sizeSkus
                 else before.sizeSkus + map x | x in r.sizes && x !in before.sizeSkus :: r.sku)
    ensures g == GroupOf(members + [r], derived)
  {
    GroupGrows(members, r, derived);
    hide ProductSku;
  }

  lemma StillGrouped(groups: map<string, Group>, rows: seq<Row>, i: nat, g: Group, derived: map<Sku, Sku>, lower: Lower)
    requires i < |rows| && Grouped(groups, rows[..i], derived, lower)
    requires g == GroupOf(Members(rows[..i], GroupKey(rows[i], derived, lower), derived, lower) + [rows[i]], derived)
    ensures Grouped(groups[GroupKey(rows[i], derived, lower) := g], rows[..i + 1], derived, lower)
  {
    hide GroupKey, GroupOf, Members;
    var t := groups[GroupKey(rows[i], derived, lower) := g];
    var front := rows[..i + 1];
    forall j | 0 <= j < |front|
      ensures GroupKey(front[j], derived, lower) in t
    {
      if j < i {
        assert front[j] == rows[..i][j];
      }
    }
    forall key | key in t
      ensures Members(rows[..i + 1], key, derived, lower) != []
      ensures t[key] == GroupOf(Members(rows[..i + 1], key, derived, lower), derived)
    {
      AddMember(rows, i, key, derived, lower);
      var before := Members(rows[..i], key, derived, lower);
      assert before + [] == before;
    }
  }

  // ---------------------------------------------------------------- what grouping keeps

  /** Each row is a variant of exactly the group of its key, as often as the catalog lists it. */
  lemma {:induction false} GroupsPartition(rows: seq<Row>, key: string, r: Row, derived: map<Sku, Sku>, lower: Lower)
    ensures multiset(Members(rows, key, derived, lower))[r]
         == if GroupKey(r, derived, lower) == key then multiset(rows)[r] else 0
  {
    hide GroupKey;
    if rows != [] {
      var n := |rows| - 1;
      GroupsPartition(rows[..n], key, r, derived, lower);
      assert rows == rows[..n] + [rows[n]];
    }
  }

  function StockOf(rows: seq<Row>, derived: map<Sku, Sku>, lower: Lower): string -> int {
    key => Stock(Members(rows, key, derived, lower))
  }

  /** The stocks of the groups add up to the stock of the catalog, negative rows counting nothing. */
  lemma {:induction false} GroupStockAddsUp(rows: seq<Row>, order: seq<string>, derived: map<Sku, Sku>, lower: Lower)
    requires Distinct(order) && forall i :: 0 <= i < |rows| ==> GroupKey(rows[i], derived, lower) in order
    ensures Sum(order, StockOf(rows, derived, lower)) == Stock(rows)
  {
    hide GroupKey, Stock, Members;
    if rows == [] {
      NoStock(order, derived, lower);
    } else {
      var n := |rows| - 1;
      GroupStockAddsUp(rows[..n], order, derived, lower);
      var key := GroupKey(rows[n], derived, lower);
      forall k | k in order
        ensures StockOf(rows, derived, lower)(k)
             == StockOf(rows[..n], derived, lower)(k) + (if k == key then Max(rows[n].stock, 0) else 0)
      {
        MemberStock(rows, k, derived, lower);
      }
      assert rows == rows[..n] + [rows[n]];
      StockGrows(rows[..n], rows[n]);
      SumChange(order, StockOf(rows[..n], derived, lower), StockOf(rows, derived, lower), key);
    }
  }

  lemma {:induction false} NoStock(order: seq<string>, derived: map<Sku, Sku>, lower: Lower)
    ensures Sum(order, StockOf([], derived, lower)) == 0 && Stock([]) == 0
  {
    if order != [] {
      NoStock(order[..|order| - 1], derived, lower);
    }
  }

  lemma MemberStock(rows: seq<Row>, key: string, derived: map<Sku, Sku>, lower: Lower)
    requires rows != []
    ensures var n := |rows| - 1;
      Stock(Members(rows, key, derived, lower)) == Stock(Members(rows[..n], key, derived, lower))
        + (if GroupKey(rows[n], derived, lower) == key then Max(rows[n].stock, 0) else 0)
  {
    hide GroupKey;
    var n := |rows| - 1;
    var front := Members(rows[..n], key, derived, lower);
    StockGrows(front, rows[n]);
    assert Members(rows, key, derived, lower) == front
        + (if GroupKey(rows[n], derived, lower) == key then [rows[n]] else []);
  }

  lemma StockGrows(rows: seq<Row>, r: Row)
    ensures Stock(rows + [r]) == Stock(rows) + Max(r.stock, 0) && rows + [] == rows
  {
    assert (rows + [r])[..|rows|] == rows;
  }

  lemma {:induction false} PricesMean(rows: seq<Row>, price: int)
    ensures price in Prices(rows) <==> exists i :: 0 <= i < |rows| && rows[i].price == price
  {
    if rows != [] {
      var n := |rows| - 1;
      PricesMean(rows[..n], price);
      if price in Prices(rows[..n]) {
        var i :| 0 <= i < n && rows[..n][i].price == price;
        assert rows[i].price == price;
      }
    }
  }

  method Pick<T>(s: set<T>) returns (x: T)
    requires s != {}
    ensures x in s
  {
    x :| x in s;
  }

  /** The prices of a product: lowest, highest, and the single one when they agree. */
  method PriceSummary(prices: set<int>) returns (single: Option<int>, low: Option<int>, high: Option<int>)
    ensures low.None? <==> prices == {}
    ensures high.None? <==> prices == {}
    ensures prices != {} ==> low.value in prices && forall p :: p in prices ==> low.value <= p
    ensures prices != {} ==> high.value in prices && forall p :: p in prices ==> p <= high.value
    ensures single.Some? <==> prices != {} && OnePrice(prices)
    ensures single.Some? ==> single == low == high
  {
    single, low, high := None, None, None;
    if prices != {} {
      single, low, high := PriceRange(prices);
    }
  }

  method PriceRange(prices: set<int>) returns (single: Option<int>, low: Option<int>, high: Option<int>)
    requires prices != {}
    ensures low.Some? && low.value in prices && forall p :: p in prices ==> low.value <= p
    ensures high.Some? && high.value in prices && forall p :: p in prices ==> p <= high.value
    ensures single.Some? <==> OnePrice(prices)
    ensures single.Some? ==> single == low == high
  {
    var first := Pick(prices);
    var lowest, highest, left := first, first, prices - {first};
    while left != {}
      invariant left <= prices && lowest in prices && highest in prices
      invariant forall p :: p in prices && p !in left ==> lowest <= p <= highest
      decreases |left|
    {
      var p := Pick(left);
      left := left - {p};
      lowest, highest := if p < lowest then p else lowest, if p > highest then p else highest;
    }
    OneElement(prices, lowest);
    single, low, high := if |prices| == 1 then Some(lowest) else None, Some(lowest), Some(highest);
  }

  lemma OneElement(prices: set<int>, x: int)
    requires x in prices
    ensures |prices| == 1 <==> OnePrice(prices)
  {
    if |prices| == 1 {
      assert |prices - {x}| == 0;
      assert prices == {x};
    }
    if OnePrice(prices) {
      assert forall p :: p in prices <==> p == x;
      assert prices == {x};
    }
  }

  predicate OnePrice(prices: set<int>) {
    forall p, q :: p in prices && q in prices ==> p == q
  }

  predicate SamePrices(members: seq<Row>) {
    forall i, j :: 0 <= i < |members| && 0 <= j < |members| ==> members[i].price == members[j].price
  }

  /** A single price is given exactly when all variants cost the same. */
  lemma SinglePriceExactly(members: seq<Row>)
    ensures OnePrice(Prices(members)) <==> SamePrices(members)
  {
    if OnePrice(Prices(members)) {
      forall i, j | 0 <= i < |members| && 0 <= j < |members|
        ensures members[i].price == members[j].price
      {
        PricesMean(members, members[i].price);
        PricesMean(members, members[j].price);
      }
    }
    if SamePrices(members) {
      forall p, q | p in Prices(members) && q in Prices(members)
        ensures p == q
      {
        PricesMean(members, p);
        PricesMean(members, q);
      }
    }
  }

  // ---------------------------------------------------------------- resolving an order line

  predicate MatchesSize(r: Row, size: string) {
    size == "" || size in r.sizes
  }

  function FindSku(rows: seq<Row>, sku: Sku, size: string): Option<Row> {
    if rows == [] then None
    else if rows[0].sku == sku && MatchesSize(rows[0], size) then Some(rows[0])
    else FindSku(rows[1..], sku, size)
  }

  function FindParent(rows: seq<Row>, sku: Sku, size: string): Option<Row> {
    if rows == [] then None
    else if rows[0].parent == sku && MatchesSize(rows[0], size) then Some(rows[0])
    else FindParent(rows[1..], sku, size)
  }

  function FindDerived(rows: seq<Row>, sku: Sku, size: string, derived: map<Sku, Sku>): Option<Row> {
    if rows == [] then None
    else if rows[0].parent == "" && rows[0].sku in derived && derived[rows[0].sku] == sku && MatchesSize(rows[0], size)
    then Some(rows[0])
    else FindDerived(rows[1..], sku, size, derived)
  }

  function FindName(rows: seq<Row>, name: string, size: string, norm: Lower): Option<Row> {
    if rows == [] then None
    else if norm(rows[0].name) == norm(name) && MatchesSize(rows[0], size) then Some(rows[0])
    else FindName(rows[1..], name, size, norm)
  }

  /** `_resolve_catalog_variant`. */
  function Resolve(rows: seq<Row>, sku: Sku, name: string, size: string, derived: map<Sku, Sku>,
                   norm: Lower): Option<Row> {
    if sku != "" && FindSku(rows, sku, size).Some? then FindSku(rows, sku, size)
    else if sku != "" && FindParent(rows, sku, size).Some? then FindParent(rows, sku, size)
    else if sku != "" && FindDerived(rows, sku, size, derived).Some? then FindDerived(rows, sku, size, derived)
    else if norm(name) != "" then FindName(rows, name, size, norm)
    else None
  }

  lemma {:induction false} FindSkuMeans(rows: seq<Row>, sku: Sku, size: string)
    ensures var f := FindSku(rows, sku, size); f.Some? ==>
        f.value in rows && f.value.sku == sku && MatchesSize(f.value, size)
    ensures FindSku(rows, sku, size).None? ==> forall r :: r in rows ==> !(r.sku == sku && MatchesSize(r, size))
  {
    if rows != [] {
      FindSkuMeans(rows[1..], sku, size);
      assert forall r :: r in rows ==> r == rows[0] || r in rows[1..];
    }
  }

  lemma {:induction false} FindParentMeans(rows: seq<Row>, sku: Sku, size: string)
    ensures var f := FindParent(rows, sku, size); f.Some? ==>
        f.value in rows && f.value.parent == sku && MatchesSize(f.value, size)
    ensures FindParent(rows, sku, size).None? ==> forall r :: r in rows ==> !(r.parent == sku && MatchesSize(r, size))
  {
    if rows != [] {
      FindParentMeans(rows[1..], sku, size);
      assert forall r :: r in rows ==> r == rows[0] || r in rows[1..];
    }
  }

  predicate DerivedFrom(r: Row, sku: Sku, derived: map<Sku, Sku>) {
    r.parent == "" && r.sku in derived && derived[r.sku] == sku
  }

  lemma {:induction false} FindDerivedMeans(rows: seq<Row>, sku: Sku, size: string, derived: map<Sku, Sku>)
    ensures var f := FindDerived(rows, sku, size, derived);
      f.Some? ==> f.value in rows && DerivedFrom(f.value, sku, derived) && MatchesSize(f.value, size)
    ensures FindDerived(rows, sku, size, derived).None? ==>
              forall r :: r in rows ==> !(DerivedFrom(r, sku, derived) && MatchesSize(r, size))
  {
    if rows != [] {
      FindDerivedMeans(rows[1..], sku, size, derived);
      assert forall r :: r in rows ==> r == rows[0] || r in rows[1..];
    }
  }

  lemma {:induction false} MembersMean(rows: seq<Row>, key: string, derived: map<Sku, Sku>, lower: Lower, r: Row)
    ensures r in Members(rows, key, derived, lower) <==> r in rows && GroupKey(r, derived, lower) == key
  {
    hide GroupKey;
    if rows != [] {
      var n := |rows| - 1;
      MembersMean(rows[..n], key, derived, lower, r);
      assert r in rows <==> r in rows[..n] || r == rows[n];
    }
  }

  lemma {:induction false} SizesMean(rows: seq<Row>, size: string)
    ensures size in SizesOf(rows) <==> exists r :: r in rows && size in r.sizes
  {
    if rows != [] {
      var n := |rows| - 1;
      SizesMean(rows[..n], size);
      assert forall r :: r in rows <==> r in rows[..n] || r == rows[n];
    }
  }

  /** All rows of a group spell its SKU the same way. */
  predicate ConsistentlyCased(members: seq<Row>, derived: map<Sku, Sku>) {
    forall i :: 0 <= i < |members| ==> ProductSku(members[i], derived) == ProductSku(members[0], derived)
  }

  /** No row of another group has this group's SKU as its own. */
  predicate NoClash(rows: seq<Row>, sku: Sku, key: string, derived: map<Sku, Sku>, lower: Lower) {
    forall i :: 0 <= i < |rows| && rows[i].sku == sku ==> GroupKey(rows[i], derived, lower) == key
  }

  /** The group's own SKU, listed first in this size by another group. */
  predicate Stolen(rows: seq<Row>, sku: Sku, size: string, key: string, derived: map<Sku, Sku>, lower: Lower) {
    var direct := FindSku(rows, sku, size);
    direct.Some? && GroupKey(direct.value, derived, lower) != key
  }

  /** A line that orders the product under its SKU gets a row in that size; it is a row of that product
      exactly when no other product lists the SKU as its own first. */
  predicate LineStays(rows: seq<Row>, members: seq<Row>, key: string, size: string, name: string,
                      derived: map<Sku, Sku>, lower: Lower, norm: Lower)
    requires members != []
  {
    var sku := ProductSku(members[0], derived);
    var found := Resolve(rows, sku, name, size, derived, norm);
    && found.Some? && size in found.value.sizes
    && (found.value in members <==> !Stolen(rows, sku, size, key, derived, lower))
  }

  /** So it is for every consistently cased product, in any of its sizes. */
  lemma ResolveStaysExactly(rows: seq<Row>, key: string, size: string, name: string,
                            derived: map<Sku, Sku>, lower: Lower, norm: Lower)
    requires DerivedFits(derived)
    requires Members(rows, key, derived, lower) != []
    requires var members := Members(rows, key, derived, lower);
      var g := GroupOf(members, derived);
      g.sku != "" && size in g.sizes && size != "" && ConsistentlyCased(members, derived)
    ensures LineStays(rows, Members(rows, key, derived, lower), key, size, name, derived, lower, norm)
  {
    var members := Members(rows, key, derived, lower);
    var sku := ProductSku(members[0], derived);
    var r := SizeOwner(members, size);
    MembersMean(rows, key, derived, lower, r);
    MembersMean(rows, key, derived, lower, members[0]);
    assert ProductSku(r, derived) == sku && key == lower(sku);
    FindSkuMeans(rows, sku, size);
    FindParentMeans(rows, sku, size);
    FindDerivedMeans(rows, sku, size, derived);
    hide Members, GroupOf, FindSku, FindParent, FindDerived, FindName, ConsistentlyCased;
    if FindSku(rows, sku, size).Some? {
      MembersMean(rows, key, derived, lower, FindSku(rows, sku, size).value);
    } else if FindParent(rows, sku, size).Some? {
      MembersMean(rows, key, derived, lower, FindParent(rows, sku, size).value);
    } else {
      assert DerivedFrom(r, sku, derived);
      MembersMean(rows, key, derived, lower, FindDerived(rows, sku, size, derived).value);
    }
  }

  /** Without a clash between groups nothing is stolen. */
  lemma NothingStolen(rows: seq<Row>, sku: Sku, size: string, key: string, derived: map<Sku, Sku>, lower: Lower)
    requires NoClash(rows, sku, key, derived, lower)
    ensures !Stolen(rows, sku, size, key, derived, lower)
  {
    hide GroupKey;
    FindSkuMeans(rows, sku, size);
    if FindSku(rows, sku, size).Some? {
      var f := FindSku(rows, sku, size).value;
      var j :| 0 <= j < |rows| && rows[j] == f;
    }
  }

  lemma SizeOwner(members: seq<Row>, size: string) returns (r: Row)
    requires size in SizesOf(members)
    ensures r in members && size in r.sizes
  {
    SizesMean(members, size);
    r :| r in members && size in r.sizes;
  }

  // The same for every group, however its rows spell the SKU.

  lemma {:induction false} FindNameMeans(rows: seq<Row>, name: string, size: string, norm: Lower)
    ensures var f := FindName(rows, name, size, norm);
      f.Some? ==> f.value in rows && norm(f.value.name) == norm(name) && MatchesSize(f.value, size)
    ensures FindName(rows, name, size, norm).None? ==>
              forall r :: r in rows ==> !(norm(r.name) == norm(name) && MatchesSize(r, size))
  {
    if rows != [] {
      FindNameMeans(rows[1..], name, size, norm);
      assert forall r :: r in rows ==> r == rows[0] || r in rows[1..];
    }
  }

  /** A row of this size that carries the SKU, or is ordered under it, in exactly this spelling. */
  predicate AnswersSku(r: Row, sku: Sku, size: string, derived: map<Sku, Sku>) {
    sku != "" && MatchesSize(r, size) && (r.sku == sku || ProductSku(r, derived) == sku)
  }

  predicate AnswersName(r: Row, name: string, size: string, norm: Lower) {
    norm(name) != "" && MatchesSize(r, size) && norm(r.name) == norm(name)
  }

  /** A line finds a row exactly when some row answers its SKU or its name, and it finds such a row. */
  lemma ResolveFindsExactly(rows: seq<Row>, sku: Sku, name: string, size: string, derived: map<Sku, Sku>, norm: Lower)
    requires DerivedFits(derived)
    ensures var found := Resolve(rows, sku, name, size, derived, norm);
      && (found.Some? <==>
           exists r :: r in rows && (AnswersSku(r, sku, size, derived) || AnswersName(r, name, size, norm)))
      && (found.Some? ==> found.value in rows && MatchesSize(found.value, size))
  {
    FindSkuMeans(rows, sku, size);
    FindParentMeans(rows, sku, size);
    FindDerivedMeans(rows, sku, size, derived);
    FindNameMeans(rows, name, size, norm);
    hide FindSku, FindParent, FindDerived, FindName, MatchesSize;
  }

  /** A line that orders the product under its SKU: a row is found exactly when some row of that size
      has the SKU, or a product SKU, in the spelling of the product's first row, or the name finds one.
      What is found is a row of the product when its first row's spelling is used for that size and no
      other product lists the SKU, or else when the name finds one of its rows. */
  ghost predicate LineFinds(rows: seq<Row>, members: seq<Row>, key: string, size: string, name: string,
                            derived: map<Sku, Sku>, lower: Lower, norm: Lower)
    requires members != []
  {
    var sku := GroupOf(members, derived).sku;
    var found := Resolve(rows, sku, name, size, derived, norm);
    var byName := FindName(rows, name, size, norm);
    && (found.Some? <==>
          exists r :: r in rows && (AnswersSku(r, sku, size, derived) || AnswersName(r, name, size, norm)))
    && (found.Some? ==> MatchesSize(found.value, size))
    && (found.Some? && found.value in members <==>
          !Stolen(rows, sku, size, key, derived, lower)
          && ((exists r :: r in members && AnswersSku(r, sku, size, derived))
              || (norm(name) != "" && byName.Some? && byName.value in members)))
  }

  /** So it is for every product that has a SKU, however its rows spell it. */
  lemma OrderLineExactly(rows: seq<Row>, key: string, size: string, name: string,
                         derived: map<Sku, Sku>, lower: Lower, norm: Lower)
    requires DerivedFits(derived) && Members(rows, key, derived, lower) != []
    requires GroupOf(Members(rows, key, derived, lower), derived).sku != ""
    ensures LineFinds(rows, Members(rows, key, derived, lower), key, size, name, derived, lower, norm)
  {
    var members := Members(rows, key, derived, lower);
    var sku := GroupOf(members, derived).sku;
    MembersMean(rows, key, derived, lower, members[0]);
    assert key == lower(sku);
    ResolveFindsExactly(rows, sku, name, size, derived, norm);
    FoundInGroup(rows, key, sku, size, name, derived, lower, norm);
  }

  lemma FoundInGroup(rows: seq<Row>, key: string, sku: Sku, size: string, name: string,
                     derived: map<Sku, Sku>, lower: Lower, norm: Lower)
    requires DerivedFits(derived) && sku != "" && key == lower(sku)
    ensures var members := Members(rows, key, derived, lower);
      var found := Resolve(rows, sku, name, size, derived, norm);
      var byName := FindName(rows, name, size, norm);
      found.Some? && found.value in members <==>
        !Stolen(rows, sku, size, key, derived, lower)
        && ((exists r :: r in members && AnswersSku(r, sku, size, derived))
            || (norm(name) != "" && byName.Some? && byName.value in members))
  {
    var members := Members(rows, key, derived, lower);
    forall r
      ensures r in members <==> r in rows && GroupKey(r, derived, lower) == key
    {
      MembersMean(rows, key, derived, lower, r);
    }
    FindSkuMeans(rows, sku, size);
    FindParentMeans(rows, sku, size);
    FindDerivedMeans(rows, sku, size, derived);
    hide Members, FindSku, FindParent, FindDerived, FindName, MatchesSize;
  }

  /** Both hold of the products as the catalog groups them, with the SKUs it derives from suffixes. */
  lemma CatalogLines(rows: seq<Row>, key: string, size: string, name: string, split: Split, lower: Lower, norm: Lower)
    requires SplitFits(split)
    requires Members(rows, key, Derived(rows, split, lower), lower) != []
    ensures var derived := Derived(rows, split, lower);
      var members := Members(rows, key, derived, lower);
      var g := GroupOf(members, derived);
      g.sku != "" ==>
        && LineFinds(rows, members, key, size, name, derived, lower, norm)
        && (size != "" && size in g.sizes && ConsistentlyCased(members, derived) ==>
              LineStays(rows, members, key, size, name, derived, lower, norm))
  {
    var derived := Derived(rows, split, lower);
    var members := Members(rows, key, derived, lower);
    DerivedIsNonEmpty(rows, split, lower);
    hide Members, GroupOf, Derived, DerivedFits, LineFinds, LineStays, ConsistentlyCased;
    if GroupOf(members, derived).sku != "" {
      OrderLineExactly(rows, key, size, name, derived, lower, norm);
      if size != "" && size in GroupOf(members, derived).sizes && ConsistentlyCased(members, derived) {
        ResolveStaysExactly(rows, key, size, name, derived, lower, norm);
      }
    }
  }

  /** The second spelling of a parent hides its sizes: each row has a name of its own, and the size of
      the second is not found under the SKU and name the product is listed with. */
  lemma CasingHidesSize(split: Split, lower: Lower, norm: Lower)
    requires lower("CAM-1") == lower("cam-1") && norm("Camisa corta") != norm("Camisa larga")
    ensures var rows := [Row("CAM-1-M", "CAM-1", "Camisa corta", "", "", ["M"], 1500, 1),
                         Row("CAM-1-L", "cam-1", "Camisa larga", "", "", ["L"], 1500, 1)];
      var derived := Derived(rows, split, lower);
      var g := GroupOf(Members(rows, lower("CAM-1"), derived, lower), derived);
      && g.variants == rows && g.sku == "CAM-1" && "L" in g.sizes
      && Resolve(rows, g.sku, rows[0].name, "L", derived, norm).None?
  {
    var rows := [Row("CAM-1-M", "CAM-1", "Camisa corta", "", "", ["M"], 1500, 1),
                 Row("CAM-1-L", "cam-1", "Camisa larga", "", "", ["L"], 1500, 1)];
    TwoTogether(rows[0], rows[1], split, lower);
    ResolveFindsExactly(rows, "CAM-1", rows[0].name, "L", Derived(rows, split, lower), norm);
    hide Resolve, Derived, Members, GroupOf;
    assert forall r :: r in rows ==> r == rows[0] || r == rows[1];
  }

  lemma TwoTogether(a: Row, b: Row, split: Split, lower: Lower)
    requires a.parent != "" && b.parent != "" && lower(a.parent) == lower(b.parent)
    ensures var g := GroupOf(Members([a, b], lower(a.parent), map[], lower), map[]);
      Derived([a, b], split, lower) == map[]
      && g.variants == [a, b] && g.sku == a.parent && g.sizes == SizeSet(a) + SizeSet(b)
  {
    assert Derived([a, b], split, lower) == map[] by {
      hide Family, Confirmed;
    }
    hide Derived;
    assert [a, b][..1] == [a] && [a][..0] == [];
    assert Members([a], lower(a.parent), map[], lower) == [a];
    assert SizesOf([a]) == SizeSet(a);
  }
}
