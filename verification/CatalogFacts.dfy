/** Which rows the catalog shows as one product, which SKUs it derives from size suffixes, and which row
    an order line gets, each in terms of the rows alone. */
module CatalogFacts {
  import opened Common
  import opened Catalog

  // ---------------------------------------------------------------- one product

  predicate HasSku(r: Row) {
    r.parent != "" || r.sku != ""
  }

  /** The row is ordered under this SKU: its parent's if it names one, else the base derived for it, else
      its own. */
  predicate OrderedUnder(r: Row, sku: Sku, derived: map<Sku, Sku>) {
    && (r.parent != "" ==> sku == r.parent)
    && (r.parent == "" && r.sku != "" && r.sku in derived ==> sku == derived[r.sku])
    && (r.parent == "" && r.sku != "" && r.sku !in derived ==> sku == r.sku)
    && HasSku(r)
  }

  predicate BarFree(text: string) {
    forall i :: 0 <= i < |text| ==> text[i] != '|'
  }

  /** No text of the row has a bar in it once it is in lower case. */
  predicate NoBars(r: Row, derived: map<Sku, Sku>, lower: Lower) {
    && BarFree(lower(r.brand)) && BarFree(lower(r.name)) && BarFree(lower(r.category))
    && BarFree(lower(r.parent)) && BarFree(lower(r.sku))
    && (r.sku in derived ==> BarFree(lower(derived[r.sku])))
  }

  /** Two rows are one product: ordered under the same SKU up to case, or both without a SKU and alike in
      brand, name and category up to case. */
  ghost predicate SameProduct(a: Row, b: Row, derived: map<Sku, Sku>, lower: Lower) {
    if HasSku(a) && HasSku(b) then
      exists x, y :: OrderedUnder(a, x, derived) && OrderedUnder(b, y, derived) && lower(x) == lower(y)
    else
      && !HasSku(a) && !HasSku(b)
      && lower(a.brand) == lower(b.brand) && lower(a.name) == lower(b.name) && lower(a.category) == lower(b.category)
  }

  lemma BarAt(a: string, x: string)
    ensures (a + "|" + x)[|a|] == '|' && forall i :: 0 <= i < |a| ==> (a + "|" + x)[i] == a[i]
    ensures (a + "|" + x)[..|a|] == a && (a + "|" + x)[|a| + 1..] == x
  {
  }

  lemma FirstBar(a: string, b: string, x: string, y: string)
    requires BarFree(a) && BarFree(b) && a + "|" + x == b + "|" + y
    ensures a == b && x == y
  {
    BarAt(a, x);
    BarAt(b, y);
    assert |a| == |b|;
  }

  lemma NoSkuKeys(a: Row, b: Row, derived: map<Sku, Sku>, lower: Lower)
    requires !HasSku(a) && !HasSku(b) && NoBars(a, derived, lower) && NoBars(b, derived, lower)
    ensures GroupKey(a, derived, lower) == GroupKey(b, derived, lower) <==> SameProduct(a, b, derived, lower)
  {
    var (a0, a1, a2) := (lower(a.brand), lower(a.name), lower(a.category));
    var (b0, b1, b2) := (lower(b.brand), lower(b.name), lower(b.category));
    if a0 + "|" + a1 + "|" + a2 == b0 + "|" + b1 + "|" + b2 {
      assert a0 + "|" + a1 + "|" + a2 == a0 + "|" + (a1 + "|" + a2);
      assert b0 + "|" + b1 + "|" + b2 == b0 + "|" + (b1 + "|" + b2);
      FirstBar(a0, b0, a1 + "|" + a2, b1 + "|" + b2);
      FirstBar(a1, b1, a2, b2);
    }
  }

  lemma SkuKey(r: Row, derived: map<Sku, Sku>, lower: Lower) returns (sku: Sku)
    requires HasSku(r)
    ensures OrderedUnder(r, sku, derived) && GroupKey(r, derived, lower) == lower(sku)
    ensures forall x :: OrderedUnder(r, x, derived) ==> x == sku
    ensures NoBars(r, derived, lower) ==> BarFree(GroupKey(r, derived, lower))
  {
    sku := if r.parent != "" then r.parent else if r.sku in derived then derived[r.sku] else r.sku;
  }

  lemma BarInKey(r: Row, derived: map<Sku, Sku>, lower: Lower)
    requires !HasSku(r)
    ensures !BarFree(GroupKey(r, derived, lower))
  {
    var key := GroupKey(r, derived, lower);
    assert key[|lower(r.brand)|] == '|';
  }

  lemma SameKeyExactly(a: Row, b: Row, derived: map<Sku, Sku>, lower: Lower)
    requires NoBars(a, derived, lower) && NoBars(b, derived, lower)
    ensures GroupKey(a, derived, lower) == GroupKey(b, derived, lower) <==> SameProduct(a, b, derived, lower)
  {
    if HasSku(a) && HasSku(b) {
      var x := SkuKey(a, derived, lower);
      var y := SkuKey(b, derived, lower);
      hide GroupKey, OrderedUnder;
    } else if HasSku(a) {
      var x := SkuKey(a, derived, lower);
      BarInKey(b, derived, lower);
      hide GroupKey;
    } else if HasSku(b) {
      var y := SkuKey(b, derived, lower);
      BarInKey(a, derived, lower);
      hide GroupKey;
    } else {
      NoSkuKeys(a, b, derived, lower);
      hide GroupKey;
    }
  }

  /** In the catalog as grouped, two rows without bars are variants of one product exactly when they are
      ordered under one SKU, or have no SKU and the same brand, name and category, up to case. */
  lemma OneProductExactly(groups: map<string, Group>, rows: seq<Row>, a: Row, b: Row, derived: map<Sku, Sku>,
                          lower: Lower)
    requires Grouped(groups, rows, derived, lower) && a in rows && b in rows
    requires NoBars(a, derived, lower) && NoBars(b, derived, lower)
    ensures (exists key :: key in groups && a in groups[key].variants && b in groups[key].variants) <==>
            SameProduct(a, b, derived, lower)
  {
    hide GroupKey, SameProduct, NoBars;
    SameKeyExactly(a, b, derived, lower);
    forall key | key in groups
      ensures a in groups[key].variants <==> GroupKey(a, derived, lower) == key
      ensures b in groups[key].variants <==> GroupKey(b, derived, lower) == key
    {
      MembersMean(rows, key, derived, lower, a);
      MembersMean(rows, key, derived, lower, b);
    }
    var i :| 0 <= i < |rows| && rows[i] == a;
    assert GroupKey(rows[i], derived, lower) in groups;
  }

  /** Why bars are excluded: two different products without a SKU that share a key. */
  lemma BarsCollide(lower: Lower)
    requires lower("gorra") == "gorra" && lower("a|b") == "a|b" && lower("b|gorra") == "b|gorra"
    requires lower("a") == "a" && lower("") == ""
    ensures var (a, b) := (Row("", "", "gorra", "a|b", "", [], 100, 1), Row("", "", "b|gorra", "a", "", [], 100, 1));
      GroupKey(a, map[], lower) == GroupKey(b, map[], lower) && !SameProduct(a, b, map[], lower)
  {
    assert "a|b" + "|" + "gorra" + "|" + "" == "a" + "|" + "b|gorra" + "|" + "";
  }

  // ---------------------------------------------------------------- derived products

  /** The SKU ends in the row's one size, with this base before it, and the row names no parent. */
  predicate SizeRow(r: Row, base: string, split: Split, lower: Lower) {
    r.parent == "" && split(r.sku).Some? && r.sizes == [split(r.sku).value.1] && lower(split(r.sku).value.0) == base
  }

  /** Rows of the base with two SKUs and with two sizes. */
  ghost predicate TwoOf(rows: seq<Row>, r: Row, base: string, split: Split, lower: Lower) {
    && (exists a :: a in rows && SizeRow(a, base, split, lower) && a.sku != r.sku)
    && (exists a :: a in rows && SizeRow(a, base, split, lower) && a.sizes != r.sizes)
  }

  lemma TwoMeans<T>(s: set<T>, x: T)
    requires x in s
    ensures |s| >= 2 <==> exists y :: y in s && y != x
  {
    if |s| >= 2 {
      assert |s - {x}| >= 1;
      var y :| y in s - {x};
    }
    if y :| y in s && y != x {
      SubsetSize({x, y}, s);
    }
  }

  lemma TwoSkus(family: seq<Row>, r: Row)
    requires r in family
    ensures |set a | a in family :: a.sku| >= 2 <==> exists a :: a in family && a.sku != r.sku
  {
    var skus := set a | a in family :: a.sku;
    TwoMeans(skus, r.sku);
    if a :| a in family && a.sku != r.sku {
      assert a.sku in skus;
    }
  }

  lemma TwoSizes(family: seq<Row>, r: Row)
    requires r in family && forall a :: a in family ==> |a.sizes| == 1
    ensures |set a | a in family && |a.sizes| == 1 :: a.sizes[0]| >= 2 <==>
            exists a :: a in family && a.sizes != r.sizes
  {
    var sizes := set a | a in family && |a.sizes| == 1 :: a.sizes[0];
    assert r.sizes[0] in sizes;
    TwoMeans(sizes, r.sizes[0]);
    if a :| a in family && a.sizes != r.sizes {
      assert a.sizes == [a.sizes[0]] && r.sizes == [r.sizes[0]];
      assert a.sizes[0] in sizes;
    }
    if y :| y in sizes && y != r.sizes[0] {
      var a :| a in family && |a.sizes| == 1 && a.sizes[0] == y;
      assert a.sizes != r.sizes;
    }
  }

  lemma ConfirmedExactly(family: seq<Row>, r: Row, split: Split)
    requires r in family && forall a :: a in family ==> Candidate(a, split)
    ensures Confirmed(family, split) <==>
      && (exists a :: a in family && a.sku != r.sku)
      && (exists a :: a in family && a.sizes != r.sizes)
  {
    TwoSkus(family, r);
    assert forall a :: a in family ==> |a.sizes| == 1;
    hide Candidate;
    TwoSizes(family, r);
  }

  lemma CandidateIsSizeRow(r: Row, base: string, split: Split, lower: Lower)
    ensures SizeRow(r, base, split, lower) <==> Candidate(r, split) && BaseKey(r, split, lower) == base
  {
    assert |r.sizes| == 1 ==> r.sizes == [r.sizes[0]];
  }

  lemma InFamily(rows: seq<Row>, base: string, split: Split, lower: Lower)
    ensures forall a :: a in Family(rows, base, split, lower) <==> a in rows && SizeRow(a, base, split, lower)
  {
    hide *;
    forall a
      ensures a in Family(rows, base, split, lower) <==> a in rows && SizeRow(a, base, split, lower)
    {
      FamilyMeans(rows, base, split, lower, a);
      CandidateIsSizeRow(a, base, split, lower);
    }
  }

  /** A row gets a derived product exactly when it is a size row and its base has two SKUs and two sizes. */
  lemma DerivesExactly(rows: seq<Row>, r: Row, base: string, split: Split, lower: Lower)
    requires r in rows && SizeRow(r, base, split, lower)
    ensures Derives(rows, r, split, lower) <==> TwoOf(rows, r, base, split, lower)
  {
    CandidateIsSizeRow(r, base, split, lower);
    InFamily(rows, base, split, lower);
    hide Candidate, BaseKey, Family, SizeRow, Confirmed;
    ConfirmedExactly(Family(rows, base, split, lower), r, split);
  }

  lemma FamilyHead(rows: seq<Row>, base: string, split: Split, lower: Lower)
    requires rows != []
    ensures var n := |rows| - 1;
      var (front, all) := (Family(rows[..n], base, split, lower), Family(rows, base, split, lower));
      if front != [] then all != [] && all[0] == front[0]
      else if SizeRow(rows[n], base, split, lower) then all == [rows[n]]
      else all == []
  {
    CandidateIsSizeRow(rows[|rows| - 1], base, split, lower);
    hide SizeRow, Candidate, BaseKey;
  }

  lemma {:induction false} FirstOfFamily(rows: seq<Row>, base: string, split: Split, lower: Lower) returns (i: nat)
    requires exists r :: r in rows && SizeRow(r, base, split, lower)
    ensures i < |rows| && SizeRow(rows[i], base, split, lower)
    ensures forall j :: 0 <= j < i ==> !SizeRow(rows[j], base, split, lower)
    ensures Family(rows, base, split, lower) != [] && Family(rows, base, split, lower)[0] == rows[i]
  {
    hide SizeRow, Candidate, BaseKey, Family;
    var n := |rows| - 1;
    InFamily(rows[..n], base, split, lower);
    FamilyHead(rows, base, split, lower);
    if exists r :: r in rows[..n] && SizeRow(r, base, split, lower) {
      i := FirstOfFamily(rows[..n], base, split, lower);
    } else {
      i := n;
      var r :| r in rows && SizeRow(r, base, split, lower);
      assert r in rows[..n] || r == rows[n];
      EmptyFamily(Family(rows[..n], base, split, lower));
    }
  }

  lemma EmptyFamily(family: seq<Row>)
    ensures (forall a :: a !in family) ==> family == []
  {
    if family != [] {
      assert family[0] in family;
    }
  }

  /** The i-th row is the first of its base, and spells it so. */
  predicate Spells(rows: seq<Row>, i: int, base: string, spelling: Sku, split: Split, lower: Lower) {
    && 0 <= i < |rows| && SizeRow(rows[i], base, split, lower) && spelling == split(rows[i].sku).value.0
    && forall j :: 0 <= j < i ==> !SizeRow(rows[j], base, split, lower)
  }

  /** `get_confirmed_derived_product_skus`, exactly: the SKUs of size rows whose base has two SKUs and two
      sizes, each with the base in the spelling of the catalog's first such row. */
  lemma DerivedExactly(rows: seq<Row>, sku: Sku, split: Split, lower: Lower)
    ensures var derived := Derived(rows, split, lower);
      && (sku in derived <==>
           exists r, base :: r in rows && r.sku == sku && SizeRow(r, base, split, lower)
               && TwoOf(rows, r, base, split, lower))
      && (sku in derived ==>
            split(sku).Some?
            && exists i :: Spells(rows, i, lower(split(sku).value.0), derived[sku], split, lower))
  {
    hide Derived, Derives, TwoOf, Family, FirstBase, SizeRow, Spells;
    DerivedSkus(rows, sku, split, lower);
    forall r, base | r in rows && r.sku == sku && SizeRow(r, base, split, lower)
      ensures Derives(rows, r, split, lower) <==> TwoOf(rows, r, base, split, lower)
    {
      DerivesExactly(rows, r, base, split, lower);
    }
    if sku in Derived(rows, split, lower) {
      var r :| r in rows && r.sku == sku && Derives(rows, r, split, lower);
      DerivesIsSizeRow(rows, r, split, lower);
      var i := FirstSpells(rows, lower(split(sku).value.0), split, lower);
    }
  }

  lemma FirstSpells(rows: seq<Row>, base: string, split: Split, lower: Lower) returns (i: nat)
    requires exists r :: r in rows && SizeRow(r, base, split, lower)
    ensures Spells(rows, i, base, FirstBase(rows, base, split, lower), split, lower)
  {
    i := FirstOfFamily(rows, base, split, lower);
    FirstBaseIs(rows, base, i, split, lower);
    hide FirstBase, SizeRow, Family;
    assert split(rows[i].sku).Some? by {
      SizeRowSplits(rows[i], base, split, lower);
    }
  }

  lemma SizeRowSplits(r: Row, base: string, split: Split, lower: Lower)
    requires SizeRow(r, base, split, lower)
    ensures split(r.sku).Some?
  {
  }

  lemma DerivedSkus(rows: seq<Row>, sku: Sku, split: Split, lower: Lower)
    ensures var derived := Derived(rows, split, lower);
      && (sku in derived <==> exists r :: r in rows && r.sku == sku && Derives(rows, r, split, lower))
      && (sku in derived ==>
            split(sku).Some? && derived[sku] == FirstBase(rows, lower(split(sku).value.0), split, lower))
  {
    hide Family, Confirmed, FirstBase;
  }

  lemma DerivesIsSizeRow(rows: seq<Row>, r: Row, split: Split, lower: Lower)
    requires Derives(rows, r, split, lower)
    ensures split(r.sku).Some? && SizeRow(r, lower(split(r.sku).value.0), split, lower)
  {
    assert r.sizes == [r.sizes[0]];
  }

  lemma FirstBaseIs(rows: seq<Row>, base: string, i: nat, split: Split, lower: Lower)
    requires i < |rows| && SizeRow(rows[i], base, split, lower)
    requires Family(rows, base, split, lower) != [] && Family(rows, base, split, lower)[0] == rows[i]
    ensures FirstBase(rows, base, split, lower) == split(rows[i].sku).value.0
  {
  }

  // ---------------------------------------------------------------- totals of a product

  /** Rows above zero count with their stock, other rows not at all. */
  lemma StockCounts(members: seq<Row>, r: Row)
    ensures Stock([]) == 0
    ensures Stock(members + [r]) == Stock(members) + (if r.stock > 0 then r.stock else 0)
  {
    StockGrows(members, r);
  }

  predicate FirstInSize(members: seq<Row>, i: int, size: string) {
    && 0 <= i < |members| && members[i].sku != "" && size in members[i].sizes
    && forall j :: 0 <= j < i ==> members[j].sku == "" || size !in members[j].sizes
  }

  /** A size is offered under the SKU of the first row that has both, and only if there is one. */
  lemma {:induction false} SizeSkusExactly(members: seq<Row>, size: string)
    ensures size in SizeSkus(members) <==>
      exists i :: 0 <= i < |members| && members[i].sku != "" && size in members[i].sizes
    ensures forall i :: FirstInSize(members, i, size) ==> SizeSkus(members)[size] == members[i].sku
  {
    if members != [] {
      var n := |members| - 1;
      SizeSkusExactly(members[..n], size);
      assert forall i :: 0 <= i < n ==> members[..n][i] == members[i];
    }
  }

  /** What the catalog shows of a product, in terms of its rows. */
  lemma GroupShows(groups: map<string, Group>, rows: seq<Row>, key: string, derived: map<Sku, Sku>, lower: Lower)
    requires Grouped(groups, rows, derived, lower) && key in groups
    ensures var g := groups[key];
      && g.variants != [] && g.stock == Stock(g.variants) && g.sizeSkus == SizeSkus(g.variants)
      && (HasSku(g.variants[0]) && DerivedFits(derived) ==> OrderedUnder(g.variants[0], g.sku, derived))
      && (forall size :: size in g.sizes <==> exists r :: r in g.variants && size in r.sizes)
      && (forall price :: price in g.prices <==> exists i :: 0 <= i < |g.variants| && g.variants[i].price == price)
  {
    var members := Members(rows, key, derived, lower);
    forall size
      ensures size in SizesOf(members) <==> exists r :: r in members && size in r.sizes
    {
      SizesMean(members, size);
    }
    forall price
      ensures price in Prices(members) <==> exists i :: 0 <= i < |members| && members[i].price == price
    {
      PricesMean(members, price);
    }
    hide Members, GroupKey, SizesOf, Prices, SizeSkus, Stock;
  }

  // ---------------------------------------------------------------- which row a line gets

  /** The four ways in which a row can answer a line: by its own SKU, its parent, the base derived for it,
      or its name. */
  datatype Way = BySku | ByParent | ByBase | ByName

  predicate Answers(r: Row, way: Way, sku: Sku, name: string, size: string, derived: map<Sku, Sku>, norm: Lower) {
    && (size == "" || size in r.sizes)
    && (way == BySku ==> sku != "" && r.sku == sku)
    && (way == ByParent ==> sku != "" && r.parent == sku)
    && (way == ByBase ==> sku != "" && r.parent == "" && r.sku in derived && derived[r.sku] == sku)
    && (way == ByName ==> norm(name) != "" && norm(r.name) == norm(name))
  }

  /** No row of these answers in this way. */
  predicate NoneAnswers(rows: seq<Row>, way: Way, sku: Sku, name: string, size: string, derived: map<Sku, Sku>,
                        norm: Lower) {
    forall j :: 0 <= j < |rows| ==> !Answers(rows[j], way, sku, name, size, derived, norm)
  }

  /** The i-th row is the first that answers in this way. */
  predicate FirstAnswer(rows: seq<Row>, i: int, way: Way, sku: Sku, name: string, size: string,
                        derived: map<Sku, Sku>, norm: Lower) {
    && 0 <= i < |rows| && Answers(rows[i], way, sku, name, size, derived, norm)
    && NoneAnswers(rows[..i], way, sku, name, size, derived, norm)
  }

  /** What the search for one way finds. */
  function FindBy(rows: seq<Row>, way: Way, sku: Sku, name: string, size: string, derived: map<Sku, Sku>,
                  norm: Lower): Option<Row> {
    match way
    case BySku => if sku != "" then FindSku(rows, sku, size) else None
    case ByParent => if sku != "" then FindParent(rows, sku, size) else None
    case ByBase => if sku != "" then FindDerived(rows, sku, size, derived) else None
    case ByName => if norm(name) != "" then FindName(rows, name, size, norm) else None
  }

  lemma FindStep(rows: seq<Row>, way: Way, sku: Sku, name: string, size: string, derived: map<Sku, Sku>, norm: Lower)
    ensures FindBy([], way, sku, name, size, derived, norm).None?
    ensures rows != [] ==>
      FindBy(rows, way, sku, name, size, derived, norm)
      == if Answers(rows[0], way, sku, name, size, derived, norm) then Some(rows[0])
         else FindBy(rows[1..], way, sku, name, size, derived, norm)
  {
  }

  lemma {:induction false} FindsFirst(rows: seq<Row>, i: int, way: Way, sku: Sku, name: string, size: string,
                                      derived: map<Sku, Sku>, norm: Lower)
    ensures NoneAnswers(rows, way, sku, name, size, derived, norm) ==>
              FindBy(rows, way, sku, name, size, derived, norm).None?
    ensures FirstAnswer(rows, i, way, sku, name, size, derived, norm) ==>
              FindBy(rows, way, sku, name, size, derived, norm) == Some(rows[i])
  {
    hide FindBy, Answers;
    FindStep(rows, way, sku, name, size, derived, norm);
    if rows != [] {
      FindsFirst(rows[1..], i - 1, way, sku, name, size, derived, norm);
      assert forall j :: 0 <= j < |rows| - 1 ==> rows[1..][j] == rows[j + 1];
      if 0 < i < |rows| {
        assert rows[1..][..i - 1] == rows[..i][1..];
        assert rows[..i][0] == rows[0];
      }
    }
  }

  /** The line gets the first row that answers by SKU; if there is none, the first by parent, then by
      base, then by name; and nothing when no row answers. */
  lemma ResolvesExactly(rows: seq<Row>, i: int, sku: Sku, name: string, size: string, derived: map<Sku, Sku>,
                        norm: Lower)
    ensures var found := Resolve(rows, sku, name, size, derived, norm);
      && (FirstAnswer(rows, i, BySku, sku, name, size, derived, norm) ==> found == Some(rows[i]))
      && (NoneAnswers(rows, BySku, sku, name, size, derived, norm) ==>
            && (FirstAnswer(rows, i, ByParent, sku, name, size, derived, norm) ==> found == Some(rows[i]))
            && (NoneAnswers(rows, ByParent, sku, name, size, derived, norm) ==>
                  && (FirstAnswer(rows, i, ByBase, sku, name, size, derived, norm) ==> found == Some(rows[i]))
                  && (NoneAnswers(rows, ByBase, sku, name, size, derived, norm) ==>
                        && (FirstAnswer(rows, i, ByName, sku, name, size, derived, norm) ==> found == Some(rows[i]))
                        && (NoneAnswers(rows, ByName, sku, name, size, derived, norm) ==> found.None?))))
  {
    FindsFirst(rows, i, BySku, sku, name, size, derived, norm);
    FindsFirst(rows, i, ByParent, sku, name, size, derived, norm);
    FindsFirst(rows, i, ByBase, sku, name, size, derived, norm);
    FindsFirst(rows, i, ByName, sku, name, size, derived, norm);
    hide NoneAnswers, Answers, FindSku, FindParent, FindDerived, FindName;
  }
}
