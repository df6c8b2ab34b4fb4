/** The "Inventory Monitoring" and "Alerts Center" views: warehouse stock
    joined to each product's minimum stock, labelled per row, offered per
    branch, and filtered down to the rows below their minimum. */
module Inventory {
  import opened Frames
  import opened Ordering

  type Code = string
  type Branch = string

  /** The two columns of `products` these views read. */
  datatype Product = Product(code: Code, stokMinimum: Option<int>)

  /** A row of `warehouse`: the stock of one item at one branch. */
  datatype WarehouseRow = WarehouseRow(
    code: Code, namabarang: string, kategori: string, jumlah: int, cabang: Option<Branch>)

  function WarehouseCode(w: WarehouseRow): Code { w.code }
  function ProductCode(p: Product): Code { p.code }

  /** A row of the merged frame: a warehouse row and its product, if any. */
  type StockRow = Joined<WarehouseRow, Product>

  /** The `stok_minimum` cell of a merged row: missing when the product is
      absent or its minimum is NULL. */
  function Minimum(j: StockRow): Option<int>
  {
    if j.right.Some? then j.right.value.stokMinimum else None
  }

  /** `warehouse.merge(products[['code', 'stok_minimum']], on='code', how='left')`. */
  function StockFrame(warehouse: seq<WarehouseRow>, products: seq<Product>): (df: seq<StockRow>)
    ensures |df| >= |warehouse|
  {
    LeftJoin(warehouse, products, WarehouseCode, ProductCode)
  }

  /** Reference lookup: the minimum of the first product with code `c`. */
  function MinimumOf(products: seq<Product>, c: Code): Option<int>
  {
    if products == [] then None
    else if products[0].code == c then products[0].stokMinimum
    else MinimumOf(products[1..], c)
  }

  lemma {:induction false} MinimumOfMember(products: seq<Product>, p: Product)
    requires UniqueKeys(products, ProductCode) && p in products
    ensures MinimumOf(products, p.code) == p.stokMinimum
  {
    if products[0] != p {
      assert p in products[1..];
      assert products[0].code != p.code by {
        var j :| 1 <= j < |products| && products[j] == p;
        assert ProductCode(products[0]) != ProductCode(products[j]);
      }
      assert UniqueKeys(products[1..], ProductCode);
      MinimumOfMember(products[1..], p);
    }
  }

  lemma {:induction false} MinimumOfAbsent(products: seq<Product>, c: Code)
    requires NoMatch(products, ProductCode, c)
    ensures MinimumOf(products, c) == None
  {
    if products != [] {
      assert NoMatch(products[1..], ProductCode, c) by {
        forall i | 0 <= i < |products[1..]| ensures ProductCode(products[1..][i]) != c {
          assert products[1..][i] == products[i + 1];
        }
      }
      MinimumOfAbsent(products[1..], c);
    }
  }

  /** With unique product codes the merge keeps the warehouse frame row for
      row, and each row carries its product's minimum, or a missing one
      when its code is not among the products. */
  lemma StockFrameUnique(warehouse: seq<WarehouseRow>, products: seq<Product>)
    requires UniqueKeys(products, ProductCode)
    ensures |StockFrame(warehouse, products)| == |warehouse|
    ensures forall i :: 0 <= i < |warehouse| ==>
      StockFrame(warehouse, products)[i].left == warehouse[i] &&
      Minimum(StockFrame(warehouse, products)[i]) == MinimumOf(products, warehouse[i].code)
  {
    var df := StockFrame(warehouse, products);
    LeftJoinUnique(warehouse, products, WarehouseCode, ProductCode);
    LeftJoinRows(warehouse, products, WarehouseCode, ProductCode);
    forall i | 0 <= i < |warehouse|
      ensures Minimum(df[i]) == MinimumOf(products, warehouse[i].code)
    {
      assert df[i] in df;
      if df[i].right.Some? {
        MinimumOfMember(products, df[i].right.value);
      } else {
        MinimumOfAbsent(products, warehouse[i].code);
      }
    }
  }

  /** Stock status of a merged row; the comparison with a missing minimum
      is false, so such rows are "Perlu Restok". */
  datatype Status = Aman | PerluRestok

  function StatusOf(j: StockRow): (s: Status)
    ensures s == PerluRestok <==> Minimum(j).None? || BelowMinimum(j)
  {
    if Minimum(j).Some? && j.left.jumlah >= Minimum(j).value then Aman else PerluRestok
  }

  /** `df['cabang'].dropna()`: the branch cells that are present, in order. */
  function Branches(df: seq<StockRow>): (bs: seq<Branch>)
    ensures forall b :: b in bs <==> exists i :: 0 <= i < |df| && df[i].left.cabang == Some(b)
  {
    if df == [] then []
    else
      var rest := Branches(df[1..]);
      assert forall b :: (exists i :: 0 <= i < |df[1..]| && df[1..][i].left.cabang == Some(b)) <==>
                         (exists i :: 1 <= i < |df| && df[i].left.cabang == Some(b)) by {
        forall b ensures (exists i :: 0 <= i < |df[1..]| && df[1..][i].left.cabang == Some(b)) ==>
                         (exists i :: 1 <= i < |df| && df[i].left.cabang == Some(b)) {
          if i :| 0 <= i < |df[1..]| && df[1..][i].left.cabang == Some(b) {
            assert df[i + 1].left.cabang == Some(b);
          }
        }
        forall b ensures (exists i :: 1 <= i < |df| && df[i].left.cabang == Some(b)) ==>
                         (exists i :: 0 <= i < |df[1..]| && df[1..][i].left.cabang == Some(b)) {
          if i :| 1 <= i < |df| && df[i].left.cabang == Some(b) {
            assert df[1..][i - 1].left.cabang == Some(b);
          }
        }
      }
      (if df[0].left.cabang.Some? then [df[0].left.cabang.value] else []) + rest
  }

  /** `sorted(df['cabang'].dropna().unique())`: the branches offered for
      selection, ascending, each once. */
  function BranchChoices(df: seq<StockRow>): (choices: seq<Branch>)
    ensures StrictlySorted(choices)
    ensures forall b :: b in choices <==> exists i :: 0 <= i < |df| && df[i].left.cabang == Some(b)
  {
    SortedDistinct(Branches(df))
  }

  /** The merge invents no warehouse rows. */
  lemma StockFrameFrom(warehouse: seq<WarehouseRow>, products: seq<Product>, k: int)
    requires 0 <= k < |StockFrame(warehouse, products)|
    ensures exists i :: 0 <= i < |warehouse| && warehouse[i] == StockFrame(warehouse, products)[k].left
  {
    var df := StockFrame(warehouse, products);
    LeftJoinRows(warehouse, products, WarehouseCode, ProductCode);
    assert df[k] in df;
  }

  /** The branches of the merged frame are those of the warehouse table. */
  lemma StockFrameBranches(warehouse: seq<WarehouseRow>, products: seq<Product>)
    ensures forall b :: b in BranchChoices(StockFrame(warehouse, products)) <==>
      exists i :: 0 <= i < |warehouse| && warehouse[i].cabang == Some(b)
  {
    var df := StockFrame(warehouse, products);
    forall b ensures (exists k :: 0 <= k < |df| && df[k].left.cabang == Some(b)) <==>
                     (exists i :: 0 <= i < |warehouse| && warehouse[i].cabang == Some(b))
    {
      if k :| 0 <= k < |df| && df[k].left.cabang == Some(b) {
        StockFrameFrom(warehouse, products, k);
      }
      if i :| 0 <= i < |warehouse| && warehouse[i].cabang == Some(b) {
        var k := LeftJoinKeeps(warehouse, products, WarehouseCode, ProductCode, warehouse[i]);
      }
    }
  }

  /** The branch choices do not depend on what the products table holds. */
  lemma BranchChoicesIgnoreProducts(warehouse: seq<WarehouseRow>, products: seq<Product>, other: seq<Product>)
    ensures BranchChoices(StockFrame(warehouse, products)) == BranchChoices(StockFrame(warehouse, other))
  {
    StockFrameBranches(warehouse, products);
    StockFrameBranches(warehouse, other);
    StrictlySortedUnique(BranchChoices(StockFrame(warehouse, products)), BranchChoices(StockFrame(warehouse, other)));
  }

  /** `df['cabang'] == cabang_select`: false for every row when nothing is
      selected, and for rows without a branch. */
  predicate AtBranch(selected: Option<Branch>, j: StockRow)
    ensures selected.None? ==> !AtBranch(selected, j)
    ensures j.left.cabang.None? ==> !AtBranch(selected, j)
    ensures AtBranch(selected, j) ==> j.left.cabang == selected
  {
    selected.Some? && j.left.cabang == selected
  }

  /** A row of the inventory table with its `Status` column. */
  datatype LabelledRow = LabelledRow(row: StockRow, status: Status)

  function RowsOf(view: seq<LabelledRow>): (rows: seq<StockRow>)
    ensures |rows| == |view|
    ensures forall k :: 0 <= k < |view| ==> rows[k] == view[k].row
  {
    seq(|view|, k requires 0 <= k < |view| => view[k].row)
  }

  /** The inventory table for the selected branch: exactly the merged rows
      at that branch, each as often as in the frame, each labelled "Aman"
      when its stock reaches a known minimum and "Perlu Restok" otherwise. */
  function InventoryView(df: seq<StockRow>, selected: Option<Branch>): (view: seq<LabelledRow>)
    ensures forall j :: multiset(RowsOf(view))[j] == if AtBranch(selected, j) then multiset(df)[j] else 0
    ensures forall lr :: lr in view ==>
      (lr.status == Aman <==> Minimum(lr.row).Some? && lr.row.left.jumlah >= Minimum(lr.row).value)
  {
    var rows := Where(df, j => AtBranch(selected, j));
    var view := seq(|rows|, k requires 0 <= k < |rows| => LabelledRow(rows[k], StatusOf(rows[k])));
    assert RowsOf(view) == rows;
    view
  }

  /** `df['jumlah'] < df['stok_minimum']`: false when the minimum is missing. */
  predicate BelowMinimum(j: StockRow)
    ensures Minimum(j).None? ==> !BelowMinimum(j)
    ensures BelowMinimum(j) ==> j.left.jumlah < Minimum(j).value
  {
    Minimum(j).Some? && j.left.jumlah < Minimum(j).value
  }

  /** The alert list: exactly the merged rows whose stock is strictly below
      a known minimum, each as often as in the frame. */
  function Alerts(df: seq<StockRow>): (alerts: seq<StockRow>)
    ensures forall j :: multiset(alerts)[j] == if BelowMinimum(j) then multiset(df)[j] else 0
  {
    Where(df, BelowMinimum)
  }

  /** What the Alerts Center shows: a success message or the alert table. */
  datatype AlertsPanel = AllSafe | AlertTable(rows: seq<StockRow>)

  function AlertsCenter(warehouse: seq<WarehouseRow>, products: seq<Product>): (panel: AlertsPanel)
    ensures panel.AllSafe? <==> forall j :: j in StockFrame(warehouse, products) ==> !BelowMinimum(j)
    ensures panel.AlertTable? ==> panel.rows == Alerts(StockFrame(warehouse, products)) && panel.rows != []
  {
    var alerts := Alerts(StockFrame(warehouse, products));
    if alerts == [] then AllSafe else AlertTable(alerts)
  }

  /** With no branch to choose (`selectbox` over an empty list returns
      None), the inventory table is empty. */
  lemma NoSelectionEmptyView(df: seq<StockRow>)
    ensures InventoryView(df, None) == []
  {
    var rows := RowsOf(InventoryView(df, None));
    assert multiset(rows) == multiset{};
  }

  /** A branch is offered exactly when its inventory table has rows. */
  lemma BranchOfferedIffRows(df: seq<StockRow>, b: Branch)
    ensures b in BranchChoices(df) <==> InventoryView(df, Some(b)) != []
  {
    var view := InventoryView(df, Some(b));
    if b in BranchChoices(df) {
      var i :| 0 <= i < |df| && df[i].left.cabang == Some(b);
      assert df[i] in multiset(df);
      assert multiset(RowsOf(view))[df[i]] > 0;
    }
    if view != [] {
      var j := RowsOf(view)[0];
      assert multiset(RowsOf(view))[j] > 0;
      assert j in df;
    }
  }

  /** A merged row is alerted exactly when its minimum is known and it is
      labelled "Perlu Restok"; a row with a missing minimum is labelled
      "Perlu Restok" but never alerted. */
  lemma AlertedIffPerluRestok(df: seq<StockRow>, j: StockRow)
    ensures j in Alerts(df) <==> j in df && Minimum(j).Some? && StatusOf(j) == PerluRestok
    ensures Minimum(j).None? ==> StatusOf(j) == PerluRestok && j !in Alerts(df)
  {
    assert j in Alerts(df) <==> multiset(Alerts(df))[j] > 0;
  }

  /** The alerts at branch `b` are exactly the rows with a known minimum
      that the inventory table of `b` labels "Perlu Restok". */
  lemma AlertsAtBranch(df: seq<StockRow>, b: Branch, j: StockRow)
    ensures j in Alerts(df) && j.left.cabang == Some(b) <==>
      LabelledRow(j, PerluRestok) in InventoryView(df, Some(b)) && Minimum(j).Some?
  {
    var view := InventoryView(df, Some(b));
    var rows := RowsOf(view);
    assert j in Alerts(df) <==> multiset(Alerts(df))[j] > 0;
    if LabelledRow(j, PerluRestok) in view {
      var k :| 0 <= k < |view| && view[k] == LabelledRow(j, PerluRestok);
      assert rows[k] == j;
      assert multiset(rows)[j] > 0;
    }
    if j in Alerts(df) && j.left.cabang == Some(b) {
      assert multiset(rows)[j] > 0;
      var k :| 0 <= k < |rows| && rows[k] == j;
      assert view[k] in view;
    }
  }
}
