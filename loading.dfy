/** `load_data`: the eight tables the dashboard reads at start-up. The
    product and warehouse tables are required; every other table falls
    back to an empty frame when its query fails, and the views that need
    one of them show a warning instead of results. */
module Loading {
  import opened Frames
  import opened Inventory
  import opened Restock
  import opened Suppliers

  /** The outcome of one `SELECT * FROM ...` query. */
  datatype Query<T> = Failed | Rows(rows: seq<T>)

  /** The outcome of every query `load_data` issues. The columns of
      `purchase_order_items`, `sales_orders` and `inventory_transactions`
      are never read by a view, so their rows stay abstract. */
  datatype Queries<PoItem, SalesOrder, Tx> = Queries(
    products: Query<Product>,
    warehouse: Query<WarehouseRow>,
    suppliers: Query<Supplier>,
    po: Query<PurchaseOrder>,
    poi: Query<PoItem>,
    so: Query<SalesOrder>,
    soi: Query<SalesItem>,
    tx: Query<Tx>)

  /** The frames `load_data` returns. */
  datatype Tables<PoItem, SalesOrder, Tx> = Tables(
    products: seq<Product>,
    warehouse: seq<WarehouseRow>,
    suppliers: seq<Supplier>,
    po: seq<PurchaseOrder>,
    poi: seq<PoItem>,
    so: seq<SalesOrder>,
    soi: seq<SalesItem>,
    tx: seq<Tx>)

  /** One query inside its own `try`: an empty frame when it fails. */
  function OrEmpty<T>(q: Query<T>): (rows: seq<T>)
    ensures q.Rows? ==> rows == q.rows
    ensures q.Failed? ==> rows == []
  {
    if q.Rows? then q.rows else []
  }

  /** Two queries inside one `try`: when either fails, both frames are
      empty, even the one whose query succeeded. */
  function PairOrEmpty<A, B>(a: Query<A>, b: Query<B>): (r: (seq<A>, seq<B>))
    ensures a.Rows? && b.Rows? ==> r == (a.rows, b.rows)
    ensures a.Failed? || b.Failed? ==> r.0 == [] && r.1 == []
  {
    if a.Rows? && b.Rows? then (a.rows, b.rows) else ([], [])
  }

  /** `load_data()`: `None` when the products or warehouse query fails,
      since those two sit outside any `try` and the failure propagates. */
  function LoadData<PoItem, SalesOrder, Tx>(q: Queries<PoItem, SalesOrder, Tx>): (t: Option<Tables<PoItem, SalesOrder, Tx>>)
    ensures t.None? <==> q.products.Failed? || q.warehouse.Failed?
    ensures t.Some? ==> t.value.products == q.products.rows && t.value.warehouse == q.warehouse.rows
    ensures t.Some? ==> t.value.suppliers == OrEmpty(q.suppliers) && t.value.tx == OrEmpty(q.tx)
    ensures t.Some? ==> (t.value.po, t.value.poi) == PairOrEmpty(q.po, q.poi)
    ensures t.Some? ==> (t.value.so, t.value.soi) == PairOrEmpty(q.so, q.soi)
  {
    match (q.products, q.warehouse)
    case (Rows(products), Rows(warehouse)) =>
      var (po, poi) := PairOrEmpty(q.po, q.poi);
      var (so, soi) := PairOrEmpty(q.so, q.soi);
      Some(Tables(products, warehouse, OrEmpty(q.suppliers), po, poi, so, soi, OrEmpty(q.tx)))
    case _ => None
  }

  /** A failed query for `suppliers`, `purchase_orders` or
      `purchase_order_items` is not an error: the tables still load and
      the Supplier Performance view shows its warning. */
  lemma SupplierQueryFailureWarns<PoItem, SalesOrder, Tx>(q: Queries<PoItem, SalesOrder, Tx>)
    requires q.products.Rows? && q.warehouse.Rows?
    requires q.suppliers.Failed? || q.po.Failed? || q.poi.Failed?
    ensures LoadData(q).Some?
    ensures SupplierView(LoadData(q).value.po, LoadData(q).value.suppliers) == NoSupplierData
  {
  }

  /** A failed query for `sales_orders` or `sales_order_items` is not an
      error: the tables still load and the ML Recommendations view shows
      its warning. */
  lemma SalesQueryFailureWarns<PoItem, SalesOrder, Tx>(q: Queries<PoItem, SalesOrder, Tx>)
    requires q.products.Rows? && q.warehouse.Rows?
    requires q.so.Failed? || q.soi.Failed?
    ensures LoadData(q).Some?
    ensures MlRecommendations(LoadData(q).value.warehouse, LoadData(q).value.products, LoadData(q).value.soi) == NoSalesData
  {
  }

  /** The optional tables never change what the Inventory Monitoring and
      Alerts Center views are computed from: two sets of queries that
      agree on products and warehouse load the same two frames. */
  lemma RequiredTablesOnly<PoItem, SalesOrder, Tx>(q: Queries<PoItem, SalesOrder, Tx>, q': Queries<PoItem, SalesOrder, Tx>)
    requires q.products == q'.products && q.warehouse == q'.warehouse
    requires LoadData(q).Some?
    ensures LoadData(q').Some?
    ensures AlertsCenter(LoadData(q').value.warehouse, LoadData(q').value.products) ==
            AlertsCenter(LoadData(q).value.warehouse, LoadData(q).value.products)
    ensures StockFrame(LoadData(q').value.warehouse, LoadData(q').value.products) ==
            StockFrame(LoadData(q).value.warehouse, LoadData(q).value.products)
  {
  }
}
