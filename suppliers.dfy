/** The "Supplier Performance" view: purchase orders joined to their
    suppliers, a lead time per order, and per supplier name the number of
    orders with a lead time and their mean lead time. */
module Suppliers {
  import opened Frames
  import opened Ordering

  /** The columns of `suppliers` this view reads. */
  datatype Supplier = Supplier(idSupplier: int, namaSupplier: Option<string>)

  /** The columns of `purchase_orders` this view reads. Dates are day
      numbers; a date cell that does not parse is missing. */
  datatype PurchaseOrder = PurchaseOrder(idSupplier: int, tanggalPesan: Option<int>, tanggalTerima: Option<int>)

  function OrderSupplierId(o: PurchaseOrder): int { o.idSupplier }
  function SupplierId(s: Supplier): int { s.idSupplier }

  /** A row of `po_perf`: an order and its supplier, if any. */
  type OrderRow = Joined<PurchaseOrder, Supplier>

  /** `po.merge(suppliers, on='id_supplier', how='left')`. */
  function OrderFrame(po: seq<PurchaseOrder>, suppliers: seq<Supplier>): (rows: seq<OrderRow>)
    ensures |rows| >= |po|
  {
    LeftJoin(po, suppliers, OrderSupplierId, SupplierId)
  }

  /** The `nama_supplier` cell of a merged row: missing when no supplier
      matched or its name is NULL. */
  function SupplierName(o: OrderRow): Option<string>
  {
    if o.right.Some? then o.right.value.namaSupplier else None
  }

  /** `(tanggal_terima - tanggal_pesan).dt.days`: missing unless both dates
      are present. */
  function LeadTime(o: PurchaseOrder): (days: Option<int>)
    ensures days.Some? <==> o.tanggalPesan.Some? && o.tanggalTerima.Some?
    ensures days.Some? ==> o.tanggalPesan.value + days.value == o.tanggalTerima.value
  {
    if o.tanggalPesan.Some? && o.tanggalTerima.Some? then Some(o.tanggalTerima.value - o.tanggalPesan.value) else None
  }

  /** 1 for a row whose lead time is present: what `count` counts. */
  function Counted(o: OrderRow): (c: int)
    ensures c == 0 || c == 1
    ensures c == 1 <==> o.left.tanggalPesan.Some? && o.left.tanggalTerima.Some?
  {
    if LeadTime(o.left).Some? then 1 else 0
  }

  /** The lead time of a row, 0 when missing: what `mean` adds up. */
  function LeadDays(o: OrderRow): (d: int)
    ensures Counted(o) == 0 ==> d == 0
    ensures Counted(o) == 1 ==> o.left.tanggalPesan.value + d == o.left.tanggalTerima.value
  {
    if LeadTime(o.left).Some? then LeadTime(o.left).value else 0
  }

  /** An exact mean: `num / den` with `den > 0`. */
  datatype Ratio = Ratio(num: int, den: int)

  /** A row of `df_perf`: Supplier, Avg Lead Time (days), Total Orders.
      The mean is missing (NaN) when no order of the supplier has a lead
      time. */
  datatype SupplierStats = SupplierStats(supplier: string, avgLeadTime: Option<Ratio>, totalOrders: int)

  /** The `lead_time` aggregates of the group named `name`: Total Orders
      counts its rows whose lead time is present, and the average is the
      sum of those lead times over that count. */
  function StatsFor(rows: seq<OrderRow>, name: string): (st: SupplierStats)
    ensures st.supplier == name && st.totalOrders >= 0
    ensures st.totalOrders == SumKey(rows, SupplierName, Counted, Some(name))
    ensures st.avgLeadTime.None? <==> st.totalOrders == 0
    ensures st.avgLeadTime.Some? ==>
      st.avgLeadTime.value.den == st.totalOrders > 0 &&
      st.avgLeadTime.value.num == SumKey(rows, SupplierName, LeadDays, Some(name))
  {
    var n := SumKey(rows, SupplierName, Counted, Some(name));
    var total := SumKey(rows, SupplierName, LeadDays, Some(name));
    SupplierStats(name, if n == 0 then None else Some(Ratio(total, n)), n)
  }

  /** `po_perf['nama_supplier']` without its missing cells. */
  function Names(rows: seq<OrderRow>): (ns: seq<string>)
    ensures forall n :: n in ns <==> exists k :: 0 <= k < |rows| && SupplierName(rows[k]) == Some(n)
  {
    if rows == [] then []
    else
      var rest := Names(rows[1..]);
      assert forall n :: (exists k :: 0 <= k < |rows[1..]| && SupplierName(rows[1..][k]) == Some(n)) <==>
                         (exists k :: 1 <= k < |rows| && SupplierName(rows[k]) == Some(n)) by {
        forall n ensures (exists k :: 0 <= k < |rows[1..]| && SupplierName(rows[1..][k]) == Some(n)) ==>
                         (exists k :: 1 <= k < |rows| && SupplierName(rows[k]) == Some(n)) {
          if k :| 0 <= k < |rows[1..]| && SupplierName(rows[1..][k]) == Some(n) {
            assert rows[1..][k] == rows[k + 1];
          }
        }
        forall n ensures (exists k :: 1 <= k < |rows| && SupplierName(rows[k]) == Some(n)) ==>
                         (exists k :: 0 <= k < |rows[1..]| && SupplierName(rows[1..][k]) == Some(n)) {
          if k :| 1 <= k < |rows| && SupplierName(rows[k]) == Some(n) {
            assert rows[1..][k - 1] == rows[k];
          }
        }
      }
      (if SupplierName(rows[0]).Some? then [SupplierName(rows[0]).value] else []) + rest
  }

  /** The statistics of each name of `ns`, in the order of `ns`. */
  function StatsForAll(rows: seq<OrderRow>, ns: seq<string>): (perf: seq<SupplierStats>)
    ensures |perf| == |ns|
    ensures forall i :: 0 <= i < |ns| ==> perf[i] == StatsFor(rows, ns[i])
  {
    if ns == [] then [] else [StatsFor(rows, ns[0])] + StatsForAll(rows, ns[1..])
  }

  /** `po_perf.groupby('nama_supplier').agg({'lead_time': ['mean', 'count']})`:
      one row per supplier name present in the merged frame, in ascending
      name order, with that name's aggregates. Orders without a supplier
      name fall out of the grouping. */
  function SupplierPerformance(po: seq<PurchaseOrder>, suppliers: seq<Supplier>): (perf: seq<SupplierStats>)
    ensures StrictlySorted(seq(|perf|, i requires 0 <= i < |perf| => perf[i].supplier))
    ensures forall n :: (exists i :: 0 <= i < |perf| && perf[i].supplier == n) <==>
      exists k :: 0 <= k < |OrderFrame(po, suppliers)| && SupplierName(OrderFrame(po, suppliers)[k]) == Some(n)
    ensures forall i :: 0 <= i < |perf| ==> perf[i] == StatsFor(OrderFrame(po, suppliers), perf[i].supplier)
  {
    var rows := OrderFrame(po, suppliers);
    var ns := SortedDistinct(Names(rows));
    var perf := StatsForAll(rows, ns);
    assert seq(|perf|, i requires 0 <= i < |perf| => perf[i].supplier) == ns;
    perf
  }

  /** What the Supplier Performance view shows. */
  datatype SupplierPanel = NoSupplierData | PerformanceTable(rows: seq<SupplierStats>)

  /** A warning unless both `po` and `suppliers` hold rows. */
  function SupplierView(po: seq<PurchaseOrder>, suppliers: seq<Supplier>): (panel: SupplierPanel)
    ensures panel.NoSupplierData? <==> po == [] || suppliers == []
    ensures panel.PerformanceTable? ==> panel.rows == SupplierPerformance(po, suppliers)
  {
    if po != [] && suppliers != [] then PerformanceTable(SupplierPerformance(po, suppliers)) else NoSupplierData
  }

  /** 1 for a row that has both a supplier name and a lead time. */
  function NamedAndCounted(o: OrderRow): int
  {
    if SupplierName(o).Some? then Counted(o) else 0
  }

  function OrdersOf(st: SupplierStats): int { st.totalOrders }

  /** The group keys of `ns` as cells of the name column. */
  function NameKeys(ns: seq<string>): (ks: seq<Option<string>>)
    ensures |ks| == |ns|
    ensures forall i :: 0 <= i < |ns| ==> ks[i] == Some(ns[i])
  {
    seq(|ns|, i requires 0 <= i < |ns| => Some(ns[i]))
  }

  lemma {:induction false} SumOrdersOverKeys(rows: seq<OrderRow>, ns: seq<string>)
    ensures SumAll(StatsForAll(rows, ns), OrdersOf) == SumOverKeys(rows, SupplierName, Counted, NameKeys(ns))
  {
    if ns != [] {
      SumOrdersOverKeys(rows, ns[1..]);
      assert StatsForAll(rows, ns)[1..] == StatsForAll(rows, ns[1..]);
      assert NameKeys(ns)[1..] == NameKeys(ns[1..]);
    }
  }

  /** Grouping by supplier name loses and duplicates no order: the Total
      Orders of all groups add up to the number of merged rows that have
      a supplier name and a lead time. */
  lemma SupplierOrdersConserve(po: seq<PurchaseOrder>, suppliers: seq<Supplier>)
    ensures SumAll(SupplierPerformance(po, suppliers), OrdersOf) == SumAll(OrderFrame(po, suppliers), NamedAndCounted)
  {
    var rows := OrderFrame(po, suppliers);
    var ns := SortedDistinct(Names(rows));
    var ks := NameKeys(ns);
    SumOrdersOverKeys(rows, ns);
    StrictlySortedDistinct(ns);
    assert Distinct(ks);
    GroupSumsPartition(rows, SupplierName, Counted, ks);
    var keySet := set k | k in ks;
    forall i | 0 <= i < |rows|
      ensures NamedAndCounted(rows[i]) == if SupplierName(rows[i]) in keySet then Counted(rows[i]) else 0
    {
      var name := SupplierName(rows[i]);
      if name.Some? {
        assert name.value in Names(rows);
        var j :| 0 <= j < |ns| && ns[j] == name.value;
        assert ks[j] == name;
      } else {
        assert name !in ks;
      }
    }
    SumInAsTotal(rows, SupplierName, Counted, keySet, NamedAndCounted);
  }

  lemma {:induction false} SumKeyOfZeros(rows: seq<OrderRow>, v: OrderRow -> int, k: Option<string>)
    requires forall i :: 0 <= i < |rows| ==> v(rows[i]) == 0
    ensures SumKey(rows, SupplierName, v, k) == 0
  {
    if rows != [] {
      assert forall i :: 0 <= i < |rows[1..]| ==> rows[1..][i] == rows[i + 1];
      SumKeyOfZeros(rows[1..], v, k);
    }
  }

  /** An order with a missing or unparseable date changes neither the
      Total Orders nor the average lead time of any supplier. */
  lemma MissingDatesIgnored(po: seq<PurchaseOrder>, suppliers: seq<Supplier>, o: PurchaseOrder, name: string)
    requires o.tanggalPesan.None? || o.tanggalTerima.None?
    ensures StatsFor(OrderFrame(po + [o], suppliers), name) == StatsFor(OrderFrame(po, suppliers), name)
  {
    var rows := OrderFrame(po, suppliers);
    var extra := JoinRow(o, suppliers, OrderSupplierId, SupplierId);
    assert OrderFrame(po + [o], suppliers) == rows + extra by {
      LeftJoinAppend(po, o, suppliers, OrderSupplierId, SupplierId);
    }
    assert forall i :: 0 <= i < |extra| ==> extra[i].left == o by {
      JoinRowRows(o, suppliers, OrderSupplierId, SupplierId);
      forall i | 0 <= i < |extra| ensures extra[i].left == o {
        assert extra[i] in extra;
      }
    }
    assert SumKey(rows + extra, SupplierName, Counted, Some(name)) == SumKey(rows, SupplierName, Counted, Some(name)) by {
      SumKeyOfZeros(extra, Counted, Some(name));
      SumKeyAppend(rows, extra, SupplierName, Counted, Some(name));
    }
    assert SumKey(rows + extra, SupplierName, LeadDays, Some(name)) == SumKey(rows, SupplierName, LeadDays, Some(name)) by {
      SumKeyOfZeros(extra, LeadDays, Some(name));
      SumKeyAppend(rows, extra, SupplierName, LeadDays, Some(name));
    }
  }
}
