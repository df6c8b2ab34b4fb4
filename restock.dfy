/** The "ML Recommendations" view: quantities sold are summed per product
    code, next week's demand is that sum over twelve, rounded, and a
    warehouse row needs restocking when its stock is below the prediction. */
module Restock {
  import opened Frames
  import opened Ordering
  import opened Inventory

  /** The two columns of `sales_order_items` this view reads. */
  datatype SalesItem = SalesItem(code: Code, jumlah: int)

  function ItemCode(s: SalesItem): Code { s.code }
  function ItemQty(s: SalesItem): int { s.jumlah }

  /** Total quantity sold of product `c` over all sales order items. */
  function TotalSold(soi: seq<SalesItem>, c: Code): (total: int)
    ensures NoMatch(soi, ItemCode, c) ==> total == 0
    ensures (forall i :: 0 <= i < |soi| ==> soi[i].jumlah >= 0) ==> total >= 0
  {
    assert NoMatch(soi, ItemCode, c) ==> SumKey(soi, ItemCode, ItemQty, c) == 0 by {
      if NoMatch(soi, ItemCode, c) {
        SumKeyAbsent(soi, ItemCode, ItemQty, c);
      }
    }
    SumKey(soi, ItemCode, ItemQty, c)
  }

  /** A row of `sales_sum`: a product code and its total quantity sold. */
  datatype SalesTotal = SalesTotal(code: Code, jumlah: int)

  function TotalCode(g: SalesTotal): Code { g.code }
  function TotalQty(g: SalesTotal): int { g.jumlah }

  /** `sales_sum['code']`. */
  function Codes(sums: seq<SalesTotal>): (cs: seq<Code>)
    ensures |cs| == |sums|
    ensures forall k :: 0 <= k < |sums| ==> cs[k] == sums[k].code
  {
    seq(|sums|, k requires 0 <= k < |sums| => sums[k].code)
  }

  /** `soi['code']`. */
  function SoldCodes(soi: seq<SalesItem>): (cs: seq<Code>)
    ensures |cs| == |soi|
    ensures forall i :: 0 <= i < |soi| ==> cs[i] == soi[i].code
  {
    seq(|soi|, i requires 0 <= i < |soi| => soi[i].code)
  }

  /** One total per key of `ks`, in the order of `ks`. */
  function TotalsFor(soi: seq<SalesItem>, ks: seq<Code>): (sums: seq<SalesTotal>)
    ensures Codes(sums) == ks
    ensures forall g :: g in sums ==> g.jumlah == TotalSold(soi, g.code)
  {
    if ks == [] then []
    else
      var rest := TotalsFor(soi, ks[1..]);
      var sums := [SalesTotal(ks[0], TotalSold(soi, ks[0]))] + rest;
      assert Codes(sums) == ks by {
        assert forall k :: 1 <= k < |sums| ==> sums[k] == rest[k - 1];
      }
      sums
  }

  /** `soi.groupby('code').agg({'jumlah': 'sum'})`: one row per code sold,
      in ascending code order, carrying that code's total. */
  function SalesTotals(soi: seq<SalesItem>): (sums: seq<SalesTotal>)
    ensures StrictlySorted(Codes(sums))
    ensures forall c :: c in Codes(sums) <==> exists i :: 0 <= i < |soi| && soi[i].code == c
    ensures forall g :: g in sums ==> g.jumlah == TotalSold(soi, g.code)
  {
    TotalsFor(soi, SortedDistinct(SoldCodes(soi)))
  }

  lemma {:induction false} TotalsForSum(soi: seq<SalesItem>, ks: seq<Code>)
    ensures SumAll(TotalsFor(soi, ks), TotalQty) == SumOverKeys(soi, ItemCode, ItemQty, ks)
  {
    if ks != [] {
      TotalsForSum(soi, ks[1..]);
      assert TotalsFor(soi, ks)[1..] == TotalsFor(soi, ks[1..]);
    }
  }

  /** Grouping loses and duplicates nothing: the per-code totals add up to
      the total quantity sold. */
  lemma SalesTotalsConserve(soi: seq<SalesItem>)
    ensures SumAll(SalesTotals(soi), TotalQty) == SumAll(soi, ItemQty)
  {
    var ks := SortedDistinct(SoldCodes(soi));
    TotalsForSum(soi, ks);
    StrictlySortedDistinct(ks);
    GroupSumsPartition(soi, ItemCode, ItemQty, ks);
    assert forall i :: 0 <= i < |soi| ==> ItemCode(soi[i]) in (set k | k in ks) by {
      forall i | 0 <= i < |soi| ensures soi[i].code in ks {
        assert SoldCodes(soi)[i] == soi[i].code;
        assert SoldCodes(soi)[i] in SoldCodes(soi);
      }
    }
    SumInAsTotal(soi, ItemCode, ItemQty, (set k | k in ks), ItemQty);
  }

  /** `p` is `total / 12` rounded to the nearest integer, a tie going to
      the even neighbour. */
  ghost predicate NearestTiesEven(total: int, p: int)
  {
    && 12 * p - 6 <= total <= 12 * p + 6
    && ((total == 12 * p - 6 || total == 12 * p + 6) ==> p % 2 == 0)
  }

  /** `(jumlah / 12).round().astype(int)`: numpy rounds halves to even. */
  function PredictWeekly(total: int): (p: int)
    ensures NearestTiesEven(total, p)
  {
    var q, m := total / 12, total % 12;
    if m < 6 then q
    else if m > 6 then q + 1
    else if q % 2 == 0 then q
    else q + 1
  }

  /** The rounding rule admits one answer, so `PredictWeekly` is it. */
  lemma PredictionUnique(total: int, p: int)
    requires NearestTiesEven(total, p)
    ensures p == PredictWeekly(total)
  {
  }

  /** Selling more never predicts less. */
  lemma PredictWeeklyMonotone(a: int, b: int)
    requires a <= b
    ensures PredictWeekly(a) <= PredictWeekly(b)
  {
  }

  /** A row of `sales_sum[['code', 'prediksi_minggu_depan']]`. */
  datatype Forecast = Forecast(code: Code, prediksi: int)

  function ForecastCode(f: Forecast): Code { f.code }

  /** `sales_sum.merge(products[['code']], on='code', how='left')` with the
      prediction column: one forecast per code sold (repeated when several
      products share the code), predicting its rounded weekly demand. */
  function Forecasts(soi: seq<SalesItem>, products: seq<Product>): (fs: seq<Forecast>)
    ensures forall f :: f in fs ==> f.prediksi == PredictWeekly(TotalSold(soi, f.code))
    ensures forall f :: f in fs ==> exists i :: 0 <= i < |soi| && soi[i].code == f.code
    ensures forall i :: 0 <= i < |soi| ==> !NoMatch(fs, ForecastCode, soi[i].code)
  {
    var joined := LeftJoin(SalesTotals(soi), products, TotalCode, ProductCode);
    var fs := seq(|joined|, k requires 0 <= k < |joined| =>
      Forecast(joined[k].left.code, PredictWeekly(joined[k].left.jumlah)));
    ForecastsPredict(soi, products, fs);
    ForecastsCover(soi, products, fs);
    fs
  }

  /** The forecast rows built from the merge of `sales_sum` with the
      product codes. */
  ghost predicate ForecastsFrom(soi: seq<SalesItem>, products: seq<Product>, fs: seq<Forecast>)
  {
    var joined := LeftJoin(SalesTotals(soi), products, TotalCode, ProductCode);
    && |fs| == |joined|
    && forall k :: 0 <= k < |joined| ==>
      fs[k] == Forecast(joined[k].left.code, PredictWeekly(joined[k].left.jumlah))
  }

  lemma ForecastsPredict(soi: seq<SalesItem>, products: seq<Product>, fs: seq<Forecast>)
    requires ForecastsFrom(soi, products, fs)
    ensures forall f :: f in fs ==> f.prediksi == PredictWeekly(TotalSold(soi, f.code))
    ensures forall f :: f in fs ==> exists i :: 0 <= i < |soi| && soi[i].code == f.code
  {
    var sums := SalesTotals(soi);
    var joined := LeftJoin(sums, products, TotalCode, ProductCode);
    LeftJoinRows(sums, products, TotalCode, ProductCode);
    forall f | f in fs
      ensures f.prediksi == PredictWeekly(TotalSold(soi, f.code))
      ensures exists i :: 0 <= i < |soi| && soi[i].code == f.code
    {
      var k :| 0 <= k < |fs| && fs[k] == f;
      var g := joined[k].left;
      assert joined[k] in joined;
      var n :| 0 <= n < |sums| && sums[n] == g;
      assert Codes(sums)[n] == g.code;
      assert g.code in Codes(sums);
    }
  }

  lemma ForecastsCover(soi: seq<SalesItem>, products: seq<Product>, fs: seq<Forecast>)
    requires ForecastsFrom(soi, products, fs)
    ensures forall i :: 0 <= i < |soi| ==> !NoMatch(fs, ForecastCode, soi[i].code)
  {
    var sums := SalesTotals(soi);
    forall i | 0 <= i < |soi| ensures !NoMatch(fs, ForecastCode, soi[i].code) {
      var c := soi[i].code;
      assert c in Codes(sums);
      var n :| 0 <= n < |sums| && Codes(sums)[n] == c;
      var k := LeftJoinKeeps(sums, products, TotalCode, ProductCode, sums[n]);
      assert fs[k].code == c;
    }
  }

  /** A row of the recommendation table. */
  datatype Recommendation = Recommendation(item: WarehouseRow, prediksi: int, butuhRestok: bool)

  /** One merged row with `fillna(0)` applied and the `Butuh Restok` column. */
  function Recommend(j: Joined<WarehouseRow, Forecast>): (r: Recommendation)
    ensures r.item == j.left
    ensures j.right.None? ==> r.prediksi == 0 && (r.item.jumlah >= 0 ==> !r.butuhRestok)
    ensures j.right.Some? ==> r.prediksi == j.right.value.prediksi
    ensures r.butuhRestok <==> r.item.jumlah < r.prediksi
  {
    var p := if j.right.Some? then j.right.value.prediksi else 0;
    Recommendation(j.left, p, j.left.jumlah < p)
  }

  /** `warehouse.merge(forecasts, on='code', how='left')`, missing
      predictions filled with 0, flagged where stock is below the
      prediction. Every warehouse row appears; each row predicts the
      rounded twelfth of its code's total sales (0 for a code never sold)
      and is flagged exactly when its stock is below that prediction. */
  function Recommendations(warehouse: seq<WarehouseRow>, products: seq<Product>, soi: seq<SalesItem>): (recs: seq<Recommendation>)
    ensures forall r :: r in recs ==> r.item in warehouse
    ensures forall r :: r in recs ==> r.prediksi == PredictWeekly(TotalSold(soi, r.item.code))
    ensures forall r :: r in recs ==> (r.butuhRestok <==> r.item.jumlah < r.prediksi)
    ensures forall w :: w in warehouse ==> exists r :: r in recs && r.item == w
  {
    var joined := LeftJoin(warehouse, Forecasts(soi, products), WarehouseCode, ForecastCode);
    var recs := seq(|joined|, k requires 0 <= k < |joined| => Recommend(joined[k]));
    RecommendationsRows(warehouse, products, soi, recs);
    recs
  }

  /** The recommendation rows built from the merge of the warehouse with
      the forecasts. */
  ghost predicate RecommendationsFrom(warehouse: seq<WarehouseRow>, products: seq<Product>, soi: seq<SalesItem>, recs: seq<Recommendation>)
  {
    var joined := LeftJoin(warehouse, Forecasts(soi, products), WarehouseCode, ForecastCode);
    && |recs| == |joined|
    && forall k :: 0 <= k < |joined| ==> recs[k] == Recommend(joined[k])
  }

  lemma RecommendationsRows(warehouse: seq<WarehouseRow>, products: seq<Product>, soi: seq<SalesItem>, recs: seq<Recommendation>)
    requires RecommendationsFrom(warehouse, products, soi, recs)
    ensures forall r :: r in recs ==> r.item in warehouse
    ensures forall r :: r in recs ==> r.prediksi == PredictWeekly(TotalSold(soi, r.item.code))
    ensures forall r :: r in recs ==> (r.butuhRestok <==> r.item.jumlah < r.prediksi)
    ensures forall w :: w in warehouse ==> exists r :: r in recs && r.item == w
  {
    var fs := Forecasts(soi, products);
    var joined := LeftJoin(warehouse, fs, WarehouseCode, ForecastCode);
    LeftJoinRows(warehouse, fs, WarehouseCode, ForecastCode);
    forall r | r in recs ensures r.item in warehouse && r.prediksi == PredictWeekly(TotalSold(soi, r.item.code)) {
      var k :| 0 <= k < |recs| && recs[k] == r;
      assert joined[k] in joined;
      FilledPrediction(soi, products, joined[k]);
    }
    forall w | w in warehouse ensures exists r :: r in recs && r.item == w {
      var k := LeftJoinKeeps(warehouse, fs, WarehouseCode, ForecastCode, w);
      assert recs[k] in recs;
    }
  }

  /** `fillna(0)` agrees with the prediction formula: a row without a
      forecast belongs to a code never sold, whose total is 0. */
  lemma FilledPrediction(soi: seq<SalesItem>, products: seq<Product>, j: Joined<WarehouseRow, Forecast>)
    requires j.right.Some? ==> j.right.value in Forecasts(soi, products) && j.right.value.code == j.left.code
    requires j.right.None? ==> NoMatch(Forecasts(soi, products), ForecastCode, j.left.code)
    ensures Recommend(j).prediksi == PredictWeekly(TotalSold(soi, j.left.code))
  {
    if j.right.None? {
      var c := j.left.code;
      assert NoMatch(soi, ItemCode, c) by {
        forall i | 0 <= i < |soi| ensures ItemCode(soi[i]) != c {
          assert !NoMatch(Forecasts(soi, products), ForecastCode, soi[i].code);
        }
      }
    }
  }

  /** With unique product codes the recommendation table keeps the
      warehouse table row for row. */
  lemma RecommendationsUnique(warehouse: seq<WarehouseRow>, products: seq<Product>, soi: seq<SalesItem>)
    requires UniqueKeys(products, ProductCode)
    ensures |Recommendations(warehouse, products, soi)| == |warehouse|
    ensures forall i :: 0 <= i < |warehouse| ==> Recommendations(warehouse, products, soi)[i].item == warehouse[i]
  {
    var sums := SalesTotals(soi);
    LeftJoinUnique(sums, products, TotalCode, ProductCode);
    var fs := Forecasts(soi, products);
    StrictlySortedDistinct(Codes(sums));
    assert UniqueKeys(fs, ForecastCode) by {
      forall i, j | 0 <= i < j < |fs| ensures ForecastCode(fs[i]) != ForecastCode(fs[j]) {
        assert Codes(sums)[i] != Codes(sums)[j];
      }
    }
    LeftJoinUnique(warehouse, fs, WarehouseCode, ForecastCode);
  }

  /** An item whose code was never sold is predicted 0 in every row of
      the recommendation table and, with stock that is not negative, never
      flagged. */
  lemma UnsoldNeverFlagged(warehouse: seq<WarehouseRow>, products: seq<Product>, soi: seq<SalesItem>, w: WarehouseRow)
    requires NoMatch(soi, ItemCode, w.code)
    ensures forall r :: r in Recommendations(warehouse, products, soi) && r.item == w ==>
      r.prediksi == 0 && (w.jumlah >= 0 ==> !r.butuhRestok)
  {
  }

  /** What the ML Recommendations view shows. */
  datatype MlPanel = NoSalesData | RecommendationTable(rows: seq<Recommendation>)

  /** A warning when `soi` is empty, the recommendation table otherwise. */
  function MlRecommendations(warehouse: seq<WarehouseRow>, products: seq<Product>, soi: seq<SalesItem>): (panel: MlPanel)
    ensures panel.NoSalesData? <==> soi == []
    ensures panel.RecommendationTable? ==> panel.rows == Recommendations(warehouse, products, soi)
  {
    if soi == [] then NoSalesData else RecommendationTable(Recommendations(warehouse, products, soi))
  }
}
