/** The top-rotation chart (src/modules/dashboard/components/top-rotation-chart.tsx):
    each product gets a short description for the axis, cut to 28
    characters and an ellipsis when longer than 30. */
module RotationChart {
  import opened Strings

  /** A product of the chart's data; the quantity is an integer here. */
  datatype Product = Product(codigo: string, descripcion: string, lineaDesc: string, qtyConsumida12M: int, ranking: int)

  /** A chart entry: the product's fields and the axis label. */
  datatype ChartEntry = ChartEntry(product: Product, shortDesc: string)

  /** `shortDesc`: at most 30 characters, the description itself when it
      fits, otherwise its first 28 characters and an ellipsis. */
  function ShortDesc(d: string): (r: string)
    ensures |r| <= 30
    ensures |d| <= 30 ==> r == d
    ensures |d| > 30 ==> |r| == 29 && r[..28] == d[..28] && r[28] == '…'
  {
    if |d| > 30 then Take(d, 28) + "…" else d
  }

  /** A short description is short already: cutting it again changes
      nothing. */
  lemma ShortDescIdempotent(d: string)
    ensures ShortDesc(ShortDesc(d)) == ShortDesc(d)
  {
  }

  /** `chartData`: one entry per product, in order, keeping the product and
      adding its short description. */
  function ChartData(data: seq<Product>): (r: seq<ChartEntry>)
    ensures |r| == |data|
    ensures forall i :: 0 <= i < |data| ==> r[i].product == data[i] && r[i].shortDesc == ShortDesc(data[i].descripcion)
  {
    if data == [] then [] else [ChartEntry(data[0], ShortDesc(data[0].descripcion))] + ChartData(data[1..])
  }
}
