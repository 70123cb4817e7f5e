/** The client-paginated rewards table the rewards page renders
    (src/components/dashboard/rewards/reviews-table.tsx): the colour of each stock
    bar and its row actions. Its range line is `Paging.Showing` over the length
    of the whole reward list. */
module ClientRewardsTable {
  import opened Records

  /** The stock bar's colour: `#6366f1` (indigo) or `#f97316` (orange). */
  datatype BarColour = Indigo | Orange

  /** `percentage > 50 ? "#6366f1" : "#f97316"` with `percentage = stock / maxStock * 100`,
      in exact arithmetic. Dividing by a zero `maxStock` gives +Infinity for a
      positive stock (which is > 50) and -Infinity or NaN otherwise (which is not). */
  function StockColour(stock: int, maxStock: int): (c: BarColour)
    ensures maxStock == 0 ==> (c == Indigo <==> stock > 0)
  {
    if maxStock == 0 then (if stock > 0 then Indigo else Orange)
    else if (stock as real / maxStock as real) * 100.0 > 50.0 then Indigo
    else Orange
  }

  /** For a positive maximum, the bar is indigo exactly when more than half the
      stock is left: the integer test 2 * stock > maxStock. */
  lemma StockColourThreshold(stock: int, maxStock: int)
    requires maxStock > 0
    ensures StockColour(stock, maxStock) == Indigo <==> 2 * stock > maxStock
  {
    var s, m := stock as real, maxStock as real;
    var q := s / m;
    assert q * m == s;
    assert (2.0 * q - 1.0) * m == 2.0 * s - m;
    SignOfProduct(2.0 * q - 1.0, m);
  }

  /** Multiplying by a positive number keeps the sign. */
  lemma SignOfProduct(a: real, m: real)
    requires m > 0.0
    ensures a * m > 0.0 <==> a > 0.0
  {
  }

  /** A full bar is indigo and an empty one orange. */
  lemma FullAndEmptyBars(maxStock: int)
    requires maxStock > 0
    ensures StockColour(maxStock, maxStock) == Indigo
    ensures StockColour(0, maxStock) == Orange
  {
    StockColourThreshold(maxStock, maxStock);
    StockColourThreshold(0, maxStock);
  }

  /** What a row's menu hands to the page: the whole row for Edit, its id for Delete. */
  datatype RowAction = EditRow(reward: Reward) | DeleteRow(id: string)

  function EditAction(row: Reward): (a: RowAction)
    ensures a.EditRow? && a.reward == row
  {
    EditRow(row)
  }

  function DeleteAction(row: Reward): (a: RowAction)
    ensures a.DeleteRow? && a.id == row.id
  {
    DeleteRow(row.id)
  }
}
