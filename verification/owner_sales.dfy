/** The owner's sales summary (src/components/OwnerSalesPage.tsx): opening
    and closing totals over three payment channels and the day's earnings.
    Amounts are whole pesos. */
module OwnerSales {
  /** One snapshot of the money on hand. */
  datatype Amounts = Amounts(cash: int, digitalWallet: int, bankAmount: int)

  datatype FinancialData = FinancialData(opening: Amounts, closing: Amounts)

  /** `openingTotal` / `closingTotal`: the three channels added up. */
  function Total(a: Amounts): (t: int)
    ensures a.cash >= 0 && a.digitalWallet >= 0 && a.bankAmount >= 0 ==>
      t >= a.cash && t >= a.digitalWallet && t >= a.bankAmount
  {
    a.cash + a.digitalWallet + a.bankAmount
  }

  /** "Total Daily Earnings": closing total minus opening total, not clamped,
      so a day that ends with less money than it started shows a negative
      figure. It is the sum of what each channel gained. */
  function Earnings(d: FinancialData): (e: int)
    ensures e < 0 <==> Total(d.closing) < Total(d.opening)
    ensures e == (d.closing.cash - d.opening.cash)
               + (d.closing.digitalWallet - d.opening.digitalWallet)
               + (d.closing.bankAmount - d.opening.bankAmount)
  {
    Total(d.closing) - Total(d.opening)
  }

  function SeedData(): FinancialData
  {
    FinancialData(Amounts(5000, 3500, 12000), Amounts(8500, 6200, 18500))
  }

  /** The page's figures: 20500 opening, 33200 closing, 12700 earned. */
  lemma SeedFigures()
    ensures Total(SeedData().opening) == 20500
    ensures Total(SeedData().closing) == 33200
    ensures Earnings(SeedData()) == 12700
  {
  }
}
