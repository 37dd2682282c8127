/** lib/constants.ts: the application's fixed numbers. */
module Constants {
  import opened Numbers
  import opened Types

  const NumberOfFamilies: nat := 300
  const TotalAportes: nat := 400
  const MoraCount: nat := 40
  const Budget: real := 200000000.0
  /** BUDGET / TOTAL_APORTES, written out as its value (ConstantsConsistent
      proves the quotient). */
  const StandardPayment: real := 500000.0
  const MinPayment: real := 100000.0
  const MaxPayment: real := 1000000.0

  /** The radius of the hexagonal data cluster. The source computes it as
      Math.ceil((-3 + Math.sqrt(9 + 12 * (TOTAL_APORTES - 1))) / 6); see
      RadiusFormula and DataRadiusIsFormula. */
  const DataRadius: nat := 12

  const MoraColor: Color := Hsl(52, 50, 14)
  const DonacionesColor: Color := Hsl(45, 85, 59)
  const BecasColor: Color := Hsl(50, 85, 65)
  const BorderColor: Color := Hsl(50, 85, 75)
  const BackgroundColor: Color := Hsl(0, 0, 98)
  const BackgroundBorderColor: Color := Hsl(0, 0, 95)
  const EmptyColor: Color := Hsl(0, 0, 95)

  const MinHexSize: real := 8.0
  const MaxHexSize: real := 35.0

  /** The constants fit together: the standard payment splits the budget
      evenly, the colour range is non-empty, the mora families can be drawn
      from the families, and every family can get its first aporte. */
  lemma ConstantsConsistent()
    ensures StandardPayment == Budget / TotalAportes as real
    ensures StandardPayment * TotalAportes as real == Budget
    ensures MinPayment < MaxPayment
    ensures MoraCount <= NumberOfFamilies <= TotalAportes
    ensures MinHexSize <= MaxHexSize
  {
  }

  /** Cells in a hexagon of radius r on an axial grid. */
  function HexCells(r: int): int { 3 * r * r + 3 * r + 1 }

  /** The closed form of the source, for a given square root `root` of
      9 + 12 * (n - 1). */
  function RadiusFormula(root: real): int { Ceil((-3.0 + root) / 6.0) }

  lemma SquareLe(a: real, b: real)
    requires 0.0 <= a <= b
    ensures a * a <= b * b
  {
  }

  lemma SquareLt(a: real, b: real)
    requires 0.0 <= a < b
    ensures a * a < b * b
  {
    calc {
      a * a;
    <=
      a * b;
    <
      b * b;
    }
  }

  /** The closed form yields the least radius r >= 0 whose hexagon holds n cells. */
  lemma RadiusFormulaIsLeast(n: int, root: real)
    requires n >= 1 && root >= 0.0 && root * root == (9 + 12 * (n - 1)) as real
    ensures RadiusFormula(root) >= 0
    ensures HexCells(RadiusFormula(root)) >= n
    ensures RadiusFormula(root) == 0 || HexCells(RadiusFormula(root) - 1) < n
  {
    var r := RadiusFormula(root);
    if root < 3.0 {
      SquareLt(root, 3.0);
      assert false;
    }
    assert (6 * r + 3) as real >= root;
    SquareLe(root, (6 * r + 3) as real);
    assert ((6 * r + 3) * (6 * r + 3)) as real >= root * root;
    if r >= 1 {
      assert (6 * r - 3) as real < root;
      SquareLt((6 * r - 3) as real, root);
      assert ((6 * r - 3) * (6 * r - 3)) as real < root * root;
    }
  }

  /** DATA_RADIUS is 12 whatever the square root routine returns, as long as
      it squares back to 9 + 12 * (TOTAL_APORTES - 1). */
  lemma DataRadiusIsFormula(root: real)
    requires root >= 0.0 && root * root == (9 + 12 * (TotalAportes - 1)) as real
    ensures RadiusFormula(root) == DataRadius
    ensures HexCells(DataRadius) >= TotalAportes > HexCells(DataRadius - 1)
  {
    RadiusFormulaIsLeast(TotalAportes, root);
  }
}
