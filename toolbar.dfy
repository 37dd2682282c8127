/** components/Toolbar.tsx, the derived values only: the month name, the
    expected total and balance, the designated family's displayed total
    and the mock budget sliders. */
module ToolbarValues {
  import opened Numbers
  import opened Types
  import opened Constants
  import opened DataUtils

  const MonthNames: seq<string> := [
    "Enero", "Febrero", "Marzo", "Abril", "Mayo", "Junio",
    "Julio", "Agosto", "Septiembre", "Octubre", "Noviembre", "Diciembre"
  ]

  /** getCurrentMonth, for the month index `new Date().getMonth()`. */
  function GetCurrentMonth(month: nat): (name: string)
    requires month < 12
    ensures name in MonthNames
  {
    MonthNames[month]
  }

  /** Different months have different names. */
  lemma MonthNamesDistinct(a: nat, b: nat)
    requires a < 12 && b < 12 && a != b
    ensures GetCurrentMonth(a) != GetCurrentMonth(b)
  {
  }

  /** `STANDARD_PAYMENT * aportes.flat().length` */
  function ExpectedTotal(aportes: seq<seq<Aporte>>): (total: real)
    ensures total >= 0.0
  {
    StandardPayment * |Flatten(aportes)| as real
  }

  /** Generated data is expected to pay exactly the budget. */
  lemma ExpectedTotalOfGenerated(aportes: seq<seq<Aporte>>)
    requires |Flatten(aportes)| == TotalAportes
    ensures ExpectedTotal(aportes) == Budget
  {
    ConstantsConsistent();
  }

  /** `presupuestoTotal - expectedTotal`: what the budget leaves over the
      standard payments, negative in a deficit. */
  function Balance(presupuestoTotal: real, aportes: seq<seq<Aporte>>): (balance: real)
    ensures balance + ExpectedTotal(aportes) == presupuestoTotal
  {
    presupuestoTotal - ExpectedTotal(aportes)
  }

  /** For the 400 generated aportes the balance is the budget shown minus
      BUDGET, so the toolbar is in deficit exactly when the budget shown is
      below BUDGET. */
  lemma GeneratedBalance(presupuestoTotal: real, aportes: seq<seq<Aporte>>)
    requires |Flatten(aportes)| == TotalAportes
    ensures Balance(presupuestoTotal, aportes) == presupuestoTotal - Budget
    ensures Balance(presupuestoTotal, aportes) < 0.0 <==> presupuestoTotal < Budget
  {
    ExpectedTotalOfGenerated(aportes);
  }

  /** `aportes[i]?.length || 0` */
  function FamiliaAportesCount(aportes: seq<seq<Aporte>>, i: int): (count: nat)
    ensures count == 0 <==> !(0 <= i < |aportes|) || aportes[i] == []
  {
    if 0 <= i < |aportes| then |aportes[i]| else 0
  }

  /** The designated family's displayed total: in a deficit, a family
      paying less than STANDARD_PAYMENT per aporte is shown as paying
      exactly that; otherwise its current sum is shown. */
  function DisplayFamiliaTotal(presupuestoTotal: real, aportes: seq<seq<Aporte>>, designated: int, currentSum: real): (display: real)
    ensures display >= currentSum
    ensures Balance(presupuestoTotal, aportes) >= 0.0 ==> display == currentSum
    ensures display == currentSum || display == StandardPayment * FamiliaAportesCount(aportes, designated) as real
    ensures display != currentSum <==>
      Balance(presupuestoTotal, aportes) < 0.0 && currentSum < StandardPayment * FamiliaAportesCount(aportes, designated) as real
  {
    var familiaBaseline := StandardPayment * FamiliaAportesCount(aportes, designated) as real;
    var isDeficit := Balance(presupuestoTotal, aportes) < 0.0;
    if isDeficit && currentSum < familiaBaseline then familiaBaseline else currentSum
  }

  /** The budget lines the sliders start from. */
  const SalariosBase: int := 120000000
  const BecasBase: int := 35000000
  const ReservasBase: int := 25000000
  const MantenimientoBase: int := 18000000

  /** A slider amount: the base increased by pct percent, rounded. */
  function SliderAmount(base: int, pct: real): (amount: int)
    ensures base as real * PercentFactor(pct) - 0.5 < amount as real <= base as real * PercentFactor(pct) + 0.5
  {
    Round(base as real * PercentFactor(pct))
  }

  /** 0% gives the base and 100% double the base. */
  lemma SliderAmountEnds(base: int)
    ensures SliderAmount(base, 0.0) == base
    ensures SliderAmount(base, 100.0) == 2 * base
  {
    assert PercentFactor(0.0) == 1.0;
    assert PercentFactor(100.0) == 2.0;
    RoundOfInt(base);
    RoundOfInt(2 * base);
  }

  /** For a non-negative base, a larger percentage never gives less. */
  lemma SliderAmountMonotone(base: int, pct1: real, pct2: real)
    requires base >= 0 && pct1 <= pct2
    ensures SliderAmount(base, pct1) <= SliderAmount(base, pct2)
  {
    assert base as real * PercentFactor(pct1) <= base as real * PercentFactor(pct2);
  }

  /** The amounts the sliders show at their initial percentages. */
  lemma InitialSliderAmounts()
    ensures SliderAmount(SalariosBase, 60.0) == 192000000
    ensures SliderAmount(BecasBase, 40.0) == 49000000
    ensures SliderAmount(ReservasBase, 20.0) == 30000000
    ensures SliderAmount(MantenimientoBase, 25.0) == 22500000
  {
    assert PercentFactor(60.0) == 1.6;
    assert PercentFactor(40.0) == 1.4;
    assert PercentFactor(20.0) == 1.2;
    assert PercentFactor(25.0) == 1.25;
    RoundOfInt(192000000);
    RoundOfInt(49000000);
    RoundOfInt(30000000);
    RoundOfInt(22500000);
  }
}
