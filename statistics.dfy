/** The statistics page: how many potential and active clients there are,
    and total contract income over total campaign expenses, rounded to
    hundredths. Money is in cents, so the ratio of the two totals is the
    ratio of their cent amounts. */
module Statistics {
  import opened Wrappers
  import opened Models
  import Collections

  // ---------------------------------------------------------------------
  // Sums

  /** The sum of the values of `m`; an aggregate Sum over the table. */
  ghost function Total(m: map<Id, int>): int
    decreases |m|
  {
    if forall k :: k !in m then 0
    else
      var k :| k in m;
      m[k] + Total(m - {k})
  }

  /** The aggregate as the database reports it: no rows, no sum. */
  ghost function SumOf(m: map<Id, Cents>): (r: Option<Cents>)
    ensures r.None? <==> forall k :: k !in m
  {
    if forall k :: k !in m then None else Some(Total(m))
  }

  /** The amount column of the contracts table. */
  function Amounts(contracts: map<Id, Contract>): (r: map<Id, Cents>)
    ensures r.Keys == contracts.Keys
    ensures forall k | k in r :: r[k] == contracts[k].amount
  {
    map k | k in contracts :: contracts[k].amount
  }

  /** The budget column of the campaigns table. */
  function Budgets(campaigns: map<Id, Campaign>): (r: map<Id, Cents>)
    ensures r.Keys == campaigns.Keys
    ensures forall k | k in r :: r[k] == campaigns[k].budget
  {
    map k | k in campaigns :: campaigns[k].budget
  }

  /** The sum does not depend on the order rows are visited in: any row can
      be taken out first. */
  lemma {:induction false} TotalRemove(m: map<Id, int>, j: Id)
    requires j in m
    ensures Total(m) == m[j] + Total(m - {j})
    decreases |m|
  {
    var k :| k in m && Total(m) == m[k] + Total(m - {k});
    if k != j {
      TotalRemove(m - {k}, j);
      TotalRemove(m - {j}, k);
      Collections.MapExt(m - {k} - {j}, m - {j} - {k});
    }
  }

  /** Adding a row adds its value to the sum. */
  lemma TotalAdd(m: map<Id, int>, k: Id, v: int)
    requires k !in m
    ensures Total(m[k := v]) == Total(m) + v
  {
    TotalRemove(m[k := v], k);
    Collections.MapExt(m[k := v] - {k}, m);
  }

  /** A new contract adds its amount to the total income. */
  lemma IncomeWithContract(contracts: map<Id, Contract>, k: Id, c: Contract)
    requires k !in contracts
    ensures Total(Amounts(contracts[k := c])) == Total(Amounts(contracts)) + c.amount
  {
    Collections.MapExt(Amounts(contracts[k := c]), Amounts(contracts)[k := c.amount]);
    TotalAdd(Amounts(contracts), k, c.amount);
  }

  /** Removing a contract takes its amount off the total income. */
  lemma IncomeWithoutContract(contracts: map<Id, Contract>, k: Id)
    requires k in contracts
    ensures Total(Amounts(contracts - {k})) == Total(Amounts(contracts)) - contracts[k].amount
  {
    Collections.MapExt(Amounts(contracts - {k}), Amounts(contracts) - {k});
    TotalRemove(Amounts(contracts), k);
  }

  /** A new campaign adds its budget to the total expenses. */
  lemma ExpensesWithCampaign(campaigns: map<Id, Campaign>, k: Id, c: Campaign)
    requires k !in campaigns
    ensures Total(Budgets(campaigns[k := c])) == Total(Budgets(campaigns)) + c.budget
  {
    Collections.MapExt(Budgets(campaigns[k := c]), Budgets(campaigns)[k := c.budget]);
    TotalAdd(Budgets(campaigns), k, c.budget);
  }

  /** Removing a campaign takes its budget off the total expenses. */
  lemma ExpensesWithoutCampaign(campaigns: map<Id, Campaign>, k: Id)
    requires k in campaigns
    ensures Total(Budgets(campaigns - {k})) == Total(Budgets(campaigns)) - campaigns[k].budget
  {
    Collections.MapExt(Budgets(campaigns - {k}), Budgets(campaigns) - {k});
    TotalRemove(Budgets(campaigns), k);
  }

  /** The database's SUM aggregate over one column, computed row by row: no
      rows give no sum. */
  method SumColumn(column: map<Id, Cents>) returns (r: Option<Cents>)
    ensures r == SumOf(column)
  {
    var rest, total := column, 0;
    while rest != map[]
      invariant total + Total(rest) == Total(column)
      decreases |rest|
    {
      ghost var some := Collections.PickKey(rest);
      var k :| k in rest;
      TotalRemove(rest, k);
      total, rest := total + rest[k], rest - {k};
    }
    if column == map[] {
      r := None;
    } else {
      ghost var some := Collections.PickKey(column);
      r := Some(total);
    }
  }

  // ---------------------------------------------------------------------
  // Rounding

  function Abs(x: int): nat
  {
    if x < 0 then -x else x
  }

  /** `q` is n/d rounded to the nearest integer, ties to the even one: the
      rounding Python's round applies to a Decimal. */
  ghost predicate IsHalfEvenRounding(n: int, d: int, q: int)
  {
    var e := n - q * d;
    2 * Abs(e) < Abs(d) || (2 * Abs(e) == Abs(d) && q % 2 == 0)
  }

  /** Half-even rounding of n/d for a positive divisor. */
  function RoundHalfEvenPositive(n: int, d: int): (q: int)
    requires d > 0
    ensures IsHalfEvenRounding(n, d, q)
  {
    var q0 := n / d;
    var r := n % d;
    assert n - q0 * d == r;
    assert n - (q0 + 1) * d == r - d;
    if 2 * r < d then q0
    else if 2 * r > d then q0 + 1
    else if q0 % 2 == 0 then q0
    else q0 + 1
  }

  /** Half-even rounding of n/d. */
  function RoundHalfEven(n: int, d: int): (q: int)
    requires d != 0
    ensures IsHalfEvenRounding(n, d, q)
  {
    if d > 0 then RoundHalfEvenPositive(n, d)
    else
      var q := RoundHalfEvenPositive(-n, -d);
      assert -n - q * (-d) == -(n - q * d);
      q
  }

  /** The divisor's sign does not matter once the dividend's is flipped too. */
  lemma HalfEvenRoundingNegate(n: int, d: int, q: int)
    ensures IsHalfEvenRounding(n, d, q) == IsHalfEvenRounding(-n, -d, q)
  {
    assert -n - q * (-d) == -(n - q * d);
  }

  /** A multiple of a positive divisor is at least the divisor when the
      factor is positive, and at most twice its negation when the factor is
      -2 or less. */
  lemma MultipleBounds(t: int, d: int)
    requires d > 0
    ensures t >= 1 ==> t * d >= d
    ensures t <= -2 ==> t * d <= -2 * d
  {
  }

  /** For a positive divisor, RoundHalfEvenPositive is the only half-even
      rounding. */
  lemma HalfEvenRoundingIsPositive(n: int, d: int, q: int)
    requires d > 0 && IsHalfEvenRounding(n, d, q)
    ensures q == RoundHalfEvenPositive(n, d)
  {
    // Write the error against the floor quotient: it is the remainder plus
    // a whole number of divisors, and only 0 or -1 of them keep it within
    // half a divisor.
    var q0, r := n / d, n % d;
    var t := q0 - q;
    assert n - q * d == r + t * d;
    MultipleBounds(t, d);
    assert t == 0 || t == -1;
    if t == 0 {
      assert n - q * d == r;
    } else {
      assert n - q * d == r - d;
    }
  }

  /** At most one integer is the half-even rounding of n/d, so RoundHalfEven
      is the only function meeting that contract. */
  lemma HalfEvenRoundingUnique(n: int, d: int, q1: int, q2: int)
    requires d != 0
    requires IsHalfEvenRounding(n, d, q1) && IsHalfEvenRounding(n, d, q2)
    ensures q1 == q2
  {
    var n', d' := if d > 0 then n else -n, if d > 0 then d else -d;
    HalfEvenRoundingNegate(n, d, q1);
    HalfEvenRoundingNegate(n, d, q2);
    HalfEvenRoundingIsPositive(n', d', q1);
    HalfEvenRoundingIsPositive(n', d', q2);
  }

  /** An exact quotient is not moved by rounding. */
  lemma RoundExact(k: int, d: int)
    requires d != 0
    ensures RoundHalfEven(k * d, d) == k
  {
    assert IsHalfEvenRounding(k * d, d, k) by {
      assert k * d - k * d == 0;
    }
    HalfEvenRoundingUnique(k * d, d, k, RoundHalfEven(k * d, d));
  }

  // ---------------------------------------------------------------------
  // The ratio

  /** How computing the ratio fails: comparing or dividing by a missing sum
      is a type error, dividing by a zero sum a division by zero. */
  datatype StatsError = TypeError | DivisionByZero

  /** Income over expenses in hundredths. A non-positive income gives 0
      without looking at the expenses. */
  function IncomeExpensesRatio(income: Option<Cents>, expenses: Option<Cents>): (r: Result<int, StatsError>)
    ensures r == Failure(TypeError) <==> income.None? || (income.value > 0 && expenses.None?)
    ensures r == Failure(DivisionByZero) <==> income.Some? && income.value > 0 && expenses == Some(0)
    ensures r.Success? && income.value <= 0 ==> r.value == 0
    ensures r.Success? && income.value > 0 ==>
      expenses.Some? && expenses.value != 0 && IsHalfEvenRounding(100 * income.value, expenses.value, r.value)
  {
    match income
    case None => Failure(TypeError)
    case Some(i) =>
      if i <= 0 then Success(0)
      else match expenses
        case None => Failure(TypeError)
        case Some(e) =>
          if e == 0 then Failure(DivisionByZero)
          else Success(RoundHalfEven(100 * i, e))
  }

  /** Equal positive totals give a ratio of exactly 1.00. */
  lemma BreakEvenRatio(total: Cents)
    requires total > 0
    ensures IncomeExpensesRatio(Some(total), Some(total)) == Success(100)
  {
    RoundExact(100, total);
  }

  // ---------------------------------------------------------------------
  // The page

  /** What the page shows. */
  datatype Stats = Stats(potentialClients: nat, activeClients: nat, ratio: int)

  /** The page's figures for a database state, or the error raised while
      computing them. */
  ghost function StatisticsOf(
    potentialClients: map<Id, PotentialClient>,
    activeClients: map<Id, ActiveClient>,
    contracts: map<Id, Contract>,
    campaigns: map<Id, Campaign>): (r: Result<Stats, StatsError>)
    ensures var income, expenses := Total(Amounts(contracts)), Total(Budgets(campaigns));
      && (r == Failure(TypeError) <==>
            (forall k :: k !in contracts) || (income > 0 && forall k :: k !in campaigns))
      && (r == Failure(DivisionByZero) <==>
            (exists k :: k in contracts) && income > 0 && (exists k :: k in campaigns) && expenses == 0)
      && (r.Success? ==>
            && r.value.potentialClients == |potentialClients|
            && r.value.activeClients == |activeClients|
            && (income <= 0 ==> r.value.ratio == 0)
            && (income > 0 ==> expenses != 0 && IsHalfEvenRounding(100 * income, expenses, r.value.ratio)))
  {
    match IncomeExpensesRatio(SumOf(Amounts(contracts)), SumOf(Budgets(campaigns)))
    case Failure(e) => Failure(e)
    case Success(q) => Success(Stats(|potentialClients|, |activeClients|, q))
  }

  /** With no contracts the page cannot be computed. */
  lemma NoContractsIsTypeError(
    potentialClients: map<Id, PotentialClient>,
    activeClients: map<Id, ActiveClient>,
    campaigns: map<Id, Campaign>)
    ensures StatisticsOf(potentialClients, activeClients, map[], campaigns) == Failure(TypeError)
  {
    assert forall k :: k !in Amounts(map[]);
  }
}
