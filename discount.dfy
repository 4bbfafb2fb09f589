/**
 * The discount rule engine: three strategies behind one {isApplicable, calculateDiscount}
 * capability, and the calculator that sums the applicable ones.
 */
module Discount {
  import opened Money
  import opened Roles

  /** One configured discount strategy. */
  datatype Rule =
    /** Regular users: applicable to USER, contributes nothing. */
    | NoDiscount
    /** Premium users: the configured percentage of every order. */
    | PremiumUserDiscount(percentage: Rate)
    /** High-value orders: the configured percentage once the total reaches the threshold. */
    | HighValueOrderDiscount(threshold: int, percentage: Rate)
  {
    /** DiscountStrategy.isApplicable(orderTotal, userRole). */
    predicate IsApplicable(orderTotal: int, role: UserRole) {
      match this
      case NoDiscount => role == User
      case PremiumUserDiscount(_) => role == PremiumUser
      case HighValueOrderDiscount(threshold, _) => orderTotal >= threshold
    }

    /** DiscountStrategy.calculateDiscount(orderTotal, userRole), in cents. */
    function CalculateDiscount(orderTotal: int, role: UserRole): int {
      match this
      case NoDiscount => 0
      case PremiumUserDiscount(percentage) => ApplyRate(orderTotal, percentage)
      case HighValueOrderDiscount(threshold, percentage) =>
        if orderTotal >= threshold then ApplyRate(orderTotal, percentage) else 0
    }

    /** Every rate the rule uses lies between 0 and 1. */
    predicate WellConfigured() {
      match this
      case NoDiscount => true
      case PremiumUserDiscount(p) => 0 <= p.num <= p.den
      case HighValueOrderDiscount(_, p) => 0 <= p.num <= p.den
    }
  }

  // ---------------------------------------------------------------------------------------
  // The calculator: filter by applicability, map to amounts, reduce with ZERO and add, setScale.

  /** The configured rules that apply to this subtotal and role, in their configured order. */
  function Applicable(rules: seq<Rule>, orderTotal: int, role: UserRole): (r: seq<Rule>)
    ensures forall x :: x in r <==> x in rules && x.IsApplicable(orderTotal, role)
    ensures forall x :: multiset(r)[x] == if x.IsApplicable(orderTotal, role) then multiset(rules)[x] else 0
  {
    if rules == [] then []
    else
      assert rules == [rules[0]] + rules[1..];
      var rest := Applicable(rules[1..], orderTotal, role);
      if rules[0].IsApplicable(orderTotal, role) then [rules[0]] + rest else rest
  }

  /** The amount each rule computes for this subtotal and role, one per rule and in the same order. */
  function Amounts(rules: seq<Rule>, orderTotal: int, role: UserRole): (r: seq<int>)
    ensures |r| == |rules|
  {
    if rules == [] then []
    else [rules[0].CalculateDiscount(orderTotal, role)] + Amounts(rules[1..], orderTotal, role)
  }

  /** The sum of a list of amounts, added from left to right starting at zero. */
  function Sum(xs: seq<int>): int {
    if xs == [] then 0 else Sum(xs[..|xs| - 1]) + xs[|xs| - 1]
  }

  /** DiscountCalculator.calculateTotalDiscount(orderTotal, userRole), in cents. */
  function TotalDiscount(rules: seq<Rule>, orderTotal: int, role: UserRole): int {
    var applicable := Applicable(rules, orderTotal, role);
    RoundHalfUp(Sum(Amounts(applicable, orderTotal, role)), 1)
  }

  /** Reference definition: each rule contributes its amount when it applies and nothing otherwise. */
  function Contribution(rule: Rule, orderTotal: int, role: UserRole): int {
    if rule.IsApplicable(orderTotal, role) then rule.CalculateDiscount(orderTotal, role) else 0
  }

  function SumOfContributions(rules: seq<Rule>, orderTotal: int, role: UserRole): int {
    if rules == [] then 0
    else Contribution(rules[0], orderTotal, role) + SumOfContributions(rules[1..], orderTotal, role)
  }

  // ---------------------------------------------------------------------------------------
  // Properties of the sum

  lemma {:induction false} SumAppend(xs: seq<int>, ys: seq<int>)
    ensures Sum(xs + ys) == Sum(xs) + Sum(ys)
  {
    if ys == [] {
      assert xs + ys == xs;
    } else {
      var zs := xs + ys;
      assert zs[..|zs| - 1] == xs + ys[..|ys| - 1];
      SumAppend(xs, ys[..|ys| - 1]);
    }
  }

  lemma {:induction false} SumCons(x: int, xs: seq<int>)
    ensures Sum([x] + xs) == x + Sum(xs)
  {
    SumAppend([x], xs);
    assert [x][..0] == [];
  }

  /** The sum that the calculator rounds equals the sum of the contributions of all rules. */
  lemma {:induction false} SumOfApplicableAmounts(rules: seq<Rule>, orderTotal: int, role: UserRole)
    ensures Sum(Amounts(Applicable(rules, orderTotal, role), orderTotal, role))
         == SumOfContributions(rules, orderTotal, role)
  {
    if rules != [] {
      SumOfApplicableAmounts(rules[1..], orderTotal, role);
      var rest := Applicable(rules[1..], orderTotal, role);
      if rules[0].IsApplicable(orderTotal, role) {
        var a := [rules[0]] + rest;
        assert a[1..] == rest;
        SumCons(rules[0].CalculateDiscount(orderTotal, role), Amounts(rest, orderTotal, role));
      }
    }
  }

  /**
   * The total discount is the sum of calculateDiscount over exactly the applicable strategies;
   * since every strategy returns whole cents, the final setScale leaves that sum unchanged.
   */
  lemma TotalIsSumOfApplicable(rules: seq<Rule>, orderTotal: int, role: UserRole)
    ensures TotalDiscount(rules, orderTotal, role) == SumOfContributions(rules, orderTotal, role)
  {
    SumOfApplicableAmounts(rules, orderTotal, role);
    RoundWholeCents(Sum(Amounts(Applicable(rules, orderTotal, role), orderTotal, role)));
  }

  lemma {:induction false} ContributionsAppend(a: seq<Rule>, b: seq<Rule>, orderTotal: int, role: UserRole)
    ensures SumOfContributions(a + b, orderTotal, role)
         == SumOfContributions(a, orderTotal, role) + SumOfContributions(b, orderTotal, role)
  {
    if a == [] {
      assert a + b == b;
    } else {
      assert (a + b)[1..] == a[1..] + b;
      ContributionsAppend(a[1..], b, orderTotal, role);
    }
  }

  /** Composition is additive: the rules of two lists contribute independently, never a maximum. */
  lemma TotalDiscountAdditive(a: seq<Rule>, b: seq<Rule>, orderTotal: int, role: UserRole)
    ensures TotalDiscount(a + b, orderTotal, role)
         == TotalDiscount(a, orderTotal, role) + TotalDiscount(b, orderTotal, role)
  {
    TotalIsSumOfApplicable(a + b, orderTotal, role);
    TotalIsSumOfApplicable(a, orderTotal, role);
    TotalIsSumOfApplicable(b, orderTotal, role);
    ContributionsAppend(a, b, orderTotal, role);
  }

  /** Reordering the rules, keeping each one as often as before, does not change the sum of contributions. */
  lemma {:induction false} ContributionsPermutation(a: seq<Rule>, b: seq<Rule>, orderTotal: int, role: UserRole)
    requires multiset(a) == multiset(b)
    ensures SumOfContributions(a, orderTotal, role) == SumOfContributions(b, orderTotal, role)
    decreases |a|
  {
    if a == [] {
      assert |b| == |multiset(b)| == 0;
    } else {
      var x := a[0];
      assert a == [x] + a[1..];
      assert x in multiset(b);
      var k :| 0 <= k < |b| && b[k] == x;
      var rest := b[..k] + b[k + 1..];
      MultisetRemoveAt(b, k);
      MultisetRemoveFirst(a);
      ContributionsPermutation(a[1..], rest, orderTotal, role);
      ContributionsRemoveAt(b, k, orderTotal, role);
      assert SumOfContributions(a, orderTotal, role)
          == Contribution(x, orderTotal, role) + SumOfContributions(a[1..], orderTotal, role);
    }
  }

  lemma MultisetRemoveFirst(a: seq<Rule>)
    requires a != []
    ensures multiset(a[1..]) == multiset(a) - multiset{a[0]}
  {
    assert a == [a[0]] + a[1..];
  }

  /** Removing the element at k from a list removes one occurrence of it from its multiset. */
  lemma MultisetRemoveAt(b: seq<Rule>, k: int)
    requires 0 <= k < |b|
    ensures multiset(b[..k] + b[k + 1..]) == multiset(b) - multiset{b[k]}
  {
    assert b == b[..k] + [b[k]] + b[k + 1..];
  }

  /** The contribution of the rule at k plus the contributions of the others is the whole sum. */
  lemma ContributionsRemoveAt(b: seq<Rule>, k: int, orderTotal: int, role: UserRole)
    requires 0 <= k < |b|
    ensures SumOfContributions(b, orderTotal, role)
         == Contribution(b[k], orderTotal, role) + SumOfContributions(b[..k] + b[k + 1..], orderTotal, role)
  {
    var tail := [b[k]] + b[k + 1..];
    assert b == b[..k] + tail;
    assert tail[1..] == b[k + 1..];
    ContributionsAppend(b[..k], tail, orderTotal, role);
    ContributionsAppend(b[..k], b[k + 1..], orderTotal, role);
  }

  /** The order in which the strategies are injected does not matter: any permutation gives the same total. */
  lemma TotalDiscountOrderIndependent(a: seq<Rule>, b: seq<Rule>, orderTotal: int, role: UserRole)
    requires multiset(a) == multiset(b)
    ensures TotalDiscount(a, orderTotal, role) == TotalDiscount(b, orderTotal, role)
  {
    TotalIsSumOfApplicable(a, orderTotal, role);
    TotalIsSumOfApplicable(b, orderTotal, role);
    ContributionsPermutation(a, b, orderTotal, role);
  }

  lemma {:induction false} NoneApplicableContributesNothing(rules: seq<Rule>, orderTotal: int, role: UserRole)
    requires forall i :: 0 <= i < |rules| ==> !rules[i].IsApplicable(orderTotal, role)
    ensures SumOfContributions(rules, orderTotal, role) == 0
  {
    if rules != [] {
      NoneApplicableContributesNothing(rules[1..], orderTotal, role);
    }
  }

  /** If no strategy applies, the result is the reduce identity ZERO. */
  lemma NoneApplicableIsZero(rules: seq<Rule>, orderTotal: int, role: UserRole)
    requires forall i :: 0 <= i < |rules| ==> !rules[i].IsApplicable(orderTotal, role)
    ensures TotalDiscount(rules, orderTotal, role) == 0
  {
    TotalIsSumOfApplicable(rules, orderTotal, role);
    NoneApplicableContributesNothing(rules, orderTotal, role);
  }

  /** Adding the no-discount strategy anywhere in the list never changes the total. */
  lemma NoDiscountIsNeutral(a: seq<Rule>, b: seq<Rule>, orderTotal: int, role: UserRole)
    ensures TotalDiscount(a + [NoDiscount] + b, orderTotal, role) == TotalDiscount(a + b, orderTotal, role)
  {
    TotalDiscountAdditive(a + [NoDiscount], b, orderTotal, role);
    TotalDiscountAdditive(a, [NoDiscount], orderTotal, role);
    TotalDiscountAdditive(a, b, orderTotal, role);
    TotalIsSumOfApplicable([NoDiscount], orderTotal, role);
  }

  lemma {:induction false} ContributionsNonNegative(rules: seq<Rule>, orderTotal: int, role: UserRole)
    requires forall i :: 0 <= i < |rules| ==> 0 <= Contribution(rules[i], orderTotal, role)
    ensures 0 <= SumOfContributions(rules, orderTotal, role)
  {
    if rules != [] {
      ContributionsNonNegative(rules[1..], orderTotal, role);
      assert 0 <= Contribution(rules[0], orderTotal, role);
    }
  }

  /** When every applicable strategy returns a non-negative amount, the total is non-negative. */
  lemma TotalDiscountNonNegative(rules: seq<Rule>, orderTotal: int, role: UserRole)
    requires forall i :: 0 <= i < |rules| && rules[i].IsApplicable(orderTotal, role) ==>
               0 <= rules[i].CalculateDiscount(orderTotal, role)
    ensures 0 <= TotalDiscount(rules, orderTotal, role)
  {
    TotalIsSumOfApplicable(rules, orderTotal, role);
    ContributionsNonNegative(rules, orderTotal, role);
  }

  // ---------------------------------------------------------------------------------------
  // Properties of the individual strategies

  /** NoDiscountStrategy: always zero, applicable exactly to USER. */
  lemma NoDiscountRule(orderTotal: int, role: UserRole)
    ensures NoDiscount.CalculateDiscount(orderTotal, role) == 0
    ensures NoDiscount.IsApplicable(orderTotal, role) <==> role == User
    ensures !NoDiscount.IsApplicable(orderTotal, PremiumUser) && !NoDiscount.IsApplicable(orderTotal, Admin)
  {
  }

  /** PremiumUserDiscountStrategy: applicable iff PREMIUM_USER, for every subtotal. */
  lemma PremiumApplicability(percentage: Rate, orderTotal: int, role: UserRole)
    ensures PremiumUserDiscount(percentage).IsApplicable(orderTotal, role) <==> role == PremiumUser
  {
  }

  /**
   * PremiumUserDiscountStrategy: the amount is the subtotal times the percentage, rounded half-up
   * to the cent, whatever the role (calculateDiscount does not re-check it).
   */
  lemma PremiumAmount(percentage: Rate, orderTotal: int, role: UserRole)
    ensures var r := PremiumUserDiscount(percentage).CalculateDiscount(orderTotal, role);
      && 2 * percentage.den * r - percentage.den <= 2 * orderTotal * percentage.num <= 2 * percentage.den * r + percentage.den
      && (2 * orderTotal * percentage.num == 2 * percentage.den * r + percentage.den ==> r < 0)
      && (2 * orderTotal * percentage.num == 2 * percentage.den * r - percentage.den ==> r > 0)
      && r == ApplyRate(orderTotal, percentage)
      && r == PremiumUserDiscount(percentage).CalculateDiscount(orderTotal, Admin)
    ensures orderTotal == 0 ==> PremiumUserDiscount(percentage).CalculateDiscount(orderTotal, role) == 0
  {
    var n := orderTotal * percentage.num;
    var r := RoundHalfUp(n, percentage.den);
    assert PremiumUserDiscount(percentage).CalculateDiscount(orderTotal, role) == r;
    assert 2 * orderTotal * percentage.num == 2 * n;
    ApplyRateToZero(percentage);
  }

  /** HighValueOrderDiscountStrategy: applies iff the subtotal reaches the threshold (inclusive). */
  lemma HighValueApplicability(threshold: int, percentage: Rate, orderTotal: int, role: UserRole)
    ensures HighValueOrderDiscount(threshold, percentage).IsApplicable(orderTotal, role) <==> orderTotal >= threshold
    ensures HighValueOrderDiscount(threshold, percentage).IsApplicable(threshold, role)
  {
  }

  /**
   * HighValueOrderDiscountStrategy: the rounded percentage at or above the threshold, zero below it
   * even when called directly; the role never matters.
   */
  lemma HighValueAmount(threshold: int, percentage: Rate, orderTotal: int, role: UserRole, other: UserRole)
    ensures var rule := HighValueOrderDiscount(threshold, percentage);
      && (orderTotal >= threshold ==> rule.CalculateDiscount(orderTotal, role) == ApplyRate(orderTotal, percentage))
      && (orderTotal < threshold ==> rule.CalculateDiscount(orderTotal, role) == 0)
      && rule.CalculateDiscount(orderTotal, role) == rule.CalculateDiscount(orderTotal, other)
      && (rule.IsApplicable(orderTotal, role) <==> rule.IsApplicable(orderTotal, other))
  {
  }

  /** A well-configured rule gives a discount between 0 and a non-negative subtotal. */
  lemma RuleAmountBounds(rule: Rule, orderTotal: int, role: UserRole)
    requires rule.WellConfigured() && 0 <= orderTotal
    ensures 0 <= rule.CalculateDiscount(orderTotal, role) <= orderTotal
  {
    match rule
    case NoDiscount =>
    case PremiumUserDiscount(p) => ApplyRateBounds(orderTotal, p);
    case HighValueOrderDiscount(t, p) => if orderTotal >= t { ApplyRateBounds(orderTotal, p); }
  }

  // ---------------------------------------------------------------------------------------
  // The configuration of the test suite: premium 10%, high-value threshold 500.00 at 5%.

  const PremiumRate: Rate := Ratio(10, 100)
  const HighValueRate: Rate := Ratio(5, 100)
  const HighValueThreshold: int := 50000

  const TestRules: seq<Rule> := [
    NoDiscount,
    PremiumUserDiscount(PremiumRate),
    HighValueOrderDiscount(HighValueThreshold, HighValueRate)
  ]

  /** The expected values of the calculator's test cases (amounts in cents). */
  lemma TestConfigurationExamples()
    ensures TotalDiscount(TestRules, 10000, User) == 0
    ensures TotalDiscount(TestRules, 10000, PremiumUser) == 1000
    ensures TotalDiscount(TestRules, 60000, User) == 3000
    ensures TotalDiscount(TestRules, 60000, PremiumUser) == 9000
    ensures TotalDiscount(TestRules, 10000, Admin) == 0
    ensures TotalDiscount(TestRules, 60000, Admin) == 3000
    ensures TotalDiscount(TestRules, 50000, User) == 2500
  {
    assert ApplyRate(10000, PremiumRate) == 1000 && ApplyRate(60000, PremiumRate) == 6000;
    assert ApplyRate(60000, HighValueRate) == 3000 && ApplyRate(50000, HighValueRate) == 2500;
    TestConfigurationComposition(10000, User);
    TestConfigurationComposition(10000, PremiumUser);
    TestConfigurationComposition(60000, User);
    TestConfigurationComposition(60000, PremiumUser);
    TestConfigurationComposition(10000, Admin);
    TestConfigurationComposition(60000, Admin);
    TestConfigurationComposition(50000, User);
  }

  lemma ThreeContributions(a: Rule, b: Rule, c: Rule, orderTotal: int, role: UserRole)
    ensures SumOfContributions([a, b, c], orderTotal, role)
         == Contribution(a, orderTotal, role) + Contribution(b, orderTotal, role) + Contribution(c, orderTotal, role)
  {
    assert [a, b, c][1..] == [b, c];
    assert [b, c][1..] == [c];
    assert [c][1..] == [];
    assert SumOfContributions([c], orderTotal, role) == Contribution(c, orderTotal, role);
    assert SumOfContributions([b, c], orderTotal, role)
        == Contribution(b, orderTotal, role) + Contribution(c, orderTotal, role);
  }

  /**
   * With the test configuration a premium user at or above the threshold receives both discounts
   * added together, and a user of any other role receives the high-value discount only.
   */
  lemma TestConfigurationComposition(orderTotal: int, role: UserRole)
    ensures orderTotal >= HighValueThreshold && role == PremiumUser ==>
      TotalDiscount(TestRules, orderTotal, role)
        == ApplyRate(orderTotal, PremiumRate) + ApplyRate(orderTotal, HighValueRate)
    ensures orderTotal >= HighValueThreshold && role != PremiumUser ==>
      TotalDiscount(TestRules, orderTotal, role) == ApplyRate(orderTotal, HighValueRate)
    ensures orderTotal < HighValueThreshold ==>
      TotalDiscount(TestRules, orderTotal, role)
        == if role == PremiumUser then ApplyRate(orderTotal, PremiumRate) else 0
  {
    TotalIsSumOfApplicable(TestRules, orderTotal, role);
    ThreeContributions(TestRules[0], TestRules[1], TestRules[2], orderTotal, role);
  }

  /** With the test configuration the discount of a non-negative subtotal lies between 0 and the subtotal. */
  lemma TestConfigurationWithinSubtotal(orderTotal: int, role: UserRole)
    requires 0 <= orderTotal
    ensures 0 <= TotalDiscount(TestRules, orderTotal, role) <= orderTotal
  {
    TestConfigurationComposition(orderTotal, role);
    ApplyRateBounds(orderTotal, PremiumRate);
    ApplyRateBounds(orderTotal, HighValueRate);
    if orderTotal >= HighValueThreshold && role == PremiumUser {
      // 10% and 5%, each rounded to the cent, stay below the subtotal
      var p := ApplyRate(orderTotal, PremiumRate);
      var h := ApplyRate(orderTotal, HighValueRate);
      assert 200 * p - 100 <= 20 * orderTotal;
      assert 200 * h - 100 <= 10 * orderTotal;
    }
  }
}
