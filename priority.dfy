/**
 * Final ticket priority (cross/utils.py).
 *
 * A client's spend is ranked as a percentile against every client's spend to get
 * an importance multiplier in [1.10, 1.20]. The final priority is then built in a
 * fixed order: importance multiplier, company multiplier, the product of the
 * per-service-type multipliers plus the sum of their points, a capped bonus per
 * subscription, a clamp to [0, 100] and Python's `round`.
 *
 * Money and priorities are reals: floating-point error is not modelled.
 */
module Priority {
  import opened Wrappers
  import opened Rounding
  import opened Sorting

  /** The service a subscription (ClientService row) points at. */
  datatype Service = Service(serviceType: string, price: real)

  /** A client with the services of its current subscriptions, in query order. */
  datatype Client = Client(isCompany: bool, subscriptions: seq<Service>)

  const MinCoef: real := 1.10
  const MaxCoef: real := 1.20
  const CompanyMultiplier: real := 1.15

  // ------------------------------------------------------------ client valuation

  /** `calculate_client_total_price`: the sum of the prices of the client's services. */
  function TotalPrice(subs: seq<Service>): (total: real)
    ensures subs == [] ==> total == 0.0
    ensures (forall k :: 0 <= k < |subs| ==> subs[k].price >= 0.0) ==> total >= 0.0
  {
    if subs == [] then 0.0 else TotalPrice(subs[..|subs| - 1]) + subs[|subs| - 1].price
  }

  /** Spend is additive over subscriptions: adding services adds their prices. */
  lemma {:induction false} TotalPriceAppend(a: seq<Service>, b: seq<Service>)
    ensures TotalPrice(a + b) == TotalPrice(a) + TotalPrice(b)
    decreases |b|
  {
    if b != [] {
      var b' := b[..|b| - 1];
      assert (a + b)[..|a + b| - 1] == a + b';
      TotalPriceAppend(a, b');
    } else {
      assert a + b == a;
    }
  }

  /** Every client's total, in population order (the `all_totals` list). */
  function Totals(population: seq<Client>): (totals: seq<real>)
    ensures |totals| == |population|
    ensures forall k :: 0 <= k < |population| ==> totals[k] == TotalPrice(population[k].subscriptions)
  {
    seq(|population|, k requires 0 <= k < |population| => TotalPrice(population[k].subscriptions))
  }

  predicate AllZero(totals: seq<real>) {
    forall k :: 0 <= k < |totals| ==> totals[k] == 0.0
  }

  function RealLe(a: real, b: real): bool { a <= b }

  /** `list.index(x)`: the first position of x, or |s| when x is absent (Python raises). */
  function FirstIndex(s: seq<real>, x: real): (i: nat)
    ensures i <= |s|
    ensures i < |s| <==> x in s
    ensures i < |s| ==> s[i] == x
    ensures forall k :: 0 <= k < i ==> s[k] != x
  {
    if s == [] then 0 else if s[0] == x then 0 else 1 + FirstIndex(s[1..], x)
  }

  /** How many totals are strictly below x: the percentile rank, counted directly. */
  function CountBelow(s: seq<real>, x: real): (n: nat)
    ensures n <= |s|
  {
    if s == [] then 0 else (if s[0] < x then 1 else 0) + CountBelow(s[1..], x)
  }

  /** The position of the client's total in the sorted list of all totals (`rank`). */
  function Rank(totals: seq<real>, clientTotal: real): nat {
    FirstIndex(Sort(totals, RealLe), clientTotal)
  }

  /** The unrounded coefficient for a rank among n clients. */
  function Coefficient(rank: nat, n: nat): real {
    var p := if n == 1 then 1.0 else rank as real / (n - 1) as real;
    MinCoef + p * (MaxCoef - MinCoef)
  }

  /**
   * `calculate_client_importance_multiplier` with the default coefficients.
   * None stands for the ValueError of `all_totals.index` when the client's total
   * does not occur among the population's totals.
   */
  function ImportanceMultiplier(client: Client, population: seq<Client>): (r: Option<real>)
    ensures (|population| == 0 || AllZero(Totals(population))) ==> r == Some(MinCoef)
    ensures r.None? <==>
      (|population| > 0 && !AllZero(Totals(population))
       && TotalPrice(client.subscriptions) !in Totals(population))
    ensures r.Some? ==> MinCoef <= r.value <= MaxCoef
  {
    var clientTotal := TotalPrice(client.subscriptions);
    var totals := Totals(population);
    if |totals| == 0 || AllZero(totals) then Some(MinCoef)
    else
      var sorted := Sort(totals, RealLe);
      var rank := FirstIndex(sorted, clientTotal);
      assert clientTotal in totals <==> clientTotal in multiset(sorted);
      if rank == |sorted| then None
      else
        CoefficientWithin(rank, |totals|);
        Round4Within(Coefficient(rank, |totals|), 11000, 12000);
        Some(Round4(Coefficient(rank, |totals|)))
  }

  lemma CoefficientWithin(rank: nat, n: nat)
    requires rank < n
    ensures MinCoef <= Coefficient(rank, n) <= MaxCoef
    ensures 11000 as real / 10000.0 <= Coefficient(rank, n) <= 12000 as real / 10000.0
  {
    if n > 1 {
      var p := rank as real / (n - 1) as real;
      assert rank as real <= (n - 1) as real;
      DivMonotone(rank as real, (n - 1) as real, (n - 1) as real);
      DivMonotone(0.0, rank as real, (n - 1) as real);
      assert 0.0 <= p <= 1.0;
    }
  }

  lemma CoefficientMonotone(r1: nat, r2: nat, n: nat)
    requires r1 <= r2 < n
    ensures Coefficient(r1, n) <= Coefficient(r2, n)
  {
    if n > 1 {
      DivMonotone(r1 as real, r2 as real, (n - 1) as real);
      var p1, p2 := r1 as real / (n - 1) as real, r2 as real / (n - 1) as real;
      ScaleMonotone(p1, p2, MaxCoef - MinCoef);
      assert Coefficient(r1, n) == MinCoef + p1 * (MaxCoef - MinCoef);
      assert Coefficient(r2, n) == MinCoef + p2 * (MaxCoef - MinCoef);
    }
  }

  // ------------------------------------------------------------ rank = count below

  lemma {:induction false} CountBelowInsert(y: real, s: seq<real>, x: real)
    ensures CountBelow(Insert(y, s, RealLe), x) == CountBelow(s, x) + (if y < x then 1 else 0)
    decreases |s|
  {
    if s != [] && !RealLe(y, s[0]) {
      CountBelowInsert(y, s[1..], x);
      assert Insert(y, s, RealLe)[1..] == Insert(y, s[1..], RealLe);
    } else if s != [] {
      assert Insert(y, s, RealLe)[1..] == s;
    }
  }

  lemma {:induction false} CountBelowSort(s: seq<real>, x: real)
    ensures CountBelow(Sort(s, RealLe), x) == CountBelow(s, x)
    decreases |s|
  {
    if s != [] {
      CountBelowSort(s[1..], x);
      CountBelowInsert(s[0], Sort(s[1..], RealLe), x);
    }
  }

  lemma {:induction false} FirstIndexInSorted(s: seq<real>, x: real)
    requires Sorted(s, RealLe)
    requires x in s
    ensures FirstIndex(s, x) == CountBelow(s, x)
    decreases |s|
  {
    if s[0] == x {
      CountBelowNoneBelow(s, x);
    } else {
      assert s[0] <= x by {
        var k :| 0 <= k < |s| && s[k] == x;
        assert RealLe(s[0], s[k]);
      }
      assert x in s[1..] by {
        var k :| 0 <= k < |s| && s[k] == x;
        assert s[1..][k - 1] == x;
      }
      FirstIndexInSorted(s[1..], x);
    }
  }

  lemma {:induction false} CountBelowNoneBelow(s: seq<real>, x: real)
    requires forall k :: 0 <= k < |s| ==> x <= s[k]
    ensures CountBelow(s, x) == 0
    decreases |s|
  {
    if s != [] {
      CountBelowNoneBelow(s[1..], x);
    }
  }

  lemma RealLeIsTotalPreorder()
    ensures TotalPreorder(RealLe)
  {
  }

  /**
   * The rank used by the multiplier is the number of clients whose total is strictly
   * smaller: the first index of a value in a sorted list does not depend on how the
   * sort arranged equal totals, so tied clients share a rank.
   */
  lemma RankIsCountBelow(totals: seq<real>, x: real)
    requires x in totals
    ensures Rank(totals, x) == CountBelow(totals, x) < |totals|
  {
    var sorted := Sort(totals, RealLe);
    RealLeIsTotalPreorder();
    SortSorted(totals, RealLe);
    assert x in multiset(sorted);
    FirstIndexInSorted(sorted, x);
    CountBelowSort(totals, x);
  }

  lemma {:induction false} CountBelowMonotone(s: seq<real>, x: real, y: real)
    requires x <= y
    ensures CountBelow(s, x) <= CountBelow(s, y)
    decreases |s|
  {
    if s != [] {
      CountBelowMonotone(s[1..], x, y);
    }
  }

  /**
   * A client who spends at least as much as another never gets a smaller multiplier;
   * in particular clients with equal spend get equal multipliers.
   */
  lemma MultiplierMonotone(c1: Client, c2: Client, population: seq<Client>)
    requires TotalPrice(c1.subscriptions) in Totals(population)
    requires TotalPrice(c2.subscriptions) in Totals(population)
    requires TotalPrice(c1.subscriptions) <= TotalPrice(c2.subscriptions)
    ensures ImportanceMultiplier(c1, population).Some?
    ensures ImportanceMultiplier(c2, population).Some?
    ensures ImportanceMultiplier(c1, population).value <= ImportanceMultiplier(c2, population).value
  {
    var totals := Totals(population);
    var t1, t2 := TotalPrice(c1.subscriptions), TotalPrice(c2.subscriptions);
    if !AllZero(totals) {
      RankIsCountBelow(totals, t1);
      RankIsCountBelow(totals, t2);
      CountBelowMonotone(totals, t1, t2);
      CoefficientMonotone(Rank(totals, t1), Rank(totals, t2), |totals|);
      Round4Monotone(Coefficient(Rank(totals, t1), |totals|), Coefficient(Rank(totals, t2), |totals|));
    }
  }

  /**
   * The all-zero test runs before the single-client branch: a lone client with no spend
   * gets the floor 1.10, a lone client with any spend gets the ceiling 1.20.
   */
  lemma LoneClientMultiplier(c: Client)
    ensures TotalPrice(c.subscriptions) == 0.0 ==> ImportanceMultiplier(c, [c]) == Some(1.10)
    ensures TotalPrice(c.subscriptions) != 0.0 ==> ImportanceMultiplier(c, [c]) == Some(1.20)
  {
    var totals := Totals([c]);
    assert totals == [TotalPrice(c.subscriptions)];
    if TotalPrice(c.subscriptions) != 0.0 {
      assert Sort(totals, RealLe) == totals;
      assert Round4(1.20) == 1.20 by {
        RoundOfInteger(12000);
      }
    }
  }

  // ------------------------------------------------------------ service-type weights

  datatype Weight = Weight(mult: real, points: int)

  /** `SERVICE_TYPE_WEIGHTS.get(service_type)`. */
  function ServiceTypeWeight(serviceType: string): (w: Option<Weight>)
    ensures w.Some? ==> 1.0 <= w.value.mult && 0 <= w.value.points
  {
    match serviceType
    case "networks" => Some(Weight(1.10, 5))
    case "it_services" => Some(Weight(1.08, 3))
    case "external_calls" => Some(Weight(1.04, 2))
    case "local_phone" => Some(Weight(1.00, 1))
    case "ip_tv" => Some(Weight(1.02, 1))
    case _ => None
  }

  /** The product of the multipliers of the known service types (`total_multiplier`). */
  function WeightProduct(subs: seq<Service>): (m: real)
    ensures m >= 1.0
  {
    if subs == [] then 1.0
    else
      var m := WeightProduct(subs[..|subs| - 1]);
      match ServiceTypeWeight(subs[|subs| - 1].serviceType)
      case None => m
      case Some(w) => MulAtLeast(m, w.mult); m * w.mult
  }

  /** The sum of the points of the known service types (`total_points`). */
  function WeightPoints(subs: seq<Service>): (p: int)
    ensures p >= 0
  {
    if subs == [] then 0
    else
      var p := WeightPoints(subs[..|subs| - 1]);
      match ServiceTypeWeight(subs[|subs| - 1].serviceType)
      case None => p
      case Some(w) => p + w.points
  }

  /** `min(2 * len(services), 10)`. */
  function SubscriptionBonus(n: nat): (b: int)
    ensures 0 <= b <= 10
  {
    if 2 * n < 10 then 2 * n else 10
  }

  /** `max(0, min(x, 100))`. */
  function Clamp(x: real): (c: real)
    ensures 0.0 <= c <= 100.0
  {
    if x > 100.0 then 100.0 else if x < 0.0 then 0.0 else x
  }

  /** The priority before clamping, for a given importance multiplier, in the source's order. */
  function Unclamped(initial: int, importance: real, client: Client): real {
    var subs := client.subscriptions;
    Combine(CompanyWeighted(initial as real, importance, client.isCompany), WeightProduct(subs),
            WeightPoints(subs) as real, SubscriptionBonus(|subs|) as real)
  }

  /** Service multipliers, then service points, then the subscription bonus. */
  function Combine(company: real, product: real, points: real, bonus: real): real {
    company * product + points + bonus
  }

  /** Multiplying, then adding the points, then adding the bonus, one assignment at a time. */
  lemma CombineSteps(company: real, product: real, points: real, bonus: real, scaled: real, pointed: real, total: real)
    requires scaled == company * product
    requires pointed == scaled + points
    requires total == pointed + bonus
    ensures total == Combine(company, product, points, bonus)
  {
  }

  /** The running total of `calculate_final_priority`, once every step is known, is the unclamped priority. */
  lemma StepsAreUnclamped(initial: int, importance: real, client: Client, company: real, product: real, points: int, bonus: int)
    requires company == CompanyWeighted(initial as real, importance, client.isCompany)
    requires product == WeightProduct(client.subscriptions)
    requires points == WeightPoints(client.subscriptions)
    requires bonus == SubscriptionBonus(|client.subscriptions|)
    ensures Combine(company, product, points as real, bonus as real) == Unclamped(initial, importance, client)
  {
  }

  /** The initial priority times the importance multiplier, and times 1.15 for a company. */
  function CompanyWeighted(x: real, importance: real, isCompany: bool): real {
    var weighted := x * importance;
    if isCompany then weighted * CompanyMultiplier else weighted
  }

  /** The final priority for a given importance multiplier: clamp and round. */
  function Score(initial: int, importance: real, client: Client): (r: int)
    ensures 0 <= r <= 100
  {
    var c := Clamp(Unclamped(initial, importance, client));
    RoundWithin(c, 0, 100);
    RoundHalfEven(c)
  }

  /** The loop over the client's subscriptions: product of multipliers and sum of points. */
  method ServiceWeights(services: seq<Service>) returns (totalMultiplier: real, totalPoints: int)
    ensures totalMultiplier == WeightProduct(services)
    ensures totalPoints == WeightPoints(services)
    ensures totalMultiplier >= 1.0 && totalPoints >= 0
  {
    totalMultiplier := 1.0;
    totalPoints := 0;
    for i := 0 to |services|
      invariant totalMultiplier == WeightProduct(services[..i])
      invariant totalPoints == WeightPoints(services[..i])
    {
      assert services[..i + 1][..i] == services[..i];
      var weights := ServiceTypeWeight(services[i].serviceType);
      if weights.Some? {
        totalMultiplier := totalMultiplier * weights.value.mult;
        totalPoints := totalPoints + weights.value.points;
      }
    }
    assert services[..|services|] == services;
  }

  /**
   * The body of `calculate_final_priority` once the importance multiplier is known:
   * company multiplier, service weights, subscription bonus, clamp and round.
   */
  method WeightedPriority(initial: int, client: Client, importance: real) returns (r: int)
    ensures r == Score(initial, importance, client)
    ensures 0 <= r <= 100
  {
    var priority := initial as real * importance;
    if client.isCompany {
      priority := priority * CompanyMultiplier;
    }
    var company := priority;
    assert company == CompanyWeighted(initial as real, importance, client.isCompany);
    var services := client.subscriptions;
    var totalMultiplier, totalPoints := ServiceWeights(services);
    var bonus := SubscriptionBonus(|services|);
    priority := priority * totalMultiplier;
    var scaled := priority;
    priority := priority + totalPoints as real;
    var pointed := priority;
    priority := priority + bonus as real;
    CombineSteps(company, totalMultiplier, totalPoints as real, bonus as real, scaled, pointed, priority);
    StepsAreUnclamped(initial, importance, client, company, totalMultiplier, totalPoints, bonus);
    priority := Clamp(priority);
    r := RoundHalfEven(priority);
  }

  /**
   * `calculate_final_priority`. None stands for the ValueError raised by the importance
   * multiplier when the client is not part of the population.
   */
  method CalculateFinalPriority(initial: int, client: Client, population: seq<Client>) returns (r: Option<int>)
    ensures r.None? <==> ImportanceMultiplier(client, population).None?
    ensures r.Some? ==> r.value == Score(initial, ImportanceMultiplier(client, population).value, client)
    ensures r.Some? ==> 0 <= r.value <= 100
  {
    var importance := ImportanceMultiplier(client, population);
    if importance.None? {
      return None;
    }
    var p := WeightedPriority(initial, client, importance.value);
    r := Some(p);
  }

  // ------------------------------------------------------------ properties of the score

  lemma ClampMonotone(x: real, y: real)
    requires x <= y
    ensures Clamp(x) <= Clamp(y)
  {
  }

  /** With the client fixed, a higher initial priority never yields a lower final one. */
  lemma ScoreMonotone(i1: int, i2: int, importance: real, client: Client)
    requires i1 <= i2
    requires importance > 0.0
    ensures Score(i1, importance, client) <= Score(i2, importance, client)
  {
    UnclampedMonotone(i1, i2, importance, client);
    var u1, u2 := Unclamped(i1, importance, client), Unclamped(i2, importance, client);
    ClampMonotone(u1, u2);
    RoundMonotone(Clamp(u1), Clamp(u2));
  }

  lemma UnclampedMonotone(i1: int, i2: int, importance: real, client: Client)
    requires i1 <= i2
    requires importance > 0.0
    ensures Unclamped(i1, importance, client) <= Unclamped(i2, importance, client)
  {
    var subs := client.subscriptions;
    CompanyWeightedMonotone(i1 as real, i2 as real, importance, client.isCompany);
    CombineMonotone(CompanyWeighted(i1 as real, importance, client.isCompany),
                    CompanyWeighted(i2 as real, importance, client.isCompany),
                    WeightProduct(subs), WeightPoints(subs) as real, SubscriptionBonus(|subs|) as real);
  }

  lemma CompanyWeightedMonotone(x1: real, x2: real, importance: real, isCompany: bool)
    requires x1 <= x2 && importance > 0.0
    ensures CompanyWeighted(x1, importance, isCompany) <= CompanyWeighted(x2, importance, isCompany)
  {
    ScaleMonotone(x1, x2, importance);
    if isCompany {
      ScaleMonotone(x1 * importance, x2 * importance, CompanyMultiplier);
    }
  }

  lemma CombineMonotone(c1: real, c2: real, product: real, points: real, bonus: real)
    requires c1 <= c2 && product >= 0.0
    ensures Combine(c1, product, points, bonus) <= Combine(c2, product, points, bonus)
  {
    ScaleMonotone(c1, c2, product);
  }

  lemma AtLeastChain(u: real, p: real, x: real)
    requires u >= p && p >= x
    ensures u >= x
  {
  }

  /** The arithmetic of the score with every factor at least 1 and every addend non-negative. */
  lemma GrowthAtLeast(x: real, importance: real, isCompany: bool, product: real, points: real, bonus: real)
    requires x >= 0.0 && importance >= 1.0 && product >= 1.0 && points >= 0.0 && bonus >= 0.0
    ensures Combine(CompanyWeighted(x, importance, isCompany), product, points, bonus) >= x
  {
    var w := x * importance;
    MulAtLeast(x, importance);
    var c := if isCompany then w * CompanyMultiplier else w;
    if isCompany {
      MulAtLeast(w, CompanyMultiplier);
    }
    AtLeastChain(c, w, x);
    MulAtLeast(c, product);
    AtLeastChain(c * product, c, x);
  }

  lemma UnclampedAtLeast(initial: int, importance: real, client: Client)
    requires initial >= 0 && importance >= 1.0
    ensures Unclamped(initial, importance, client) >= initial as real
  {
    var subs := client.subscriptions;
    GrowthAtLeast(initial as real, importance, client.isCompany, WeightProduct(subs),
                  WeightPoints(subs) as real, SubscriptionBonus(|subs|) as real);
  }

  /**
   * Every multiplier is at least 1 and every addend is non-negative, so a final priority
   * is never below an initial priority in [0, 100].
   */
  lemma ScoreAtLeastInitial(initial: int, importance: real, client: Client)
    requires 0 <= initial <= 100
    requires importance >= 1.0
    ensures Score(initial, importance, client) >= initial
  {
    var x := initial as real;
    UnclampedAtLeast(initial, importance, client);
    var u := Unclamped(initial, importance, client);
    ClampMonotone(x, u);
    assert Clamp(x) == x;
    RoundMonotone(x, Clamp(u));
    RoundOfInteger(initial);
    assert Score(initial, importance, client) == RoundHalfEven(Clamp(u));
  }

  /** The end-to-end promise: a ticket's final priority is monotone in its initial priority. */
  lemma FinalPriorityMonotone(i1: int, i2: int, client: Client, population: seq<Client>)
    requires i1 <= i2
    requires ImportanceMultiplier(client, population).Some?
    ensures Score(i1, ImportanceMultiplier(client, population).value, client)
         <= Score(i2, ImportanceMultiplier(client, population).value, client)
  {
    ScoreMonotone(i1, i2, ImportanceMultiplier(client, population).value, client);
  }

  /**
   * A subscription of an unknown service type changes neither the product of multipliers
   * nor the points, but it still counts towards the subscription bonus.
   */
  lemma UnknownTypeOnlyCountsForBonus(subs: seq<Service>, s: Service)
    requires ServiceTypeWeight(s.serviceType).None?
    ensures WeightProduct(subs + [s]) == WeightProduct(subs)
    ensures WeightPoints(subs + [s]) == WeightPoints(subs)
    ensures SubscriptionBonus(|subs + [s]|) == SubscriptionBonus(|subs|) + (if |subs| < 5 then 2 else 0)
  {
    assert (subs + [s])[..|subs|] == subs;
  }

  /** A lone private client with no subscriptions scores 1.10 times its initial priority. */
  lemma LoneZeroSpendClientScore()
    ensures ImportanceMultiplier(Client(false, []), [Client(false, [])]) == Some(1.10)
    ensures Score(50, 1.10, Client(false, [])) == 55
  {
    LoneClientMultiplier(Client(false, []));
    RoundOfInteger(55);
  }
}
