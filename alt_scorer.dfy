/**
 * The alternative ticket scorer (cross/te.py): a base score looked up by the
 * service type of the ticket, multiplied by a client-type multiplier, a
 * logarithmic service-count factor and a linear price factor, rounded to two
 * decimals. Unlike the main scorer the result is not clamped.
 *
 * `math.log(x, 10)` is a parameter of the model: any function obeying the laws
 * of the decimal logarithm that the proofs rely on.
 */
module AltScorer {
  import opened Wrappers
  import opened Rounding

  /** The laws of log10 used here: log10(1) = 0, log10(10) = 1, strictly increasing. */
  ghost predicate Log10Laws(log10: real -> real) {
    && log10(1.0) == 0.0
    && log10(10.0) == 1.0
    && (forall x, y :: 0.0 < x < y ==> log10(x) < log10(y))
  }

  /** The keys of `SERVICE_BASE_SCORES`. */
  const KnownTypes: set<string> := {"networks", "it_services", "local_phone", "external_calls", "ip_tv"}

  /** `get_base_score`: the table value, 50 for any other service type. */
  function BaseScore(serviceType: string): (s: int)
    ensures serviceType !in KnownTypes ==> s == 50
    ensures 40 <= s <= 70
  {
    match serviceType
    case "networks" => 70
    case "it_services" => 65
    case "local_phone" => 55
    case "external_calls" => 50
    case "ip_tv" => 40
    case _ => 50
  }

  /** `get_client_type_multiplier`: a company weighs 1.20, a private person 1.00. */
  function ClientTypeMultiplier(isCompany: bool): (m: real)
    ensures m >= 1.0
    ensures isCompany <==> m > 1.0
  {
    if isCompany then 1.20 else 1.00
  }

  /**
   * `get_service_count_factor`: 1 + log10(count + 1). None stands for the ValueError
   * `math.log` raises when count + 1 is not positive.
   */
  function CountFactor(count: int, log10: real -> real): (f: Option<real>)
    requires Log10Laws(log10)
    ensures f.Some? <==> count >= 0
    ensures count == 0 ==> f == Some(1.0)
    ensures f.Some? ==> f.value >= 1.0
  {
    if count + 1 <= 0 then None
    else
      assert 1.0 <= (count + 1) as real;
      assert (count + 1) as real == 1.0 || log10(1.0) < log10((count + 1) as real);
      Some(1.0 + log10((count + 1) as real))
  }

  /** `get_total_price_factor`: 1 + total / 50000. */
  function PriceFactor(total: real): (f: real)
    ensures total >= 0.0 ==> f >= 1.0
    ensures total == 0.0 <==> f == 1.0
  {
    1.0 + total / 50000.0
  }

  /** The unrounded score: `base * type_coef * count_factor * price_factor`, left to right. */
  function RawPriority(serviceType: string, countFactor: real, total: real, isCompany: bool): real {
    BaseScore(serviceType) as real * ClientTypeMultiplier(isCompany) * countFactor * PriceFactor(total)
  }

  /** `calculate_priority`: the product rounded to two decimals; None when `math.log` raises. */
  function CalculatePriority(serviceType: string, count: int, total: real, isCompany: bool,
                             log10: real -> real): (r: Option<real>)
    requires Log10Laws(log10)
    ensures r.None? <==> count < 0
    ensures r.Some? ==>
      -0.005 <= r.value - RawPriority(serviceType, CountFactor(count, log10).value, total, isCompany) <= 0.005
  {
    match CountFactor(count, log10)
    case None => None
    case Some(cf) => Some(Round2(RawPriority(serviceType, cf, total, isCompany)))
  }

  // ------------------------------------------------------------ properties

  /** The table: the five known types and the default. */
  lemma BaseScoreTable(serviceType: string)
    ensures BaseScore("networks") == 70 && BaseScore("it_services") == 65
    ensures BaseScore("local_phone") == 55 && BaseScore("external_calls") == 50
    ensures BaseScore("ip_tv") == 40
    ensures serviceType !in KnownTypes ==> BaseScore(serviceType) == 50
  {
  }

  /** The examples of the doc-comment: 50 000 doubles the score, 10 000 adds a fifth. */
  lemma PriceFactorExamples()
    ensures PriceFactor(50000.0) == 2.0
    ensures PriceFactor(10000.0) == 1.2
  {
  }

  lemma PriceFactorMonotone(t1: real, t2: real)
    requires t1 <= t2
    ensures PriceFactor(t1) <= PriceFactor(t2)
  {
    DivMonotone(t1, t2, 50000.0);
  }

  /** More services never lower the count factor; strictly more services raise it. */
  lemma CountFactorIncreasing(c1: int, c2: int, log10: real -> real)
    requires Log10Laws(log10)
    requires 0 <= c1 < c2
    ensures CountFactor(c1, log10).value < CountFactor(c2, log10).value
  {
    assert 0.0 < (c1 + 1) as real < (c2 + 1) as real;
  }

  /** Nine services give a count factor of exactly 2. */
  lemma CountFactorNine(log10: real -> real)
    requires Log10Laws(log10)
    ensures CountFactor(9, log10) == Some(2.0)
  {
  }

  /** With every other argument fixed, the company score before rounding is 1.2 times the private one. */
  lemma CompanyScoresOnePointTwoTimes(serviceType: string, countFactor: real, total: real)
    ensures RawPriority(serviceType, countFactor, total, true)
         == 1.2 * RawPriority(serviceType, countFactor, total, false)
  {
    var b := BaseScore(serviceType) as real;
    var p := PriceFactor(total);
    assert b * 1.20 * countFactor == 1.2 * (b * 1.00 * countFactor);
    assert b * 1.20 * countFactor * p == 1.2 * (b * 1.00 * countFactor) * p;
  }

  /** With a non-negative count and total every factor is at least 1, so the score is at least 40. */
  lemma PriorityAtLeastBase(serviceType: string, count: int, total: real, isCompany: bool,
                            log10: real -> real)
    requires Log10Laws(log10)
    requires count >= 0 && total >= 0.0
    ensures CalculatePriority(serviceType, count, total, isCompany, log10).value >= BaseScore(serviceType) as real
  {
    var b := BaseScore(serviceType) as real;
    var cf := CountFactor(count, log10).value;
    var t := b * ClientTypeMultiplier(isCompany);
    MulAtLeast(b, ClientTypeMultiplier(isCompany));
    MulAtLeast(t, cf);
    MulAtLeast(t * cf, PriceFactor(total));
    var raw := RawPriority(serviceType, cf, total, isCompany);
    assert raw >= b;
    Round2Monotone(b, raw);
    assert Round2(b) == b by {
      RoundOfInteger(BaseScore(serviceType) * 100);
    }
  }

  /** The score is not clamped: a company with nine services and 50 000 spent scores 336 on networks. */
  lemma ScoreIsNotClamped(log10: real -> real)
    requires Log10Laws(log10)
    ensures CalculatePriority("networks", 9, 50000.0, true, log10) == Some(336.0)
  {
    CountFactorNine(log10);
    PriceFactorExamples();
    assert RawPriority("networks", 2.0, 50000.0, true) == 336.0;
    RoundOfInteger(33600);
  }
}
