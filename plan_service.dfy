/** The plan cost calculator and recommender over a meter's stored readings and the
    fixed price-plan catalog. */
module PlanService {
  import opened Wrappers
  import opened Domain
  import opened Constants
  import opened ReadingService
  import opened Ranking

  /** A value of the comparison response map: the assigned plan id or the cost map. */
  datatype ResponseValue = PlanIdValue(id: string) | ComparisonsValue(costs: map<string, real>)

  /** HasValues and HasTimes are the two halves of AllReadingsValid. They are kept apart
      because a cost computation throws on a missing value at one point (the sum) and on a
      missing timestamp at another (the elapsed time). */
  predicate HasValues(rs: seq<ElectricityReading>) {
    forall i :: 0 <= i < |rs| ==> rs[i].reading.Some?
  }

  predicate HasTimes(rs: seq<ElectricityReading>) {
    forall i :: 0 <= i < |rs| ==> rs[i].time.Some?
  }

  // ---------------------------------------------------------------------------
  // Sum, extreme timestamps and the consumption rate
  // ---------------------------------------------------------------------------

  /** The reduction of the reading values with addition from zero, left to right. */
  function SumOfReadings(rs: seq<ElectricityReading>): real
    requires HasValues(rs)
  {
    if rs == [] then 0.0 else SumOfReadings(rs[..|rs| - 1]) + rs[|rs| - 1].reading.value
  }

  /** Earliest timestamp of a non-empty list whose timestamps are all present. */
  function MinTime(rs: seq<ElectricityReading>): (t: int)
    requires |rs| > 0 && HasTimes(rs)
    ensures exists i :: 0 <= i < |rs| && rs[i].time.value == t
    ensures forall i :: 0 <= i < |rs| ==> t <= rs[i].time.value
  {
    if |rs| == 1 then rs[0].time.value
    else
      var m := MinTime(rs[1..]);
      assert forall i :: 1 <= i < |rs| ==> rs[i] == rs[1..][i - 1];
      if rs[0].time.value <= m then rs[0].time.value else m
  }

  /** Latest timestamp of a non-empty list whose timestamps are all present. */
  function MaxTime(rs: seq<ElectricityReading>): (t: int)
    requires |rs| > 0 && HasTimes(rs)
    ensures exists i :: 0 <= i < |rs| && rs[i].time.value == t
    ensures forall i :: 0 <= i < |rs| ==> rs[i].time.value <= t
  {
    if |rs| == 1 then rs[0].time.value
    else
      var m := MaxTime(rs[1..]);
      assert forall i :: 1 <= i < |rs| ==> rs[i] == rs[1..][i - 1];
      if rs[0].time.value >= m then rs[0].time.value else m
  }

  /** The readings admit a cost: at least one, all well-typed, and not all at one instant. */
  predicate CostDefined(rs: seq<ElectricityReading>) {
    |rs| > 0 && AllReadingsValid(rs) && MinTime(rs) < MaxTime(rs)
  }

  /** Hours between the earliest and the latest reading. */
  function ElapsedHours(rs: seq<ElectricityReading>): real
    requires |rs| > 0 && HasTimes(rs)
  {
    (MaxTime(rs) - MinTime(rs)) as real / 3600.0
  }

  /** The average reading per elapsed hour: the factor every plan's unit rate is multiplied by. */
  function ConsumptionRate(rs: seq<ElectricityReading>): real
    requires CostDefined(rs)
  {
    SumOfReadings(rs) / (|rs| as real) / ElapsedHours(rs)
  }

  /** The exception a cost computation over `rs` throws when it fails: a null field reaches
      the arithmetic first, otherwise a division by zero (an empty list or zero elapsed time). */
  function CostFault(rs: seq<ElectricityReading>): Fault {
    if AllReadingsValid(rs) then ArithmeticDivideByZero else NullPointer
  }

  // ---------------------------------------------------------------------------
  // The three calculations of a plan's cost
  // ---------------------------------------------------------------------------

  /** calculateAverageReading: the sum of the values divided by their count. A null value
      fails the reduction; an empty list fails the division. */
  function CalculateAverageReading(rs: seq<ElectricityReading>): (r: Result<real>)
    ensures !HasValues(rs) ==> r == Throws(NullPointer)
    ensures HasValues(rs) && rs == [] ==> r == Throws(ArithmeticDivideByZero)
    ensures r.Ok? <==> HasValues(rs) && |rs| > 0
    ensures r.Ok? ==> r.value * (|rs| as real) == SumOfReadings(rs)
  {
    if !HasValues(rs) then Throws(NullPointer)
    else if |rs| == 0 then Throws(ArithmeticDivideByZero)
    else Ok(SumOfReadings(rs) / (|rs| as real))
  }

  /** calculateTimeElapsed: hours from the earliest to the latest timestamp, never negative.
      A null timestamp fails the comparison or Duration.between. Its only caller reaches it
      with a non-empty list; on an empty one the source's Optional.get would throw. */
  function CalculateTimeElapsed(rs: seq<ElectricityReading>): (r: Result<real>)
    requires |rs| > 0
    ensures r.Throws? <==> !HasTimes(rs)
    ensures r.Throws? ==> r.fault == NullPointer
    ensures r.Ok? ==> r.value >= 0.0
    ensures r.Ok? ==> exists i, j :: (
      && 0 <= i < |rs| && 0 <= j < |rs|
      && r.value * 3600.0 == (rs[j].time.value - rs[i].time.value) as real
      && forall k :: 0 <= k < |rs| ==> rs[i].time.value <= rs[k].time.value <= rs[j].time.value)
  {
    if !HasTimes(rs) then Throws(NullPointer)
    else Ok((MaxTime(rs) - MinTime(rs)) as real / 3600.0)
  }

  /** calculateCost: the average reading divided by the elapsed hours, times the plan's
      unit rate. */
  function CalculateCost(rs: seq<ElectricityReading>, plan: PricePlan): (r: Result<real>)
    ensures r.Ok? <==> CostDefined(rs)
    ensures r.Throws? ==> r.fault == CostFault(rs)
    ensures r.Ok? ==> r.value == ConsumptionRate(rs) * plan.unitRate
  {
    match CalculateAverageReading(rs)
    case Throws(f) => Throws(f)
    case Ok(average) =>
      match CalculateTimeElapsed(rs)
      case Throws(f) => Throws(f)
      case Ok(timeElapsed) =>
        if timeElapsed == 0.0 then Throws(ArithmeticDivideByZero)
        else Ok(average / timeElapsed * plan.unitRate)
  }

  // ---------------------------------------------------------------------------
  // Collecting the catalog into a cost map
  // ---------------------------------------------------------------------------

  function PlanNames(plans: seq<PricePlan>): set<string> {
    set i | 0 <= i < |plans| :: plans[i].planName
  }

  predicate DistinctPlanNames(plans: seq<PricePlan>) {
    forall i, j :: 0 <= i < j < |plans| ==> plans[i].planName != plans[j].planName
  }

  /** Collectors.toMap over the catalog, in catalog order: each plan's cost is computed,
      then its name is inserted, and a name already present throws. */
  function Accumulate(plans: seq<PricePlan>, rs: seq<ElectricityReading>, acc: map<string, real>)
    : Result<map<string, real>>
    decreases |plans|
  {
    if plans == [] then Ok(acc)
    else
      match CalculateCost(rs, plans[0])
      case Throws(f) => Throws(f)
      case Ok(cost) =>
        if plans[0].planName in acc then Throws(IllegalStateDuplicateKey)
        else Accumulate(plans[1..], rs, acc[plans[0].planName := cost])
  }

  /** The cost map of a catalog: one entry per plan, keyed by plan name. */
  predicate IsCostMap(m: map<string, real>, plans: seq<PricePlan>, rs: seq<ElectricityReading>)
    requires |plans| > 0 ==> CostDefined(rs)
  {
    && m.Keys == PlanNames(plans)
    && forall i :: 0 <= i < |plans| ==> m[plans[i].planName] == ConsumptionRate(rs) * plans[i].unitRate
  }

  lemma PlanNamesCons(plans: seq<PricePlan>)
    requires plans != []
    ensures PlanNames(plans) == {plans[0].planName} + PlanNames(plans[1..])
  {
    var p, rest := plans[0], plans[1..];
    forall n | n in PlanNames(plans) ensures n in {p.planName} + PlanNames(rest) {
      var i :| 0 <= i < |plans| && plans[i].planName == n;
      if i > 0 { assert rest[i - 1] == plans[i]; }
    }
    forall n | n in PlanNames(rest) ensures n in PlanNames(plans) {
      var i :| 0 <= i < |rest| && rest[i].planName == n;
      assert plans[i + 1] == rest[i];
    }
  }

  lemma DistinctPlanNamesCons(plans: seq<PricePlan>)
    requires plans != []
    ensures DistinctPlanNames(plans) <==>
      plans[0].planName !in PlanNames(plans[1..]) && DistinctPlanNames(plans[1..])
  {
    var p, rest := plans[0], plans[1..];
    if p.planName !in PlanNames(rest) && DistinctPlanNames(rest) {
      forall i, j | 0 <= i < j < |plans| ensures plans[i].planName != plans[j].planName {
        assert plans[j] == rest[j - 1];
        if i > 0 { assert plans[i] == rest[i - 1]; }
      }
    }
    if DistinctPlanNames(plans) {
      forall i, j | 0 <= i < j < |rest| ensures rest[i].planName != rest[j].planName {
        assert rest[i] == plans[i + 1] && rest[j] == plans[j + 1];
      }
    }
  }

  lemma {:induction false} AccumulateSpec(plans: seq<PricePlan>, rs: seq<ElectricityReading>, acc: map<string, real>)
    requires |plans| > 0 ==> CostDefined(rs)
    ensures Accumulate(plans, rs, acc).Ok? <==>
      DistinctPlanNames(plans) && PlanNames(plans) !! acc.Keys
    ensures Accumulate(plans, rs, acc).Throws? ==>
      Accumulate(plans, rs, acc).fault == IllegalStateDuplicateKey
    ensures Accumulate(plans, rs, acc).Ok? ==>
      var m := Accumulate(plans, rs, acc).value;
      && m.Keys == acc.Keys + PlanNames(plans)
      && (forall k :: k in acc ==> m[k] == acc[k])
      && forall i :: 0 <= i < |plans| ==> m[plans[i].planName] == CalculateCost(rs, plans[i]).value
    decreases |plans|
  {
    if plans != [] {
      var p, rest := plans[0], plans[1..];
      PlanNamesCons(plans);
      DistinctPlanNamesCons(plans);
      if p.planName !in acc {
        var acc' := acc[p.planName := CalculateCost(rs, p).value];
        assert Accumulate(plans, rs, acc) == Accumulate(rest, rs, acc');
        AccumulateSpec(rest, rs, acc');
        if Accumulate(plans, rs, acc).Ok? {
          var m := Accumulate(plans, rs, acc).value;
          forall i | 0 <= i < |plans| ensures m[plans[i].planName] == CalculateCost(rs, plans[i]).value {
            if i > 0 { assert plans[i] == rest[i - 1]; }
          }
        }
      }
    }
  }

  /** The per-plan cost map of a meter's readings. */
  function CollectCosts(plans: seq<PricePlan>, rs: seq<ElectricityReading>): Result<map<string, real>> {
    Accumulate(plans, rs, map[])
  }

  /** Collecting succeeds exactly when the costs are defined (or the catalog is empty) and no
      plan name repeats; it then maps each plan name to its cost and nothing else. Otherwise
      it throws the cost computation's exception, or the duplicate-key exception. */
  lemma {:induction false} CollectCostsSpec(plans: seq<PricePlan>, rs: seq<ElectricityReading>)
    ensures CollectCosts(plans, rs).Ok? <==>
      (|plans| == 0 || CostDefined(rs)) && DistinctPlanNames(plans)
    ensures |plans| > 0 && !CostDefined(rs) ==> CollectCosts(plans, rs) == Throws(CostFault(rs))
    ensures (|plans| == 0 || CostDefined(rs)) && !DistinctPlanNames(plans) ==>
      CollectCosts(plans, rs) == Throws(IllegalStateDuplicateKey)
    ensures CollectCosts(plans, rs).Ok? ==> IsCostMap(CollectCosts(plans, rs).value, plans, rs)
  {
    if |plans| > 0 && !CostDefined(rs) {
      assert CalculateCost(rs, plans[0]).Throws?;
    } else {
      AccumulateSpec(plans, rs, map[]);
    }
  }

  /** In a cost map of non-negative readings, a plan with a lower unit rate never costs more. */
  lemma CheaperRateCostsNoMore(m: map<string, real>, plans: seq<PricePlan>, rs: seq<ElectricityReading>, i: int, j: int)
    requires CostDefined(rs) && IsCostMap(m, plans, rs)
    requires 0 <= i < |plans| && 0 <= j < |plans| && plans[i].unitRate <= plans[j].unitRate
    requires forall k :: 0 <= k < |rs| ==> rs[k].reading.value >= 0.0
    ensures m[plans[i].planName] <= m[plans[j].planName]
  {
    RateNonNegative(rs);
    ScaleMonotone(ConsumptionRate(rs), plans[i].unitRate, plans[j].unitRate);
  }

  lemma RateNonNegative(rs: seq<ElectricityReading>)
    requires CostDefined(rs)
    requires forall k :: 0 <= k < |rs| ==> rs[k].reading.value >= 0.0
    ensures ConsumptionRate(rs) >= 0.0
  {
    SumOfNonNegative(rs);
    QuotientNonNegative(SumOfReadings(rs), |rs| as real);
    QuotientNonNegative(SumOfReadings(rs) / (|rs| as real), ElapsedHours(rs));
  }

  lemma QuotientNonNegative(a: real, b: real)
    requires a >= 0.0 && b > 0.0
    ensures a / b >= 0.0
  {
  }

  lemma ScaleMonotone(k: real, x: real, y: real)
    requires k >= 0.0 && x <= y
    ensures k * x <= k * y
  {
    assert k * y - k * x == k * (y - x);
  }

  lemma {:induction false} SumOfNonNegative(rs: seq<ElectricityReading>)
    requires HasValues(rs)
    requires forall k :: 0 <= k < |rs| ==> rs[k].reading.value >= 0.0
    ensures SumOfReadings(rs) >= 0.0
  {
    if rs != [] {
      SumOfNonNegative(rs[..|rs| - 1]);
    }
  }

  /** Every reading above `a` makes the sum exceed count times `a`. */
  lemma {:induction false} SumAbove(rs: seq<ElectricityReading>, a: real)
    requires HasValues(rs) && |rs| > 0
    requires forall k :: 0 <= k < |rs| ==> rs[k].reading.value > a
    ensures SumOfReadings(rs) > (|rs| as real) * a
  {
    var init := rs[..|rs| - 1];
    if init != [] {
      SumAbove(init, a);
      assert (|init| as real) * a + a == (|rs| as real) * a;
    }
  }

  /** Every reading below `a` keeps the sum under count times `a`. */
  lemma {:induction false} SumBelow(rs: seq<ElectricityReading>, a: real)
    requires HasValues(rs) && |rs| > 0
    requires forall k :: 0 <= k < |rs| ==> rs[k].reading.value < a
    ensures SumOfReadings(rs) < (|rs| as real) * a
  {
    var init := rs[..|rs| - 1];
    if init != [] {
      SumBelow(init, a);
      assert (|init| as real) * a + a == (|rs| as real) * a;
    }
  }

  /** The average lies between the readings: some reading is at most the average and some
      reading is at least the average. */
  lemma AverageBetweenReadings(rs: seq<ElectricityReading>)
    requires HasValues(rs) && |rs| > 0
    ensures var average := CalculateAverageReading(rs).value;
      && (exists i :: 0 <= i < |rs| && rs[i].reading.value <= average)
      && (exists j :: 0 <= j < |rs| && rs[j].reading.value >= average)
  {
    var average := CalculateAverageReading(rs).value;
    if forall k :: 0 <= k < |rs| ==> rs[k].reading.value > average {
      SumAbove(rs, average);
    }
    if forall k :: 0 <= k < |rs| ==> rs[k].reading.value < average {
      SumBelow(rs, average);
    }
  }

  /** Example: readings 10 at 0 s and 20 at 3600 s average 15 over one hour, so
      plans at rates 2 and 3 cost 30 and 45. */
  lemma OneHourExample(rs: seq<ElectricityReading>, plans: seq<PricePlan>)
    requires rs == [ElectricityReading(Some(0), Some(10.0)), ElectricityReading(Some(3600), Some(20.0))]
    requires plans == [PricePlan("planX", 2.0), PricePlan("planY", 3.0)]
    ensures CollectCosts(plans, rs) == Ok(map["planX" := 30.0, "planY" := 45.0])
  {
    assert rs[..1] == [rs[0]];
    assert rs[..1][..0] == [];
    assert SumOfReadings(rs[..1][..0]) == 0.0;
    assert SumOfReadings(rs[..1]) == 10.0;
    assert SumOfReadings(rs) == 30.0;
    assert MinTime(rs) == 0 && MaxTime(rs) == 3600;
    assert ConsumptionRate(rs) == 15.0;
    assert DistinctPlanNames(plans) by {
      assert plans[0].planName[4] != plans[1].planName[4];
    }
    CollectCostsSpec(plans, rs);
    var m := CollectCosts(plans, rs).value;
    assert PlanNames(plans) == {"planX", "planY"} by {
      assert plans[0].planName == "planX" && plans[1].planName == "planY";
    }
    var expected := map["planX" := 30.0, "planY" := 45.0];
    assert m["planX"] == 30.0 && m["planY"] == 45.0;
    assert expected.Keys == m.Keys;
    assert forall k :: k in m ==> m[k] == expected[k];
    assert m == expected;
  }

  /** A meter stored with an empty history, the state every accepted store leaves as
      written, has no cost: with any plan in the catalog the average divides by zero. */
  lemma EmptyHistoryThrows(plans: seq<PricePlan>)
    requires |plans| > 0
    ensures CollectCosts(plans, []) == Throws(ArithmeticDivideByZero)
  {
    CollectCostsSpec(plans, []);
  }

  /** Readings that all share one instant give no elapsed time: the cost division throws. */
  lemma SameInstantThrows(rs: seq<ElectricityReading>, plans: seq<PricePlan>)
    requires rs == [ElectricityReading(Some(0), Some(10.0)), ElectricityReading(Some(0), Some(20.0))]
    requires plans == [PricePlan("planX", 2.0)]
    ensures CollectCosts(plans, rs) == Throws(ArithmeticDivideByZero)
  {
    assert MinTime(rs) == 0 && MaxTime(rs) == 0;
    assert AllReadingsValid(rs);
    CollectCostsSpec(plans, rs);
  }

  // ---------------------------------------------------------------------------
  // The comparison response and the service object
  // ---------------------------------------------------------------------------

  /** createResponseMapForComparisons: the assigned plan id and the cost map under two
      distinct keys, so the response always has exactly two entries. */
  function CreateResponseMapForComparisons(pricePlanId: string, consumptions: map<string, real>)
    : (r: map<string, ResponseValue>)
    ensures r.Keys == {PricePlanIdKey, PricePlanComparisonsKey} && |r| == 2
    ensures r[PricePlanIdKey] == PlanIdValue(pricePlanId)
    ensures r[PricePlanComparisonsKey] == ComparisonsValue(consumptions)
  {
    KeysAndAnswersDistinct();
    map[PricePlanIdKey := PlanIdValue(pricePlanId), PricePlanComparisonsKey := ComparisonsValue(consumptions)]
  }

  /** The calculator over the shared reading store and the fixed catalog. */
  class PricePlanService {
    const pricePlans: seq<PricePlan>
    const meterReadingService: MeterReadingService

    constructor (pricePlans: seq<PricePlan>, meterReadingService: MeterReadingService)
      ensures this.pricePlans == pricePlans && this.meterReadingService == meterReadingService
    {
      this.pricePlans := pricePlans;
      this.meterReadingService := meterReadingService;
    }

    /** The per-plan costs of the meter's stored readings: absent for an unknown meter;
        otherwise one cost per plan name, or the exception the collection throws. */
    function GetConsumptionCostOfElectricityReadingsForEachPricePlan(smartMeterId: string)
      : (r: Result<Option<map<string, real>>>)
      reads meterReadingService
      ensures smartMeterId !in meterReadingService.meterAssociatedReadings ==> r == Ok(None)
      ensures smartMeterId in meterReadingService.meterAssociatedReadings ==>
        var rs := meterReadingService.meterAssociatedReadings[smartMeterId];
        && (r.Ok? <==> (|pricePlans| == 0 || CostDefined(rs)) && DistinctPlanNames(pricePlans))
        && (r.Throws? ==>
              r.fault == (if |pricePlans| > 0 && !CostDefined(rs) then CostFault(rs) else IllegalStateDuplicateKey))
        && (r.Ok? ==> r.value.Some? && IsCostMap(r.value.value, pricePlans, rs))
    {
      match meterReadingService.GetReadings(smartMeterId)
      case None => Ok(None)
      case Some(rs) =>
        CollectCostsSpec(pricePlans, rs);
        match CollectCosts(pricePlans, rs)
        case Throws(f) => Throws(f)
        case Ok(m) => Ok(Some(m))
    }

    /** getCostForEachPricePlan, with the plan id the account service assigns to the meter
        passed in: the two-entry response when costs exist, null (None) when the meter id
        has no entry in the store, or the exception of the cost computation. */
    function GetCostForEachPricePlan(smartMeterId: string, pricePlanId: string)
      : (r: Result<Option<map<string, ResponseValue>>>)
      reads meterReadingService
      ensures smartMeterId !in meterReadingService.meterAssociatedReadings ==> r == Ok(None)
      ensures var costs := GetConsumptionCostOfElectricityReadingsForEachPricePlan(smartMeterId);
        && (costs.Throws? ==> r == Throws(costs.fault))
        && (costs.Ok? && costs.value.Some? ==>
              && r.Ok? && r.value.Some?
              && r.value.value.Keys == {PricePlanIdKey, PricePlanComparisonsKey}
              && r.value.value[PricePlanIdKey] == PlanIdValue(pricePlanId)
              && r.value.value[PricePlanComparisonsKey] == ComparisonsValue(costs.value.value))
    {
      match GetConsumptionCostOfElectricityReadingsForEachPricePlan(smartMeterId)
      case Throws(f) => Throws(f)
      case Ok(None) => Ok(None)
      case Ok(Some(consumptions)) => Ok(Some(CreateResponseMapForComparisons(pricePlanId, consumptions)))
    }

    /** getRecommendations: the plans ranked by ascending cost and cut to `limit`; the
        single entry ("error", 0) for a meter id with no entry in the store; a negative limit makes
        subList throw. */
    method GetRecommendations(smartMeterId: string, limit: Option<int>) returns (r: Result<seq<Entry>>)
      ensures var costs := GetConsumptionCostOfElectricityReadingsForEachPricePlan(smartMeterId);
        && (costs.Throws? ==> r == Throws(costs.fault))
        && (costs == Ok(None) ==> r == Ok([(ErrorName, 0.0)]))
        && (costs.Ok? && costs.value.Some? ==>
              && (r.Throws? <==> limit.Some? && limit.value < 0)
              && (r.Throws? ==> r.fault == IllegalArgumentSubList)
              && (r.Ok? ==> IsRecommendation(r.value, costs.value.value, limit)))
    {
      var consumptions := GetConsumptionCostOfElectricityReadingsForEachPricePlan(smartMeterId);
      if consumptions.Throws? {
        return Throws(consumptions.fault);
      }
      if consumptions.value.None? {
        return Ok([(ErrorName, 0.0)]);
      }
      var costs := consumptions.value.value;
      var entries := EntryList(costs);
      var a := new Entry[|entries|](i requires 0 <= i < |entries| => entries[i]);
      assert a[..] == entries;
      SortByCost(a);
      var recommendations := a[..];
      var n := |recommendations|;
      if limit.Some? && limit.value < |recommendations| {
        if limit.value < 0 {
          return Throws(IllegalArgumentSubList);
        }
        n := limit.value;
        recommendations := recommendations[..n];
      }
      SortedPrefixRecommends(entries, a[..], costs, n);
      assert recommendations == a[..][..n];
      return Ok(recommendations);
    }
  }
}
