/** The in-memory reading store and the validation of submitted batches. */
module ReadingService {
  import opened Wrappers
  import opened Domain
  import opened Constants

  /** A reading is well-typed when both fields are present: an `instanceof` test on a field
      declared as Instant or BigDecimal fails only for null. */
  predicate IsValidElectricityReading(r: ElectricityReading) {
    r.time.Some? && r.reading.Some?
  }

  predicate AllReadingsValid(rs: seq<ElectricityReading>) {
    forall i :: 0 <= i < |rs| ==> IsValidElectricityReading(rs[i])
  }

  /** The for loop over a batch: true when every reading has a time and a value; false as
      soon as it meets the first reading that lacks one, at position `stoppedAt`. */
  method IsValidElectricityReadings(rs: seq<ElectricityReading>) returns (ok: bool, ghost stoppedAt: nat)
    ensures ok <==> AllReadingsValid(rs)
    ensures !ok ==> stoppedAt < |rs| && !IsValidElectricityReading(rs[stoppedAt])
                    && forall i :: 0 <= i < stoppedAt ==> IsValidElectricityReading(rs[i])
  {
    stoppedAt := 0;
    var n := 0;
    while n < |rs|
      invariant 0 <= n <= |rs|
      invariant forall i :: 0 <= i < n ==> IsValidElectricityReading(rs[i])
    {
      if !IsValidElectricityReading(rs[n]) {
        stoppedAt := n;
        return false, stoppedAt;
      }
      n := n + 1;
    }
    return true, stoppedAt;
  }

  /** The meter-id check: the id matches the meter-id pattern, that is, it has exactly two hyphens. */
  function IsMeterReadingsValid(smartMeterId: string): (ok: bool)
    ensures ok <==> CountHyphens(smartMeterId) == 2
  {
    MatchesIffTwoHyphens(smartMeterId);
    MatchesSmartMeterIdPattern(smartMeterId)
  }

  /** Whole-batch validation: all-or-nothing over the batch, its id and every reading. */
  function ValidateMeterReadings(batch: Option<MeterReadings>): (valid: bool)
    ensures valid <==>
      && batch.Some?
      && batch.value.smartMeterId.Some? && batch.value.electricityReadings.Some?
      && CountHyphens(batch.value.smartMeterId.value) == 2
      && |batch.value.electricityReadings.value| > 0
      && forall i :: 0 <= i < |batch.value.electricityReadings.value| ==>
           batch.value.electricityReadings.value[i].time.Some?
           && batch.value.electricityReadings.value[i].reading.Some?
    ensures valid ==> |batch.value.smartMeterId.value| >= 2
  {
    match batch
    case None => false
    case Some(b) =>
      && b.smartMeterId.Some? && b.smartMeterId.value != []
      && b.electricityReadings.Some? && b.electricityReadings.value != []
      && IsMeterReadingsValid(b.smartMeterId.value)
      && AllReadingsValid(b.electricityReadings.value)
  }

  /** validateMeterReadings as the store runs it: the null and emptiness checks and the
      id pattern, then the loop over the readings. Its answer is ValidateMeterReadings. */
  method CheckMeterReadings(batch: Option<MeterReadings>) returns (valid: bool)
    ensures valid == ValidateMeterReadings(batch)
  {
    if batch.None? {
      return false;
    }
    var id, rs := batch.value.smartMeterId, batch.value.electricityReadings;
    if id.None? || id.value == [] || rs.None? || rs.value == [] || !IsMeterReadingsValid(id.value) {
      return false;
    }
    ghost var stoppedAt;
    valid, stoppedAt := IsValidElectricityReadings(rs.value);
  }

  /** The store after storeReadings as the code is written. A rejected batch leaves it as it
      was. An accepted one first extends an existing history, then overwrites the id's entry
      with a fresh empty list, so the id always ends up with no readings. */
  function StoredAsWritten(m: map<string, seq<ElectricityReading>>, batch: Option<MeterReadings>)
    : (r: map<string, seq<ElectricityReading>>)
    ensures !ValidateMeterReadings(batch) ==> r == m
    ensures ValidateMeterReadings(batch) ==>
      var id := batch.value.smartMeterId.value;
      && r.Keys == m.Keys + {id}
      && r[id] == []
      && forall k :: k in m && k != id ==> r[k] == m[k]
  {
    if !ValidateMeterReadings(batch) then m
    else
      var id, rs := batch.value.smartMeterId.value, batch.value.electricityReadings.value;
      var appended := if id in m then m[id := m[id] + rs] else m;
      appended[id := []]
  }

  /** The store after storeReadings as its comments describe it: an accepted batch is
      appended to the id's history, or becomes the history of a new id. */
  function StoredAsIntended(m: map<string, seq<ElectricityReading>>, batch: Option<MeterReadings>)
    : (r: map<string, seq<ElectricityReading>>)
    ensures !ValidateMeterReadings(batch) ==> r == m
    ensures ValidateMeterReadings(batch) ==>
      var id, rs := batch.value.smartMeterId.value, batch.value.electricityReadings.value;
      && r.Keys == m.Keys + {id}
      && |r[id]| == (if id in m then |m[id]| else 0) + |rs|
      && (id in m ==> r[id][..|m[id]|] == m[id])
      && r[id][|r[id]| - |rs|..] == rs
      && forall k :: k in m && k != id ==> r[k] == m[k]
  {
    if !ValidateMeterReadings(batch) then m
    else
      var id, rs := batch.value.smartMeterId.value, batch.value.electricityReadings.value;
      if id in m then m[id := m[id] + rs] else m[id := rs]
  }

  /** As written, an accepted batch keeps none of its readings: the id's history holds no
      copy of any submitted reading, although a valid batch has at least one. */
  lemma {:induction false} StoredAsWrittenDropsBatch(m: map<string, seq<ElectricityReading>>, batch: Option<MeterReadings>)
    requires ValidateMeterReadings(batch)
    ensures var id, rs := batch.value.smartMeterId.value, batch.value.electricityReadings.value;
      rs != [] && forall i :: 0 <= i < |rs| ==> rs[i] !in StoredAsWritten(m, batch)[id]
  {
    var rs := batch.value.electricityReadings.value;
    assert rs[0] in rs;
  }

  /** The first submission for a meter, with one well-typed reading (for instance the test
      id "smart-meter-0", which ValidTestIdMatches shows valid): as written the meter is left
      with no readings, where the intended behaviour keeps the one reading submitted. */
  lemma FirstSubmissionIsDropped(m: map<string, seq<ElectricityReading>>, id: string, r: ElectricityReading)
    requires id !in m && IsMeterReadingsValid(id) && IsValidElectricityReading(r)
    ensures ValidateMeterReadings(Some(MeterReadings(Some(id), Some([r]))))
    ensures StoredAsWritten(m, Some(MeterReadings(Some(id), Some([r])))) == m[id := []]
    ensures StoredAsIntended(m, Some(MeterReadings(Some(id), Some([r])))) == m[id := [r]]
  {
    var batch := Some(MeterReadings(Some(id), Some([r])));
    assert ValidateMeterReadings(batch);
    var v := StoredAsIntended(m, batch);
    assert v[id] == [r];
  }

  /** Intended behaviour: after an accepted batch the id's history still holds every reading
      it held before and every submitted reading. */
  lemma {:induction false} StoredAsIntendedKeepsBatch(m: map<string, seq<ElectricityReading>>, batch: Option<MeterReadings>)
    requires ValidateMeterReadings(batch)
    ensures var id, rs := batch.value.smartMeterId.value, batch.value.electricityReadings.value;
      && id in StoredAsIntended(m, batch)
      && multiset(StoredAsIntended(m, batch)[id])
         == (if id in m then multiset(m[id]) else multiset{}) + multiset(rs)
  {
    var id, rs := batch.value.smartMeterId.value, batch.value.electricityReadings.value;
    var h := StoredAsIntended(m, batch)[id];
    if id in m {
      assert h == m[id] + rs;
    } else {
      assert h == rs;
    }
  }

  /** Storing the same batch twice leaves the same store as storing it once. */
  lemma {:induction false} StoredAsWrittenIdempotent(m: map<string, seq<ElectricityReading>>, batch: Option<MeterReadings>)
    ensures StoredAsWritten(StoredAsWritten(m, batch), batch) == StoredAsWritten(m, batch)
  {
    if ValidateMeterReadings(batch) {
      var id := batch.value.smartMeterId.value;
      var once := StoredAsWritten(m, batch);
      var twice := StoredAsWritten(once, batch);
      assert twice.Keys == once.Keys;
      forall k | k in once ensures twice[k] == once[k] {
        if k != id { assert k in m; }
      }
    }
  }

  /** The reading store: meter id to the list of its readings. */
  class MeterReadingService {
    var meterAssociatedReadings: map<string, seq<ElectricityReading>>

    constructor (initial: map<string, seq<ElectricityReading>>)
      ensures meterAssociatedReadings == initial
    {
      meterAssociatedReadings := initial;
    }

    /** The stored list for the id, absent when the id was never stored. */
    function GetReadings(smartMeterId: string): (r: Option<seq<ElectricityReading>>)
      reads this
      ensures r.Some? <==> smartMeterId in meterAssociatedReadings
      ensures r.Some? ==> r.value == meterAssociatedReadings[smartMeterId]
    {
      if smartMeterId in meterAssociatedReadings then Some(meterAssociatedReadings[smartMeterId]) else None
    }

    /** storeReadings as written: validate, then append to an existing list, then replace
      the entry with a new empty list. */
    method StoreReadings(batch: Option<MeterReadings>) returns (response: string)
      modifies this
      ensures response == (if ValidateMeterReadings(batch) then Success else InputIsInvalid)
      ensures meterAssociatedReadings == StoredAsWritten(old(meterAssociatedReadings), batch)
    {
      var valid := CheckMeterReadings(batch);
      if !valid {
        return InputIsInvalid;
      }
      var id := batch.value.smartMeterId.value;
      if id in meterAssociatedReadings {
        meterAssociatedReadings := meterAssociatedReadings[id := meterAssociatedReadings[id] + batch.value.electricityReadings.value];
      }
      meterAssociatedReadings := meterAssociatedReadings[id := []];
      return Success;
    }

    /** storeReadings as its comments intend: append to an existing list, or insert the
      submitted list for a new id. */
    method StoreReadingsIntended(batch: Option<MeterReadings>) returns (response: string)
      modifies this
      ensures response == (if ValidateMeterReadings(batch) then Success else InputIsInvalid)
      ensures meterAssociatedReadings == StoredAsIntended(old(meterAssociatedReadings), batch)
    {
      var valid := CheckMeterReadings(batch);
      if !valid {
        return InputIsInvalid;
      }
      var id, rs := batch.value.smartMeterId.value, batch.value.electricityReadings.value;
      if id in meterAssociatedReadings {
        meterAssociatedReadings := meterAssociatedReadings[id := meterAssociatedReadings[id] + rs];
      } else {
        meterAssociatedReadings := meterAssociatedReadings[id := rs];
      }
      return Success;
    }
  }
}
