/** The records the services exchange: readings, submitted batches and price plans. */
module Domain {
  import opened Wrappers

  /** One sample of a meter. Instants are whole seconds since the epoch, values are exact
      decimals; either field may be null in a deserialised request. */
  datatype ElectricityReading = ElectricityReading(time: Option<int>, reading: Option<real>)

  /** A submitted batch: a meter id and its readings, each of which may be null. */
  datatype MeterReadings = MeterReadings(
    smartMeterId: Option<string>,
    electricityReadings: Option<seq<ElectricityReading>>)

  /** A named unit rate from the fixed catalog. */
  datatype PricePlan = PricePlan(planName: string, unitRate: real)
}
