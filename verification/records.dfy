/**
  The daily observation both dashboard views work on. The date is a type
  parameter: the filtering view keys records by their ISO date string, the
  generating view by the UTC day number the string is formatted from.
 */
module Records {

  datatype DailyRecord<D> = DailyRecord(
    date: D,
    carbonEmissions: int,
    energySavings: int,
    airQualityIndex: int)

  /** The three numeric fields of a record. */
  datatype Field = Emissions | Savings | AirQuality

  function Value<D>(r: DailyRecord<D>, f: Field): int
  {
    match f
    case Emissions => r.carbonEmissions
    case Savings => r.energySavings
    case AirQuality => r.airQualityIndex
  }
}
