/** The monitor's configuration and the defaults it falls back on when no
    configuration file is found. */
module Config {

  /** Alert thresholds; the temperature threshold is in tenths of a degree Celsius. */
  datatype Thresholds = Thresholds(
    spo2Low: int,
    heartRateHigh: int,
    respiratoryRateHigh: int,
    temperatureHighTenths: int)

  /** The part of the configuration the alerting engine reads. `forecastHours` is part of
      the configuration but the forecaster takes its horizon as a parameter instead. */
  datatype Settings = Settings(
    thresholds: Thresholds,
    emailEnabled: bool,
    windowSize: int,
    forecastHours: int)

  const DefaultSpo2Low := 92
  const DefaultHeartRateHigh := 110
  const DefaultRespiratoryRateHigh := 25
  const DefaultTemperatureHighTenths := 380
  const DefaultWindowSize := 10
  const DefaultForecastHours := 6

  /** The configuration used when the configuration file does not exist. */
  const DefaultSettings := Settings(
    Thresholds(DefaultSpo2Low, DefaultHeartRateHigh, DefaultRespiratoryRateHigh, DefaultTemperatureHighTenths),
    false, DefaultWindowSize, DefaultForecastHours)
}
