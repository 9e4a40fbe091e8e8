/**
  The date collaborators the certbot wrapper calls but does not define:
  time-zone lookup, reading a date text as an instant, the wall clock and
  `formatDateTime`. They are passed in as a `Calendar` value, so every
  statement about the wrapper holds for any time-zone database and any clock.
 */
module Dates {
  import opened Wrappers

  /** The exceptions the date collaborators raise, with the text they rejected. */
  datatype DateError =
    | InvalidTimeZone(zone: string)   // DateInvalidTimeZoneException
    | MalformedDate(text: string)     // DateMalformedStringException

  /** The zone used when a caller passes no time zone. */
  const DEFAULT_TIMEZONE: string := "Europe/Paris"

  /** The format used when a caller passes no date format. */
  const DEFAULT_DATE_FORMAT: string := "Y-m-d\\TH:i:s"

  /**
    - `knownZone(z)`: whether `new DateTimeZone(z)` succeeds;
    - `instant(text, z)`: the instant `new DateTimeImmutable(text, z)` denotes,
      in seconds, or None when it throws; relative texts such as "now" read
      the clock, which this function stands for;
    - `format(text, tz, fmt)`: what `formatDateTime(text, tz, fmt)` returns
      or throws.
   */
  datatype Calendar = Calendar(
    knownZone: string -> bool,
    instant: (string, string) -> Option<int>,
    format: (string, Option<string>, Option<string>) -> Result<string, DateError>)

  /** `$timezone ?? 'Europe/Paris'`. */
  function ZoneName(timezone: Option<string>): (z: string)
    ensures timezone.Some? ==> z == timezone.value
    ensures timezone.None? ==> z == DEFAULT_TIMEZONE
  {
    match timezone
    case Some(name) => name
    case None => DEFAULT_TIMEZONE
  }
}
