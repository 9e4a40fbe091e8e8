/**
  The certificate entity: the field map the report parser fills in, keyed by
  the property-name constants, and its two validity predicates `isExpired`
  and `isValid`, with instants abstracted to integers.
 */
module CertbotCertificate {
  import opened Wrappers
  import opened Php
  import opened Dates

  // ------ Property names (the record keys)

  const CERTIFICATE_KEY_PATH: string := "certificateKeyPath"
  const DOMAINS: string := "domains"
  const EXPIRES: string := "expires"
  const IDENTIFIER: string := "identifier"
  const KEY_TYPE: string := "keyType"
  const NAME: string := "name"
  const PRIVATE_KEY_PATH: string := "privateKeyPath"
  const VALID_DAYS: string := "validDays"

  /** A certificate record: the properties that were set, by name. */
  datatype Certificate = Certificate(fields: map<string, Value>)
  {
    /** The property `key`, which reads as null when it was never set. */
    function Get(key: string): Value {
      if key in fields then fields[key] else Null
    }
  }

  /** The reference date: none, a date text, or a `DateTimeInterface` instant. */
  datatype Reference = NoDate | DateText(text: string) | DateObject(instant: int)

  /** `expires` is a string that is not blank after `trim`. */
  predicate HasExpiry(c: Certificate) {
    c.Get(EXPIRES).Str? && Trim(c.Get(EXPIRES).s) != ""
  }

  /** PHP's truthiness of a string: "" and "0" are falsy. */
  predicate IsFalsyText(r: Reference) {
    r.DateText? && IsEmptyString(r.text)
  }

  /**
    The reference instant: an object is taken as it is; otherwise the text
    (or "now" in place of no text) is read in `zone`. With `elvis` set, a
    falsy text also becomes "now", as `$at ?: 'now'` does; without it only
    a missing reference does, as `$at ?? 'now'` does.
   */
  function ReferenceInstant(at: Reference, zone: string, cal: Calendar, elvis: bool): (r: Result<int, DateError>)
    ensures at.DateObject? ==> r == Success(at.instant)
    ensures r.Failure? ==> r.error.MalformedDate?
  {
    match at
    case DateObject(t) => Success(t)
    case NoDate => ParseInstant("now", zone, cal)
    case DateText(text) =>
      ParseInstant(if elvis && IsEmptyString(text) then "now" else text, zone, cal)
  }

  /** `new DateTimeImmutable($text, $tz)`. */
  function ParseInstant(text: string, zone: string, cal: Calendar): (r: Result<int, DateError>)
    ensures r.Failure? ==> r.error == MalformedDate(text)
    ensures r.Success? <==> cal.instant(text, zone).Some?
  {
    match cal.instant(text, zone)
    case Some(t) => Success(t)
    case None => Failure(MalformedDate(text))
  }

  /**
    `isExpired($at, $timezone)`: true for a blank expiry; otherwise the zone,
    then the reference, then the expiry are read, the first failure is
    raised, and the result is `expiry <= reference`.
   */
  function IsExpired(c: Certificate, at: Reference, timezone: Option<string>, cal: Calendar): (r: Result<bool, DateError>)
    ensures !HasExpiry(c) ==> r == Success(true)
    ensures r.Failure? && r.error.InvalidTimeZone? ==> !cal.knownZone(ZoneName(timezone))
    ensures r.Success? <==>
      !HasExpiry(c) ||
      (cal.knownZone(ZoneName(timezone)) &&
       ReferenceInstant(at, ZoneName(timezone), cal, true).Success? &&
       cal.instant(c.Get(EXPIRES).s, ZoneName(timezone)).Some?)
    ensures HasExpiry(c) && r.Success? ==>
      r.value == (cal.instant(c.Get(EXPIRES).s, ZoneName(timezone)).value
                  <= ReferenceInstant(at, ZoneName(timezone), cal, true).value)
  {
    if !HasExpiry(c) then Success(true)
    else
      var zone := ZoneName(timezone);
      if !cal.knownZone(zone) then Failure(InvalidTimeZone(zone))
      else
        match ReferenceInstant(at, zone, cal, true)
        case Failure(e) => Failure(e)
        case Success(ref) =>
          match ParseInstant(c.Get(EXPIRES).s, zone, cal)
          case Failure(e) => Failure(e)
          case Success(expiry) => Success(expiry <= ref)
  }

  /**
    `isValid($at, $timezone)`: false for a blank expiry; otherwise the same
    reads in the same order, and the result is `expiry > reference`.
   */
  function IsValid(c: Certificate, at: Reference, timezone: Option<string>, cal: Calendar): (r: Result<bool, DateError>)
    ensures !HasExpiry(c) ==> r == Success(false)
    ensures r.Failure? && r.error.InvalidTimeZone? ==> !cal.knownZone(ZoneName(timezone))
    ensures r.Success? <==>
      !HasExpiry(c) ||
      (cal.knownZone(ZoneName(timezone)) &&
       ReferenceInstant(at, ZoneName(timezone), cal, false).Success? &&
       cal.instant(c.Get(EXPIRES).s, ZoneName(timezone)).Some?)
    ensures HasExpiry(c) && r.Success? ==>
      r.value == (ReferenceInstant(at, ZoneName(timezone), cal, false).value
                  < cal.instant(c.Get(EXPIRES).s, ZoneName(timezone)).value)
  {
    if !HasExpiry(c) then Success(false)
    else
      var zone := ZoneName(timezone);
      if !cal.knownZone(zone) then Failure(InvalidTimeZone(zone))
      else
        match ReferenceInstant(at, zone, cal, false)
        case Failure(e) => Failure(e)
        case Success(ref) =>
          match ParseInstant(c.Get(EXPIRES).s, zone, cal)
          case Failure(e) => Failure(e)
          case Success(expiry) => Success(expiry > ref)
  }

  // ------ Properties

  /**
    Once all three reads succeed, `isExpired` is the non-strict comparison
    and `isValid` the strict one, whatever the reference: at the expiry
    instant itself the certificate is expired and no longer valid.
   */
  lemma ComparesInstants(c: Certificate, at: Reference, timezone: Option<string>, cal: Calendar, expiry: int, ref: int)
    requires HasExpiry(c) && cal.knownZone(ZoneName(timezone))
    requires cal.instant(c.Get(EXPIRES).s, ZoneName(timezone)) == Some(expiry)
    ensures ReferenceInstant(at, ZoneName(timezone), cal, true) == Success(ref) ==>
      IsExpired(c, at, timezone, cal) == Success(expiry <= ref)
    ensures ReferenceInstant(at, ZoneName(timezone), cal, false) == Success(ref) ==>
      IsValid(c, at, timezone, cal) == Success(ref < expiry)
    ensures ref == expiry && ReferenceInstant(at, ZoneName(timezone), cal, true) == Success(ref) ==>
      IsExpired(c, at, timezone, cal) == Success(true)
    ensures ref == expiry && ReferenceInstant(at, ZoneName(timezone), cal, false) == Success(ref) ==>
      IsValid(c, at, timezone, cal) == Success(false)
  {
  }

  /** The instant-reference and "now" corollaries of `ComparesInstants`. */
  lemma ComparesWithInstantAndNow(c: Certificate, t: int, now: int, timezone: Option<string>, cal: Calendar, expiry: int)
    requires HasExpiry(c) && cal.knownZone(ZoneName(timezone))
    requires cal.instant(c.Get(EXPIRES).s, ZoneName(timezone)) == Some(expiry)
    ensures IsExpired(c, DateObject(t), timezone, cal) == Success(expiry <= t)
    ensures IsValid(c, DateObject(t), timezone, cal) == Success(t < expiry)
    ensures cal.instant("now", ZoneName(timezone)) == Some(now) ==>
      IsExpired(c, NoDate, timezone, cal) == Success(expiry <= now) &&
      IsValid(c, NoDate, timezone, cal) == Success(now < expiry)
  {
    ComparesInstants(c, DateObject(t), timezone, cal, expiry, t);
    if cal.instant("now", ZoneName(timezone)) == Some(now) {
      ComparesInstants(c, NoDate, timezone, cal, expiry, now);
    }
  }

  /** Whatever the reference, a reachable outcome of one predicate is the negation of the other's. */
  lemma ValidIsNotExpired(c: Certificate, at: Reference, timezone: Option<string>, cal: Calendar)
    requires !IsFalsyText(at)
    ensures IsExpired(c, at, timezone, cal).Success? <==> IsValid(c, at, timezone, cal).Success?
    ensures IsExpired(c, at, timezone, cal).Success? ==>
      IsValid(c, at, timezone, cal).value == !IsExpired(c, at, timezone, cal).value
    ensures IsExpired(c, at, timezone, cal).Failure? ==>
      IsValid(c, at, timezone, cal).error == IsExpired(c, at, timezone, cal).error
  {
    var zone := ZoneName(timezone);
    if HasExpiry(c) && cal.knownZone(zone) {
      assert ReferenceInstant(at, zone, cal, true) == ReferenceInstant(at, zone, cal, false);
    }
  }

  /** Expiry is permanent: a certificate expired at `t` is expired at every later instant. */
  lemma ExpiredStaysExpired(c: Certificate, t: int, t': int, timezone: Option<string>, cal: Calendar)
    requires t <= t'
    requires IsExpired(c, DateObject(t), timezone, cal) == Success(true)
    ensures IsExpired(c, DateObject(t'), timezone, cal) == Success(true)
    ensures IsValid(c, DateObject(t'), timezone, cal) == Success(false)
  {
  }

  /** `isExpired` reads an empty or "0" reference text as "now", like no reference at all. */
  lemma FalsyReferenceMeansNow(c: Certificate, text: string, timezone: Option<string>, cal: Calendar)
    requires IsEmptyString(text)
    ensures IsExpired(c, DateText(text), timezone, cal) == IsExpired(c, NoDate, timezone, cal)
    ensures IsExpired(c, DateText(text), timezone, cal) == IsExpired(c, DateText("now"), timezone, cal)
  {
    var zone := ZoneName(timezone);
    var now := ParseInstant("now", zone, cal);
    assert ReferenceInstant(DateText(text), zone, cal, true) == now;
    assert ReferenceInstant(NoDate, zone, cal, true) == now;
    assert ReferenceInstant(DateText("now"), zone, cal, true) == now;
  }

  /** A missing time zone is Europe/Paris, for both predicates. */
  lemma DefaultZoneIsParis(c: Certificate, at: Reference, cal: Calendar)
    ensures IsExpired(c, at, None, cal) == IsExpired(c, at, Some(DEFAULT_TIMEZONE), cal)
    ensures IsValid(c, at, None, cal) == IsValid(c, at, Some(DEFAULT_TIMEZONE), cal)
  {
    assert ZoneName(None) == ZoneName(Some(DEFAULT_TIMEZONE));
  }

  /**
    The zone is read first: with an unknown zone both predicates fail with
    InvalidTimeZone even for an object reference, which needs no zone.
   */
  lemma UnknownZoneFailsFirst(c: Certificate, at: Reference, timezone: Option<string>, cal: Calendar)
    requires HasExpiry(c) && !cal.knownZone(ZoneName(timezone))
    ensures IsExpired(c, at, timezone, cal) == Failure(InvalidTimeZone(ZoneName(timezone)))
    ensures IsValid(c, at, timezone, cal) == Failure(InvalidTimeZone(ZoneName(timezone)))
  {
  }

  /**
    The reference is read before the expiry: a malformed reference text is
    reported even when the expiry text is malformed too; a malformed expiry
    is reported with the stored text.
   */
  lemma MalformedDatesReported(c: Certificate, text: string, timezone: Option<string>, cal: Calendar)
    requires HasExpiry(c) && cal.knownZone(ZoneName(timezone)) && !IsEmptyString(text)
    ensures cal.instant(text, ZoneName(timezone)).None? ==>
      IsValid(c, DateText(text), timezone, cal) == Failure(MalformedDate(text)) &&
      IsExpired(c, DateText(text), timezone, cal) == Failure(MalformedDate(text))
    ensures cal.instant(text, ZoneName(timezone)).Some? && cal.instant(c.Get(EXPIRES).s, ZoneName(timezone)).None? ==>
      IsValid(c, DateText(text), timezone, cal) == Failure(MalformedDate(c.Get(EXPIRES).s))
  {
  }
}
