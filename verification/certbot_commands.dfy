/**
  The subcommand façade: the stored default options of each subcommand, the
  nested-or-flat initializer lookup, the certificate lookup over the
  `certbot certificates` listing, and the ordered list of option layers each
  subcommand hands to `resolve`.

  Running a process is not modelled: a call is returned as an `Invocation`
  that describes it, and what the process gives back (exit status, output)
  is an input.
 */
module CertbotCommands {
  import opened Wrappers
  import opened Php
  import opened Dates
  import opened CertbotCertificate
  import Parse = ParseCertificates
  import Opt = CertbotOption

  // ------ Parameter keys of the initializer array

  const CERTBOT_PARAM: string := "certbot"
  const CERTIFICATES_PARAM: string := "certificates"
  const CERT_ONLY_PARAM: string := "certOnly"
  const DELETE_PARAM: string := "delete"
  const RENEW_PARAM: string := "renew"
  const REVOKE_PARAM: string := "revoke"

  // ------ Subcommands

  const CERT_ONLY_COMMAND: string := "certbot certonly"
  const CERTIFICATES_COMMAND: string := "certbot certificates"
  const DELETE_COMMAND: string := "certbot delete"
  const RENEW_COMMAND: string := "certbot renew"
  const REVOKE_COMMAND: string := "certbot revoke"

  /** The exit status of a command that succeeded. */
  const SUCCESS: int := 0

  /**
    A process call: `proc` captures the output, `system` does not and takes
    `silent`. `layers` are the arguments given to `resolve`, in order, a
    null standing for a layer that is left out.
   */
  datatype Invocation =
    | Proc(command: string, layers: seq<Value>, verbose: bool, sudo: bool, dryRun: bool)
    | System(command: string, layers: seq<Value>, silent: bool, verbose: bool, sudo: bool, dryRun: bool)

  /** What a `proc` call gave back. */
  datatype Outcome = Outcome(status: int, output: Option<string>)

  /** The `$domains` argument of renew, revoke and delete: null, a string or a list. */
  datatype DomainArg = NoDomain | OneDomain(name: string) | DomainList(items: seq<Option<string>>)

  /** The `$needs` argument of the lookup: null, a string or a list. */
  datatype Needs = NoNeeds | OneNeed(need: string) | ManyNeeds(needs: seq<string>)

  /** The `$needs` argument of the validity check may also be a certificate. */
  datatype Subject = Lookup(needs: Needs) | Given(certificate: Certificate)

  /** Why renew stops before running: an unknown domain, or a date the listing could not read. */
  datatype CommandError = Validation(message: string) | DateFailure(error: DateError)

  // ------ Initializer lookup

  /**
    `$init[certbot][sub] ?? $init[certbot] ?? $init`: the subcommand's own
    entry under `certbot`, else the whole `certbot` entry, else the whole
    array. Each step is taken only when the previous one is missing or null,
    so a `certbot` entry without the subcommand wins as a whole.
   */
  function InitLookup(init: map<string, Value>, sub: string): (v: Value)
    ensures v != Null
    ensures CERTBOT_PARAM !in init || init[CERTBOT_PARAM] == Null ==> v == Dict(init)
    ensures (CERTBOT_PARAM in init && init[CERTBOT_PARAM].Dict? && sub in init[CERTBOT_PARAM].entries
             && init[CERTBOT_PARAM].entries[sub] != Null) ==> v == init[CERTBOT_PARAM].entries[sub]
    ensures (CERTBOT_PARAM in init && init[CERTBOT_PARAM] != Null
             && !(init[CERTBOT_PARAM].Dict? && sub in init[CERTBOT_PARAM].entries && init[CERTBOT_PARAM].entries[sub] != Null))
            ==> v == init[CERTBOT_PARAM]
  {
    if CERTBOT_PARAM in init && init[CERTBOT_PARAM].Dict? && sub in init[CERTBOT_PARAM].entries
       && init[CERTBOT_PARAM].entries[sub] != Null then
      init[CERTBOT_PARAM].entries[sub]
    else if CERTBOT_PARAM in init && init[CERTBOT_PARAM] != Null then
      init[CERTBOT_PARAM]
    else
      Dict(init)
  }

  /** A flat initializer array is shared whole by every subcommand. */
  lemma FlatInitShared(init: map<string, Value>)
    requires CERTBOT_PARAM !in init
    ensures InitLookup(init, CERT_ONLY_PARAM) == InitLookup(init, CERTIFICATES_PARAM) == InitLookup(init, DELETE_PARAM)
         == InitLookup(init, RENEW_PARAM) == InitLookup(init, REVOKE_PARAM) == Dict(init)
  {
  }

  /** A nested array gives each subcommand its own entry. */
  lemma NestedInitSplit(certOnly: Value, renew: Value)
    requires certOnly != Null && renew != Null
    ensures var init := map[CERTBOT_PARAM := Dict(map[CERT_ONLY_PARAM := certOnly, RENEW_PARAM := renew])];
      InitLookup(init, CERT_ONLY_PARAM) == certOnly && InitLookup(init, RENEW_PARAM) == renew
      && InitLookup(init, REVOKE_PARAM) == init[CERTBOT_PARAM]
  {
    var entries := map[CERT_ONLY_PARAM := certOnly, RENEW_PARAM := renew];
    assert REVOKE_PARAM !in entries;
  }

  // ------ Domain argument and layers

  /**
    `$domains` after renew, revoke and delete normalise it: a list becomes its
    first element, or null when it is empty; the empty string becomes null.
    An empty string taken out of a list stays as it is.
   */
  function NormalizeDomains(d: DomainArg): (r: Option<string>)
    ensures d.NoDomain? ==> r.None?
    ensures d.OneDomain? ==> (r.None? <==> d.name == "") && (r.Some? ==> r.value == d.name)
    ensures d.DomainList? ==> r == (if |d.items| == 0 then None else d.items[0])
  {
    match d
    case NoDomain => None
    case OneDomain(name) => if name == "" then None else Some(name)
    case DomainList(items) => if |items| > 0 then items[0] else None
  }

  /** PHP `empty()` of the normalised domain: null, "" and "0". */
  predicate EmptyDomain(d: Option<string>) {
    d.None? || IsEmptyString(d.value)
  }

  /** `!empty($domains) ? [certName => $domains] : null`. */
  function CertNameLayer(d: Option<string>): Value {
    if !EmptyDomain(d) then Dict(map[Opt.CERT_NAME := Str(d.value)]) else Null
  }

  /** `$silent ? [quiet => true] : null`. */
  function QuietLayer(silent: bool): Value {
    if silent then Dict(map[Opt.QUIET := Bool(true)]) else Null
  }

  /** The layer that sets one flag to true. */
  function FlagLayer(key: string): Value {
    Dict(map[key := Bool(true)])
  }

  /** A layer is left out exactly when it is null, and a present layer holds one key. */
  lemma LayersHoldOneKey(d: Option<string>, silent: bool)
    ensures CertNameLayer(d) != Null <==> !EmptyDomain(d)
    ensures CertNameLayer(d) != Null ==>
      CertNameLayer(d).entries.Keys == {Opt.CERT_NAME} && CertNameLayer(d).entries[Opt.CERT_NAME] == Str(d.value)
    ensures QuietLayer(silent) != Null <==> silent
    ensures silent ==> QuietLayer(silent).entries == map[Opt.QUIET := Bool(true)]
  {
  }

  /** The layers of `certbot certificates`: stored, given, quiet iff silent. */
  function CertificatesLayers(stored: Value, options: Value, silent: bool): seq<Value> {
    [stored, options, QuietLayer(silent)]
  }

  /** The name the renew guard tests: the variable is never assigned, so it reads as null. */
  const RENEW_GUARD_NAME: Option<string> := None

  /** The layers of `certbot renew` as written: the cert-name layer tests `$name`, not `$domains`. */
  function RenewLayers(stored: Value, options: Value, d: Option<string>, silent: bool): seq<Value> {
    [stored, options, if !EmptyDomain(RENEW_GUARD_NAME) then Dict(map[Opt.CERT_NAME := Str(d.value)]) else Null,
     QuietLayer(silent)]
  }

  /** The layers of `certbot renew` with the guard on `$domains`, as the revoke and delete layers have it. */
  function RenewLayersIntended(stored: Value, options: Value, d: Option<string>, silent: bool): seq<Value> {
    [stored, options, CertNameLayer(d), QuietLayer(silent)]
  }

  /** The layers of `certbot revoke`. */
  function RevokeLayers(stored: Value, options: Value, d: Option<string>, silent: bool, deleteAfter: Option<bool>)
    : seq<Value>
  {
    [stored, options, CertNameLayer(d), QuietLayer(silent),
     if deleteAfter == Some(true) then FlagLayer(Opt.DELETE_AFTER_REVOKE) else Null,
     if deleteAfter == Some(false) then FlagLayer(Opt.NO_DELETE_AFTER_REVOKE) else Null]
  }

  /** The layers of `certbot delete`. */
  function DeleteLayers(stored: Value, options: Value, d: Option<string>, silent: bool): seq<Value> {
    [stored, options, CertNameLayer(d), QuietLayer(silent)]
  }

  /** The layers of `certbot certonly`: stored and given options only. */
  function CertOnlyLayers(stored: Value, options: Value): seq<Value> {
    [stored, options]
  }

  // ------ Calls

  function CertificatesCall(stored: Value, options: Value, verbose: bool, silent: bool, dryRun: bool): Invocation {
    Proc(CERTIFICATES_COMMAND, CertificatesLayers(stored, options, silent), verbose, true, dryRun)
  }

  function RenewCall(stored: Value, options: Value, d: Option<string>, verbose: bool, silent: bool, dryRun: bool)
    : Invocation
  {
    System(RENEW_COMMAND, RenewLayers(stored, options, d, silent), silent, verbose, true, dryRun)
  }

  function RevokeCall(stored: Value, options: Value, d: Option<string>, deleteAfter: Option<bool>,
                      verbose: bool, silent: bool, dryRun: bool): Invocation
  {
    System(REVOKE_COMMAND, RevokeLayers(stored, options, d, silent, deleteAfter), silent, verbose, true, dryRun)
  }

  /** `certbotDelete` as written: it runs the revoke subcommand. */
  function DeleteCall(stored: Value, options: Value, d: Option<string>, verbose: bool, silent: bool, dryRun: bool)
    : Invocation
  {
    System(REVOKE_COMMAND, DeleteLayers(stored, options, d, silent), silent, verbose, true, dryRun)
  }

  /** `certbotDelete` running the delete subcommand its name and documentation announce. */
  function DeleteCallIntended(stored: Value, options: Value, d: Option<string>, verbose: bool, silent: bool, dryRun: bool)
    : Invocation
  {
    System(DELETE_COMMAND, DeleteLayers(stored, options, d, silent), silent, verbose, true, dryRun)
  }

  function CertOnlyCall(stored: Value, options: Value, verbose: bool, silent: bool, dryRun: bool): Invocation {
    System(CERT_ONLY_COMMAND, CertOnlyLayers(stored, options), silent, verbose, true, dryRun)
  }

  // ------ Properties of the layer lists

  /**
    Revoke: the cert-name layer is there iff the domain is non-empty, the
    quiet layer iff silent, the delete flag iff `deleteAfter` is true and
    the no-delete flag iff it is false, so never both.
   */
  lemma RevokeLayersShape(stored: Value, options: Value, d: Option<string>, silent: bool, deleteAfter: Option<bool>)
    ensures var layers := RevokeLayers(stored, options, d, silent, deleteAfter);
      && |layers| == 6 && layers[0] == stored && layers[1] == options
      && (layers[2] != Null <==> !EmptyDomain(d))
      && (layers[3] != Null <==> silent)
      && (layers[4] != Null <==> deleteAfter == Some(true))
      && (layers[5] != Null <==> deleteAfter == Some(false))
      && !(layers[4] != Null && layers[5] != Null)
      && (layers[4] != Null ==> layers[4].entries == map[Opt.DELETE_AFTER_REVOKE := Bool(true)])
      && (layers[5] != Null ==> layers[5].entries == map[Opt.NO_DELETE_AFTER_REVOKE := Bool(true)])
  {
  }

  /** Delete resolves the first four revoke layers; with no `deleteAfter` the other two are left out. */
  lemma DeleteLayersArePrefix(stored: Value, options: Value, d: Option<string>, silent: bool)
    ensures DeleteLayers(stored, options, d, silent) == RevokeLayers(stored, options, d, silent, None)[..4]
    ensures RevokeLayers(stored, options, d, silent, None)[4..] == [Null, Null]
  {
  }

  /** Certonly resolves the stored and given options only: `silent` reaches `system` and no layer. */
  lemma CertOnlyIgnoresSilentLayer(stored: Value, options: Value, verbose: bool, dryRun: bool)
    ensures CertOnlyCall(stored, options, verbose, true, dryRun).layers == CertOnlyCall(stored, options, verbose, false, dryRun).layers
    ensures CertOnlyCall(stored, options, verbose, true, dryRun).silent
    ensures |CertOnlyCall(stored, options, verbose, true, dryRun).layers| == 2
  {
  }

  /** Renew as written: the domain never reaches the layers. */
  lemma RenewIgnoresDomain(stored: Value, options: Value, d: Option<string>, d': Option<string>, silent: bool)
    ensures RenewLayers(stored, options, d, silent) == RenewLayers(stored, options, d', silent)
    ensures RenewLayers(stored, options, d, silent)[2] == Null
  {
  }

  /** So renewing "example.com" resolves different layers from the ones the guard was meant to give. */
  lemma RenewDropsCertName(stored: Value, options: Value, silent: bool)
    ensures RenewLayers(stored, options, Some("example.com"), silent)
         != RenewLayersIntended(stored, options, Some("example.com"), silent)
  {
    assert !EmptyDomain(Some("example.com"));
    assert RenewLayersIntended(stored, options, Some("example.com"), silent)[2] != Null;
  }

  /** Renew with the guard on `$domains`: a cert-name layer iff the domain is non-empty, as delete has it. */
  lemma RenewIntendedNamesCertificate(stored: Value, options: Value, d: Option<string>, silent: bool)
    ensures var layers := RenewLayersIntended(stored, options, d, silent);
      && (layers[2] != Null <==> !EmptyDomain(d))
      && (layers[2] != Null ==> layers[2].entries == map[Opt.CERT_NAME := Str(d.value)])
      && layers == DeleteLayers(stored, options, d, silent)
  {
  }

  /** Delete as written runs `certbot revoke`, the same subcommand as revoke, never `certbot delete`. */
  lemma DeleteRunsRevoke(stored: Value, options: Value, d: Option<string>, verbose: bool, silent: bool, dryRun: bool)
    ensures DeleteCall(stored, options, d, verbose, silent, dryRun).command
         == RevokeCall(stored, options, d, None, verbose, silent, dryRun).command
    ensures DeleteCall(stored, options, d, verbose, silent, dryRun).command != DELETE_COMMAND
  {
    assert REVOKE_COMMAND[8] != DELETE_COMMAND[8];
  }

  /** The corrected delete runs `certbot delete` with the same layers and flags. */
  lemma DeleteIntendedRunsDelete(stored: Value, options: Value, d: Option<string>, verbose: bool, silent: bool, dryRun: bool)
    ensures DeleteCallIntended(stored, options, d, verbose, silent, dryRun).command == DELETE_COMMAND
    ensures DeleteCallIntended(stored, options, d, verbose, silent, dryRun)
         == DeleteCall(stored, options, d, verbose, silent, dryRun).(command := DELETE_COMMAND)
  {
  }

  // ------ Certificate lookup

  /** `$certificate->name === $item`, or `$item` among the domains list, or equal to the domains string. */
  predicate Matches(c: Certificate, need: string) {
    || c.Get(NAME) == Str(need)
    || (c.Get(DOMAINS).List? && Str(need) in c.Get(DOMAINS).items)
    || c.Get(DOMAINS) == Str(need)
  }

  /** `array_any($needs, …)`. */
  predicate AnyMatch(c: Certificate, needs: seq<string>) {
    exists k :: 0 <= k < |needs| && Matches(c, needs[k])
  }

  /** `(array) $needs` for a string or a list. */
  function NeedList(needs: Needs): (list: seq<string>)
    ensures needs.OneNeed? ==> list == [needs.need]
    ensures needs.ManyNeeds? ==> list == needs.needs
  {
    match needs
    case NoNeeds => []
    case OneNeed(need) => [need]
    case ManyNeeds(list) => list
  }

  /** `found` is the first certificate, in list order, that some need matches, or none when none does. */
  predicate FirstMatch(certificates: seq<Certificate>, needs: seq<string>, found: Option<Certificate>) {
    && (found.None? <==> forall k :: 0 <= k < |certificates| ==> !AnyMatch(certificates[k], needs))
    && (found.Some? ==> exists k :: 0 <= k < |certificates| && certificates[k] == found.value
                                    && AnyMatch(certificates[k], needs)
                                    && forall j :: 0 <= j < k ==> !AnyMatch(certificates[j], needs))
  }

  /** The `foreach` of `certbotCertificate`: the first match, with an early return. */
  method FindCertificate(certificates: seq<Certificate>, needs: seq<string>) returns (found: Option<Certificate>)
    ensures FirstMatch(certificates, needs, found)
  {
    for i := 0 to |certificates|
      invariant forall j :: 0 <= j < i ==> !AnyMatch(certificates[j], needs)
    {
      if AnyMatch(certificates[i], needs) {
        return Some(certificates[i]);
      }
    }
    return None;
  }

  /** There is only one first match. */
  lemma FirstMatchUnique(certificates: seq<Certificate>, needs: seq<string>, a: Option<Certificate>, b: Option<Certificate>)
    requires FirstMatch(certificates, needs, a) && FirstMatch(certificates, needs, b)
    ensures a == b
  {
    if a.Some? && b.Some? {
      var i :| 0 <= i < |certificates| && certificates[i] == a.value && AnyMatch(certificates[i], needs)
                && forall j :: 0 <= j < i ==> !AnyMatch(certificates[j], needs);
      var k :| 0 <= k < |certificates| && certificates[k] == b.value && AnyMatch(certificates[k], needs)
                && forall j :: 0 <= j < k ==> !AnyMatch(certificates[j], needs);
      if i < k {
        assert false;
      } else if k < i {
        assert false;
      }
    }
  }

  /** An empty list of needs matches nothing, whatever the listing. */
  lemma NoNeedsNoMatch(certificates: seq<Certificate>, found: Option<Certificate>)
    requires FirstMatch(certificates, [], found)
    ensures found.None?
  {
  }

  /** A certificate matches the name it carries. */
  lemma NameMatches(certificates: seq<Certificate>, k: nat, name: string, found: Option<Certificate>)
    requires k < |certificates| && certificates[k].Get(NAME) == Str(name)
    requires FirstMatch(certificates, [name], found)
    ensures found.Some?
  {
    assert Matches(certificates[k], [name][0]);
  }

  /** The certificates `certbot certificates` reported: none unless it exited with success. */
  function Listing(outcome: Outcome, timezone: Option<string>, dateFormat: Option<string>, cal: Calendar)
    : (r: Result<seq<Certificate>, DateError>)
    ensures outcome.status != SUCCESS ==> r == Success([])
    ensures outcome.status == SUCCESS ==> r == Parse.ParseCertificates(outcome.output, timezone, dateFormat, cal)
  {
    if outcome.status == SUCCESS then Parse.ParseCertificates(outcome.output, timezone, dateFormat, cal) else Success([])
  }

  /** The lookup's listing, read with the default zone and format as `certbotCertificateExists` leaves them. */
  function DefaultListing(outcome: Outcome, cal: Calendar): Result<seq<Certificate>, DateError> {
    Listing(outcome, Some(DEFAULT_TIMEZONE), Some(DEFAULT_DATE_FORMAT), cal)
  }

  /** `isValid` behind the null-expiry guard of `certbotCertificateIsValid`. */
  function Verdict(c: Certificate, date: Reference, timezone: Option<string>, cal: Calendar): (r: Result<bool, DateError>)
    ensures c.Get(EXPIRES) == Null ==> r == Success(false)
    ensures r == Success(true) ==> HasExpiry(c)
  {
    if c.Get(EXPIRES) == Null then Success(false) else IsValid(c, date, timezone, cal)
  }

  // ------ The façade

  /** The stored default options of each subcommand; null until initialised. */
  class Certbot {
    var certificatesOptions: Value
    var certOnlyOptions: Value
    var deleteOptions: Value
    var renewOptions: Value
    var revokeOptions: Value

    constructor ()
      ensures certificatesOptions == Null && certOnlyOptions == Null && deleteOptions == Null
      ensures renewOptions == Null && revokeOptions == Null
    {
      certificatesOptions, certOnlyOptions, deleteOptions := Null, Null, Null;
      renewOptions, revokeOptions := Null, Null;
    }

    method InitializeCertificatesOptions(init: map<string, Value>)
      modifies this
      ensures certificatesOptions == InitLookup(init, CERTIFICATES_PARAM)
      ensures certOnlyOptions == old(certOnlyOptions) && deleteOptions == old(deleteOptions)
      ensures renewOptions == old(renewOptions) && revokeOptions == old(revokeOptions)
    {
      certificatesOptions := InitLookup(init, CERTIFICATES_PARAM);
    }

    method InitializeCertOnlyOptions(init: map<string, Value>)
      modifies this
      ensures certOnlyOptions == InitLookup(init, CERT_ONLY_PARAM)
      ensures certificatesOptions == old(certificatesOptions) && deleteOptions == old(deleteOptions)
      ensures renewOptions == old(renewOptions) && revokeOptions == old(revokeOptions)
    {
      certOnlyOptions := InitLookup(init, CERT_ONLY_PARAM);
    }

    method InitializeDeleteOptions(init: map<string, Value>)
      modifies this
      ensures deleteOptions == InitLookup(init, DELETE_PARAM)
      ensures certificatesOptions == old(certificatesOptions) && certOnlyOptions == old(certOnlyOptions)
      ensures renewOptions == old(renewOptions) && revokeOptions == old(revokeOptions)
    {
      deleteOptions := InitLookup(init, DELETE_PARAM);
    }

    method InitializeRenewOptions(init: map<string, Value>)
      modifies this
      ensures renewOptions == InitLookup(init, RENEW_PARAM)
      ensures certificatesOptions == old(certificatesOptions) && certOnlyOptions == old(certOnlyOptions)
      ensures deleteOptions == old(deleteOptions) && revokeOptions == old(revokeOptions)
    {
      renewOptions := InitLookup(init, RENEW_PARAM);
    }

    method InitializeRevokeOptions(init: map<string, Value>)
      modifies this
      ensures revokeOptions == InitLookup(init, REVOKE_PARAM)
      ensures certificatesOptions == old(certificatesOptions) && certOnlyOptions == old(certOnlyOptions)
      ensures deleteOptions == old(deleteOptions) && renewOptions == old(renewOptions)
    {
      revokeOptions := InitLookup(init, REVOKE_PARAM);
    }

    /** `certbotCertificates`: list the certificates, parsing the output only after a success status. */
    method Certificates(options: Value, verbose: bool, silent: bool, dryRun: bool,
                        timezone: Option<string>, dateFormat: Option<string>, outcome: Outcome, cal: Calendar)
      returns (call: Invocation, r: Result<seq<Certificate>, DateError>)
      ensures call == CertificatesCall(certificatesOptions, options, verbose, silent, dryRun)
      ensures call.layers[2] != Null <==> silent
      ensures r == Listing(outcome, timezone, dateFormat, cal)
    {
      call := CertificatesCall(certificatesOptions, options, verbose, silent, dryRun);
      if outcome.status == SUCCESS {
        r := Parse.ParseCertbotCertificates(outcome.output, timezone, dateFormat, cal);
      } else {
        r := Success([]);
      }
    }

    /**
      `certbotCertificate`: null needs give null before anything runs;
      otherwise the listing is fetched and its first certificate matching
      some need is returned.
     */
    method Certificate(needs: Needs, options: Value, verbose: bool, silent: bool, dryRun: bool,
                       timezone: Option<string>, dateFormat: Option<string>, outcome: Outcome, cal: Calendar)
      returns (call: Option<Invocation>, r: Result<Option<Certificate>, DateError>)
      ensures needs.NoNeeds? ==> call.None? && r == Success(None)
      ensures !needs.NoNeeds? ==> call == Some(CertificatesCall(certificatesOptions, options, verbose, silent, dryRun))
      ensures !needs.NoNeeds? && Listing(outcome, timezone, dateFormat, cal).Failure? ==>
        r == Failure(Listing(outcome, timezone, dateFormat, cal).error)
      ensures !needs.NoNeeds? && Listing(outcome, timezone, dateFormat, cal).Success? ==>
        r.Success? && FirstMatch(Listing(outcome, timezone, dateFormat, cal).value, NeedList(needs), r.value)
    {
      if needs.NoNeeds? {
        return None, Success(None);
      }
      var listed, certificates := Certificates(options, verbose, silent, dryRun, timezone, dateFormat, outcome, cal);
      call := Some(listed);
      if certificates.Failure? {
        return call, Failure(certificates.error);
      }
      if certificates.value == [] {
        return call, Success(None);
      }
      var found := FindCertificate(certificates.value, NeedList(needs));
      r := Success(found);
    }

    /** `certbotCertificateExists`: some listed certificate matches some need. */
    method CertificateExists(needs: Needs, options: Value, verbose: bool, silent: bool, dryRun: bool,
                             outcome: Outcome, cal: Calendar)
      returns (call: Option<Invocation>, r: Result<bool, DateError>)
      ensures needs.NoNeeds? ==> call.None? && r == Success(false)
      ensures !needs.NoNeeds? ==> call == Some(CertificatesCall(certificatesOptions, options, verbose, silent, dryRun))
      ensures !needs.NoNeeds? ==> (r.Failure? <==> DefaultListing(outcome, cal).Failure?)
      ensures r.Failure? ==> r.error == DefaultListing(outcome, cal).error
      ensures !needs.NoNeeds? && r.Success? ==>
        (r.value <==> exists k :: 0 <= k < |DefaultListing(outcome, cal).value|
                                  && AnyMatch(DefaultListing(outcome, cal).value[k], NeedList(needs)))
    {
      var found;
      call, found := Certificate(needs, options, verbose, silent, dryRun,
                                 Some(DEFAULT_TIMEZONE), Some(DEFAULT_DATE_FORMAT), outcome, cal);
      if found.Failure? {
        return call, Failure(found.error);
      }
      r := Success(found.value.Some?);
    }

    /**
      `certbotCertificateIsValid`: a given certificate is judged directly;
      otherwise it is looked up first, and no match is not valid. A null
      expiry is not valid; any other expiry is judged by `isValid`.
     */
    method CertificateIsValid(subject: Subject, date: Reference, options: Value, verbose: bool, silent: bool,
                              dryRun: bool, timezone: Option<string>, outcome: Outcome, cal: Calendar)
      returns (call: Option<Invocation>, r: Result<bool, DateError>)
      ensures subject.Given? ==> call.None? && r == Verdict(subject.certificate, date, timezone, cal)
      ensures subject.Lookup? && subject.needs.NoNeeds? ==> call.None? && r == Success(false)
      ensures subject.Lookup? && !subject.needs.NoNeeds? && DefaultListing(outcome, cal).Failure? ==>
        r == Failure(DefaultListing(outcome, cal).error)
      ensures subject.Lookup? && !subject.needs.NoNeeds? && DefaultListing(outcome, cal).Success? ==>
        exists found ::
          && FirstMatch(DefaultListing(outcome, cal).value, NeedList(subject.needs), found)
          && r == (if found.None? then Success(false) else Verdict(found.value, date, timezone, cal))
    {
      var certificate: Option<Certificate>;
      match subject {
        case Given(c) =>
          call, certificate := None, Some(c);
        case Lookup(needs) =>
          var found;
          call, found := Certificate(needs, options, verbose, silent, dryRun,
                                     Some(DEFAULT_TIMEZONE), Some(DEFAULT_DATE_FORMAT), outcome, cal);
          if found.Failure? {
            return call, Failure(found.error);
          }
          certificate := found.value;
      }
      if certificate.None? {
        return call, Success(false);
      }
      r := Verdict(certificate.value, date, timezone, cal);
    }

    /**
      `certbotRenew`: with `assertable` and a domain, the domain must be
      known to the listing first, or renew stops with a validation error
      naming it; then `certbot renew` runs with the renew layers.
     */
    method Renew(domains: DomainArg, options: Value, verbose: bool, silent: bool, assertable: bool, dryRun: bool,
                 listing: Outcome, exitCode: int, cal: Calendar)
      returns (calls: seq<Invocation>, r: Result<int, CommandError>)
      ensures var d := NormalizeDomains(domains);
        !(assertable && d.Some?) ==>
          calls == [RenewCall(renewOptions, options, d, verbose, silent, dryRun)] && r == Success(exitCode)
      ensures var d := NormalizeDomains(domains);
        assertable && d.Some? ==> |calls| >= 1 && calls[0] == CertificatesCall(certificatesOptions, Null, false, true, false)
      ensures var d := NormalizeDomains(domains);
        assertable && d.Some? && DefaultListing(listing, cal).Failure? ==>
          |calls| == 1 && r == Failure(DateFailure(DefaultListing(listing, cal).error))
      ensures var d := NormalizeDomains(domains);
        assertable && d.Some? && DefaultListing(listing, cal).Success? ==>
          var known := exists k :: 0 <= k < |DefaultListing(listing, cal).value|
                                   && AnyMatch(DefaultListing(listing, cal).value[k], [d.value]);
          && (!known ==> |calls| == 1 && r == Failure(Validation("The domains " + d.value + " don' exist.")))
          && (known ==> calls == [calls[0], RenewCall(renewOptions, options, d, verbose, silent, dryRun)]
                        && r == Success(exitCode))
    {
      var d := NormalizeDomains(domains);
      calls := [];
      if assertable && d.Some? {
        var probe, known := CertificateExists(OneNeed(d.value), Null, false, true, false, listing, cal);
        calls := [probe.value];
        if known.Failure? {
          return calls, Failure(DateFailure(known.error));
        }
        if !known.value {
          return calls, Failure(Validation("The domains " + d.value + " don' exist."));
        }
      }
      calls := calls + [RenewCall(renewOptions, options, d, verbose, silent, dryRun)];
      r := Success(exitCode);
    }

    /** `certbotRevoke`: `certbot revoke` with the revoke layers; its exit code is returned. */
    method Revoke(domains: DomainArg, deleteAfter: Option<bool>, options: Value, verbose: bool, silent: bool,
                  dryRun: bool, exitCode: int)
      returns (call: Invocation, code: int)
      ensures call == RevokeCall(revokeOptions, options, NormalizeDomains(domains), deleteAfter, verbose, silent, dryRun)
      ensures code == exitCode
    {
      call := RevokeCall(revokeOptions, options, NormalizeDomains(domains), deleteAfter, verbose, silent, dryRun);
      code := exitCode;
    }

    /** `certbotDelete` as written: the delete layers, run as `certbot revoke`. */
    method Delete(domains: DomainArg, options: Value, verbose: bool, silent: bool, dryRun: bool, exitCode: int)
      returns (call: Invocation, code: int)
      ensures call == DeleteCall(deleteOptions, options, NormalizeDomains(domains), verbose, silent, dryRun)
      ensures code == exitCode
    {
      call := DeleteCall(deleteOptions, options, NormalizeDomains(domains), verbose, silent, dryRun);
      code := exitCode;
    }

    /** `certbotCertOnly`: `certbot certonly` with the stored and given options; its exit code is returned. */
    method CertOnly(options: Value, verbose: bool, silent: bool, dryRun: bool, exitCode: int)
      returns (call: Invocation, code: int)
      ensures call == CertOnlyCall(certOnlyOptions, options, verbose, silent, dryRun)
      ensures code == exitCode
    {
      call := CertOnlyCall(certOnlyOptions, options, verbose, silent, dryRun);
      code := exitCode;
    }
  }
}
