/**
  `parseCertbotCertificates`: reads the text `certbot certificates` prints
  and returns one certificate record per `Certificate Name:` block.

  `ParseCertificates` defines the parse as a fold of `Step` over the lines;
  `ParseCertbotCertificates` is the line loop itself, proved to compute it.
 */
module ParseCertificates {
  import opened Wrappers
  import opened Php
  import opened Patterns
  import opened Dates
  import opened CertbotCertificate

  const NAME_LABEL: string := "Certificate Name:"
  const SERIAL_LABEL: string := "Serial Number:"
  const KEY_TYPE_LABEL: string := "Key Type:"
  const DOMAINS_LABEL: string := "Domains:"
  const CERT_PATH_LABEL: string := "Certificate Path:"
  const KEY_PATH_LABEL: string := "Private Key Path:"

  /** PHP_EOL on the Unix hosts certbot runs on. */
  const EOL: char := '\n'

  /** The records flushed so far and the field map being filled in. */
  datatype ParseState = ParseState(certificates: seq<Certificate>, current: map<string, Value>)

  const INITIAL: ParseState := ParseState([], map[])

  /** The records, with the field map in progress appended when it is not empty. */
  function Flushed(st: ParseState): (records: seq<Certificate>)
    ensures st.current == map[] ==> records == st.certificates
    ensures st.current != map[] ==> records == st.certificates + [Certificate(st.current)]
  {
    if st.current != map[] then st.certificates + [Certificate(st.current)] else st.certificates
  }

  /** The text after `tag`, trimmed. */
  function After(line: string, tag: string): string
    requires StartsWith(line, tag)
  {
    Trim(line[|tag|..])
  }

  /** The domains field: the pieces as a PHP list of strings. */
  function StringList(parts: seq<string>): (v: Value)
    ensures v.List? && |v.items| == |parts|
    ensures forall k :: 0 <= k < |parts| ==> v.items[k] == Str(parts[k])
  {
    List(seq(|parts|, k requires 0 <= k < |parts| => Str(parts[k])))
  }

  /**
    The expiry field: the first capture, trimmed and passed to
    `formatDateTime`, becomes `expires`; `validDays` is added when the second
    capture holds "VALID: <digits> days".
   */
  function ExpiryFields(current: map<string, Value>, date: string, note: string,
                        timezone: Option<string>, dateFormat: Option<string>, cal: Calendar)
    : Result<map<string, Value>, DateError>
  {
    match cal.format(Trim(date), timezone, dateFormat)
    case Failure(e) => Failure(e)
    case Success(expires) =>
      var withExpiry := current[EXPIRES := Str(expires)];
      match MatchValidDays(note)
      case None => Success(withExpiry)
      case Some(digits) => Success(withExpiry[VALID_DAYS := Int(IntCast(digits))])
  }

  /** What one line of the report does to the parse. */
  function Step(st: ParseState, raw: string, timezone: Option<string>, dateFormat: Option<string>, cal: Calendar)
    : Result<ParseState, DateError>
  {
    var line := Trim(raw);
    if StartsWith(line, NAME_LABEL) then
      Success(ParseState(Flushed(st), map[NAME := Str(After(line, NAME_LABEL))]))
    else
      match SetField(st.current, line, timezone, dateFormat, cal)
      case Failure(e) => Failure(e)
      case Success(current) => Success(st.(current := current))
  }

  /** What a trimmed line other than a name line does to the field map. */
  function SetField(current: map<string, Value>, line: string, timezone: Option<string>, dateFormat: Option<string>, cal: Calendar)
    : Result<map<string, Value>, DateError>
  {
    if StartsWith(line, SERIAL_LABEL) then
      Success(current[IDENTIFIER := Str(After(line, SERIAL_LABEL))])
    else if StartsWith(line, KEY_TYPE_LABEL) then
      Success(current[KEY_TYPE := Str(After(line, KEY_TYPE_LABEL))])
    else if StartsWith(line, DOMAINS_LABEL) then
      Success(current[DOMAINS := StringList(SplitOnWhitespace(After(line, DOMAINS_LABEL)))])
    else if StartsWith(line, EXPIRY_LABEL) then
      match MatchExpiry(line)
      case None => Success(current)
      case Some(captures) => ExpiryFields(current, captures.0, captures.1, timezone, dateFormat, cal)
    else if StartsWith(line, CERT_PATH_LABEL) then
      Success(current[CERTIFICATE_KEY_PATH := Str(After(line, CERT_PATH_LABEL))])
    else if StartsWith(line, KEY_PATH_LABEL) then
      Success(current[PRIVATE_KEY_PATH := Str(After(line, KEY_PATH_LABEL))])
    else
      Success(current)
  }

  /** The lines applied in order; the first failure ends the parse. */
  function Run(st: ParseState, lines: seq<string>, timezone: Option<string>, dateFormat: Option<string>, cal: Calendar)
    : Result<ParseState, DateError>
    decreases |lines|
  {
    if lines == [] then Success(st)
    else
      match Step(st, lines[0], timezone, dateFormat, cal)
      case Failure(e) => Failure(e)
      case Success(next) => Run(next, lines[1..], timezone, dateFormat, cal)
  }

  /** `parseCertbotCertificates($source, $timezone, $dateFormat)`, as a function of its inputs. */
  function ParseCertificates(source: Option<string>, timezone: Option<string>, dateFormat: Option<string>, cal: Calendar)
    : (r: Result<seq<Certificate>, DateError>)
    ensures source.None? || source == Some("") ==> r == Success([])
  {
    if source.None? || source.value == "" then Success([])
    else
      match Run(INITIAL, Explode(EOL, source.value), timezone, dateFormat, cal)
      case Failure(e) => Failure(e)
      case Success(st) => Success(Flushed(st))
  }

  /** One more line of the fold. */
  lemma RunOneLine(st: ParseState, lines: seq<string>, i: nat, timezone: Option<string>, dateFormat: Option<string>, cal: Calendar)
    requires i < |lines|
    ensures Run(st, lines[i..], timezone, dateFormat, cal) ==
      match Step(st, lines[i], timezone, dateFormat, cal)
      case Failure(e) => Failure(e)
      case Success(next) => Run(next, lines[i + 1..], timezone, dateFormat, cal)
  {
    assert lines[i..][0] == lines[i];
    assert lines[i..][1..] == lines[i + 1..];
  }

  /** A line that succeeds hands its state on to the rest of the lines. */
  lemma RunFirstLine(st: ParseState, lines: seq<string>, next: ParseState,
                     timezone: Option<string>, dateFormat: Option<string>, cal: Calendar)
    requires lines != [] && Step(st, lines[0], timezone, dateFormat, cal) == Success(next)
    ensures Run(st, lines, timezone, dateFormat, cal) == Run(next, lines[1..], timezone, dateFormat, cal)
  {
  }

  /** A fold that succeeds succeeded on its first line and on the rest. */
  lemma RunSucceeds(st: ParseState, lines: seq<string>, final: ParseState,
                    timezone: Option<string>, dateFormat: Option<string>, cal: Calendar)
    requires lines != [] && Run(st, lines, timezone, dateFormat, cal) == Success(final)
    ensures Step(st, lines[0], timezone, dateFormat, cal).Success?
    ensures Run(Step(st, lines[0], timezone, dateFormat, cal).value, lines[1..], timezone, dateFormat, cal) == Success(final)
  {
  }

  /** The line loop of `parseCertbotCertificates`. */
  method ParseCertbotCertificates(source: Option<string>, timezone: Option<string>, dateFormat: Option<string>, cal: Calendar)
    returns (r: Result<seq<Certificate>, DateError>)
    ensures r == ParseCertificates(source, timezone, dateFormat, cal)
  {
    if source.None? || source.value == "" {
      return Success([]);
    }
    var certificates: seq<Certificate> := [];
    var lines := Explode(EOL, source.value);
    var current: map<string, Value> := map[];
    for i := 0 to |lines|
      invariant Run(ParseState(certificates, current), lines[i..], timezone, dateFormat, cal)
             == Run(INITIAL, lines, timezone, dateFormat, cal)
    {
      ghost var before := ParseState(certificates, current);
      RunOneLine(before, lines, i, timezone, dateFormat, cal);
      var line := Trim(lines[i]);
      if StartsWith(line, NAME_LABEL) {
        if current != map[] {
          certificates := certificates + [Certificate(current)];
          current := map[];
        }
        current := current[NAME := Str(After(line, NAME_LABEL))];
      } else {
        var updated := SetField(current, line, timezone, dateFormat, cal);
        if updated.Failure? {
          return Failure(updated.error);
        }
        current := updated.value;
      }
    }
    if current != map[] {
      certificates := certificates + [Certificate(current)];
    }
    return Success(certificates);
  }

  // ------ Which lines do what

  /** The lines that set one field to their trimmed remainder. */
  datatype TextField = SerialNumber | KeyType | CertificatePath | PrivateKeyPath

  function TextLabel(f: TextField): string {
    match f
    case SerialNumber => SERIAL_LABEL
    case KeyType => KEY_TYPE_LABEL
    case CertificatePath => CERT_PATH_LABEL
    case PrivateKeyPath => KEY_PATH_LABEL
  }

  function TextKey(f: TextField): string {
    match f
    case SerialNumber => IDENTIFIER
    case KeyType => KEY_TYPE
    case CertificatePath => CERTIFICATE_KEY_PATH
    case PrivateKeyPath => PRIVATE_KEY_PATH
  }

  /** A line, once trimmed, starts with one of the labels the parser knows. */
  predicate Recognized(raw: string) {
    var line := Trim(raw);
    StartsWith(line, NAME_LABEL) || StartsWith(line, SERIAL_LABEL) || StartsWith(line, KEY_TYPE_LABEL)
    || StartsWith(line, DOMAINS_LABEL) || StartsWith(line, EXPIRY_LABEL)
    || StartsWith(line, CERT_PATH_LABEL) || StartsWith(line, KEY_PATH_LABEL)
  }

  /** A line that does not start with a known label changes nothing. */
  lemma UnrecognizedLineIsInert(st: ParseState, raw: string, timezone: Option<string>, dateFormat: Option<string>, cal: Calendar)
    requires !Recognized(raw)
    ensures Step(st, raw, timezone, dateFormat, cal) == Success(st)
  {
  }

  /** A report in which no line starts with a known label has no records. */
  lemma {:induction false} NoLabelNoRecords(st: ParseState, lines: seq<string>, timezone: Option<string>, dateFormat: Option<string>, cal: Calendar)
    requires forall k :: 0 <= k < |lines| ==> !Recognized(lines[k])
    ensures Run(st, lines, timezone, dateFormat, cal) == Success(st)
    decreases |lines|
  {
    if lines != [] {
      UnrecognizedLineIsInert(st, lines[0], timezone, dateFormat, cal);
      NoLabelNoRecords(st, lines[1..], timezone, dateFormat, cal);
    }
  }

  /** So a text without any known label parses to no certificate at all. */
  lemma NoLabelEmptyResult(source: string, timezone: Option<string>, dateFormat: Option<string>, cal: Calendar)
    requires forall k :: 0 <= k < |Explode(EOL, source)| ==> !Recognized(Explode(EOL, source)[k])
    ensures ParseCertificates(Some(source), timezone, dateFormat, cal) == Success([])
  {
    NoLabelNoRecords(INITIAL, Explode(EOL, source), timezone, dateFormat, cal);
  }

  /** Indentation and trailing whitespace, a `\r` included, never change what a line does. */
  lemma PaddingIsIrrelevant(st: ParseState, p: string, raw: string, q: string,
                            timezone: Option<string>, dateFormat: Option<string>, cal: Calendar)
    requires AllTrimChars(p) && AllTrimChars(q)
    ensures Step(st, p + raw + q, timezone, dateFormat, cal) == Step(st, raw, timezone, dateFormat, cal)
  {
    TrimIgnoresPadding(p, raw, q);
  }

  /** Two labels that differ at position `j` never start the same line. */
  lemma LabelsDiffer(line: string, a: string, b: string, j: nat)
    requires StartsWith(line, a) && j < |a| && j < |b| && a[j] != b[j]
    ensures !StartsWith(line, b)
  {
    assert line[j] == a[j];
  }

  /** A line starting with one of the text-field labels starts with no label checked before it. */
  lemma TextLabelFirst(line: string, f: TextField)
    requires StartsWith(line, TextLabel(f))
    ensures !StartsWith(line, NAME_LABEL)
    ensures !f.SerialNumber? ==> !StartsWith(line, SERIAL_LABEL)
    ensures !f.KeyType? ==> !StartsWith(line, KEY_TYPE_LABEL)
    ensures !f.SerialNumber? && !f.KeyType? ==>
      !StartsWith(line, DOMAINS_LABEL) && !StartsWith(line, EXPIRY_LABEL)
    ensures f.PrivateKeyPath? ==> !StartsWith(line, CERT_PATH_LABEL)
  {
    var tag := TextLabel(f);
    if f.CertificatePath? {
      LabelsDiffer(line, tag, NAME_LABEL, 12);
    } else {
      LabelsDiffer(line, tag, NAME_LABEL, 0);
    }
    if !f.SerialNumber? {
      LabelsDiffer(line, tag, SERIAL_LABEL, 0);
    }
    if !f.KeyType? {
      LabelsDiffer(line, tag, KEY_TYPE_LABEL, 0);
    }
    if !f.SerialNumber? && !f.KeyType? {
      LabelsDiffer(line, tag, DOMAINS_LABEL, 0);
      LabelsDiffer(line, tag, EXPIRY_LABEL, 0);
    }
    if f.PrivateKeyPath? {
      LabelsDiffer(line, tag, CERT_PATH_LABEL, 0);
    }
  }

  /**
    `Serial Number:`, `Key Type:`, `Certificate Path:` and `Private Key
    Path:` set their one field to the trimmed remainder; no other field and
    no finished record changes.
   */
  lemma TextFieldLine(st: ParseState, raw: string, f: TextField,
                      timezone: Option<string>, dateFormat: Option<string>, cal: Calendar)
    requires StartsWith(Trim(raw), TextLabel(f))
    ensures Step(st, raw, timezone, dateFormat, cal)
         == Success(st.(current := st.current[TextKey(f) := Str(After(Trim(raw), TextLabel(f)))]))
  {
    TextLabelFirst(Trim(raw), f);
  }

  /** A label seen twice in a block: the later line wins, as if the first were not there. */
  lemma LastLineWins(st: ParseState, first: string, second: string, f: TextField,
                     timezone: Option<string>, dateFormat: Option<string>, cal: Calendar)
    requires StartsWith(Trim(first), TextLabel(f)) && StartsWith(Trim(second), TextLabel(f))
    ensures Step(st, first, timezone, dateFormat, cal).Success?
    ensures Step(Step(st, first, timezone, dateFormat, cal).value, second, timezone, dateFormat, cal)
         == Step(st, second, timezone, dateFormat, cal)
  {
    var key, tag := TextKey(f), TextLabel(f);
    var mid := st.(current := st.current[key := Str(After(Trim(first), tag))]);
    TextFieldLine(st, first, f, timezone, dateFormat, cal);
    TextFieldLine(mid, second, f, timezone, dateFormat, cal);
    TextFieldLine(st, second, f, timezone, dateFormat, cal);
    assert mid.current[key := Str(After(Trim(second), tag))] == st.current[key := Str(After(Trim(second), tag))];
  }

  // ------ Domains

  /**
    `Domains:` sets the domains field to the pieces of its trimmed remainder
    split on runs of whitespace: no piece holds whitespace, the pieces joined
    with single spaces give the remainder with each run collapsed, an empty
    remainder gives one empty piece, and a remainder that neither starts nor
    ends with whitespace gives no empty piece.
   */
  lemma DomainsLine(st: ParseState, raw: string, timezone: Option<string>, dateFormat: Option<string>, cal: Calendar)
    requires StartsWith(Trim(raw), DOMAINS_LABEL)
    ensures var rest := After(Trim(raw), DOMAINS_LABEL);
      var parts := SplitOnWhitespace(rest);
      && Step(st, raw, timezone, dateFormat, cal) == Success(st.(current := st.current[DOMAINS := StringList(parts)]))
      && (forall k :: 0 <= k < |parts| ==> NoSpace(parts[k]))
      && JoinWith(parts, " ") == CollapseWhitespace(rest)
      && (rest == "" ==> parts == [""])
      && (rest != "" && !IsSpace(rest[0]) && !IsSpace(rest[|rest| - 1]) ==> forall k :: 0 <= k < |parts| ==> parts[k] != "")
  {
    var line, rest := Trim(raw), After(Trim(raw), DOMAINS_LABEL);
    LabelsDiffer(line, DOMAINS_LABEL, NAME_LABEL, 0);
    LabelsDiffer(line, DOMAINS_LABEL, SERIAL_LABEL, 0);
    LabelsDiffer(line, DOMAINS_LABEL, KEY_TYPE_LABEL, 0);
    SplitOnWhitespaceJoins(rest);
    if rest != "" && !IsSpace(rest[0]) && !IsSpace(rest[|rest| - 1]) {
      SplitOnWhitespaceNonEmpty(rest);
    }
  }

  // ------ Expiry

  /** The key-by-key reading of a field map, with null for a missing key. */
  function FieldValue(current: map<string, Value>, key: string): Value {
    Certificate(current).Get(key)
  }

  /** An `Expiry Date:` line other than the first three labels is handled by the expiry branch. */
  lemma ExpiryLabelFirst(line: string)
    requires StartsWith(line, EXPIRY_LABEL)
    ensures !StartsWith(line, NAME_LABEL) && !StartsWith(line, SERIAL_LABEL)
    ensures !StartsWith(line, KEY_TYPE_LABEL) && !StartsWith(line, DOMAINS_LABEL)
  {
    LabelsDiffer(line, EXPIRY_LABEL, NAME_LABEL, 0);
    LabelsDiffer(line, EXPIRY_LABEL, SERIAL_LABEL, 0);
    LabelsDiffer(line, EXPIRY_LABEL, KEY_TYPE_LABEL, 0);
    LabelsDiffer(line, EXPIRY_LABEL, DOMAINS_LABEL, 0);
  }

  /** What an `Expiry Date:` line does, through the expiry branch alone. */
  lemma ExpiryStep(st: ParseState, raw: string, timezone: Option<string>, dateFormat: Option<string>, cal: Calendar)
    requires StartsWith(Trim(raw), EXPIRY_LABEL)
    ensures MatchExpiry(Trim(raw)).None? ==> Step(st, raw, timezone, dateFormat, cal) == Success(st)
    ensures MatchExpiry(Trim(raw)).Some? ==>
      var (date, note) := MatchExpiry(Trim(raw)).value;
      Step(st, raw, timezone, dateFormat, cal) ==
        match ExpiryFields(st.current, date, note, timezone, dateFormat, cal)
        case Failure(e) => Failure(e)
        case Success(current) => Success(st.(current := current))
  {
    ExpiryLabelFirst(Trim(raw));
  }

  /** `ExpiryFields` leaves every field but `expires` and `validDays` as it was. */
  lemma ExpiryFieldsOthers(current: map<string, Value>, date: string, note: string, next: map<string, Value>,
                           timezone: Option<string>, dateFormat: Option<string>, cal: Calendar)
    requires ExpiryFields(current, date, note, timezone, dateFormat, cal) == Success(next)
    ensures current.Keys <= next.Keys
    ensures forall key :: key != EXPIRES && key != VALID_DAYS ==> FieldValue(next, key) == FieldValue(current, key)
  {
    var e, v := ExpiryFieldsShape(current, date, note, next, timezone, dateFormat, cal);
    TwoUpdatesKeepOthers(current, next, e, v);
  }

  lemma ExpiryFieldsShape(current: map<string, Value>, date: string, note: string, next: map<string, Value>,
                          timezone: Option<string>, dateFormat: Option<string>, cal: Calendar)
    returns (e: Value, v: Value)
    requires ExpiryFields(current, date, note, timezone, dateFormat, cal) == Success(next)
    ensures next == current[EXPIRES := e] || next == current[EXPIRES := e][VALID_DAYS := v]
  {
    e := Str(cal.format(Trim(date), timezone, dateFormat).value);
    v := if MatchValidDays(note).Some? then Int(IntCast(MatchValidDays(note).value)) else Null;
  }

  /** Setting `expires`, and possibly `validDays`, leaves every other field as it was. */
  lemma TwoUpdatesKeepOthers(current: map<string, Value>, next: map<string, Value>, e: Value, v: Value)
    requires next == current[EXPIRES := e] || next == current[EXPIRES := e][VALID_DAYS := v]
    ensures current.Keys <= next.Keys
    ensures forall key :: key != EXPIRES && key != VALID_DAYS ==> FieldValue(next, key) == FieldValue(current, key)
  {
  }

  /**
    `expires` is the formatted date; `validDays` is set to the value of the
    digits exactly when the note holds "VALID: <digits> days", and is kept
    otherwise.
   */
  lemma ExpiryFieldsSets(current: map<string, Value>, date: string, note: string, next: map<string, Value>,
                         timezone: Option<string>, dateFormat: Option<string>, cal: Calendar)
    requires ExpiryFields(current, date, note, timezone, dateFormat, cal) == Success(next)
    ensures cal.format(Trim(date), timezone, dateFormat).Success?
    ensures FieldValue(next, EXPIRES) == Str(cal.format(Trim(date), timezone, dateFormat).value)
    ensures FieldValue(next, VALID_DAYS) != FieldValue(current, VALID_DAYS) ==>
      MatchValidDays(note).Some? && FieldValue(next, VALID_DAYS) == Int(IntCast(MatchValidDays(note).value))
    ensures MatchValidDays(note).Some? ==>
      FieldValue(next, VALID_DAYS) == Int(IntCast(MatchValidDays(note).value))
    ensures MatchValidDays(note).None? ==> FieldValue(next, VALID_DAYS) == FieldValue(current, VALID_DAYS)
  {
  }

  /**
    An `Expiry Date:` line touches at most `expires` and `validDays`. When
    the composite pattern does not match it changes nothing; when it does,
    `expires` is the formatted first capture, and `validDays` is set to the
    value of the digits whenever "VALID: <digits> days" is found in the
    second capture, and changes only then.
   */
  lemma ExpiryLine(st: ParseState, raw: string, next: ParseState,
                   timezone: Option<string>, dateFormat: Option<string>, cal: Calendar)
    requires StartsWith(Trim(raw), EXPIRY_LABEL)
    requires Step(st, raw, timezone, dateFormat, cal) == Success(next)
    ensures next.certificates == st.certificates
    ensures forall key :: key != EXPIRES && key != VALID_DAYS ==>
      FieldValue(next.current, key) == FieldValue(st.current, key)
    ensures MatchExpiry(Trim(raw)).None? ==> next == st
    ensures MatchExpiry(Trim(raw)).Some? ==>
      cal.format(Trim(MatchExpiry(Trim(raw)).value.0), timezone, dateFormat).Success? &&
      FieldValue(next.current, EXPIRES) == Str(cal.format(Trim(MatchExpiry(Trim(raw)).value.0), timezone, dateFormat).value)
    ensures FieldValue(next.current, VALID_DAYS) != FieldValue(st.current, VALID_DAYS) ==>
      && MatchExpiry(Trim(raw)).Some?
      && MatchValidDays(MatchExpiry(Trim(raw)).value.1).Some?
      && FieldValue(next.current, VALID_DAYS) == Int(IntCast(MatchValidDays(MatchExpiry(Trim(raw)).value.1).value))
    ensures MatchExpiry(Trim(raw)).Some? && MatchValidDays(MatchExpiry(Trim(raw)).value.1).Some? ==>
      FieldValue(next.current, VALID_DAYS) == Int(IntCast(MatchValidDays(MatchExpiry(Trim(raw)).value.1).value))
  {
    ExpiryStep(st, raw, timezone, dateFormat, cal);
    match MatchExpiry(Trim(raw))
    case None =>
    case Some(captures) =>
      ExpiryFieldsOthers(st.current, captures.0, captures.1, next.current, timezone, dateFormat, cal);
      ExpiryFieldsSets(st.current, captures.0, captures.1, next.current, timezone, dateFormat, cal);
  }

  /** A date `formatDateTime` rejects aborts the whole parse with its exception. */
  lemma ExpiryFormatFailure(st: ParseState, raw: string, lines: seq<string>,
                            timezone: Option<string>, dateFormat: Option<string>, cal: Calendar)
    requires StartsWith(Trim(raw), EXPIRY_LABEL) && MatchExpiry(Trim(raw)).Some?
    requires cal.format(Trim(MatchExpiry(Trim(raw)).value.0), timezone, dateFormat).Failure?
    ensures Run(st, [raw] + lines, timezone, dateFormat, cal)
         == Failure(cal.format(Trim(MatchExpiry(Trim(raw)).value.0), timezone, dateFormat).error)
  {
    ExpiryStep(st, raw, timezone, dateFormat, cal);
    assert ([raw] + lines)[0] == raw;
  }

  /**
    The digits stored as `validDays` are those of an occurrence of
    "VALID:", optional whitespace, the digits, optional whitespace and
    "days", in any letter case, inside the parentheses.
   */
  lemma ValidDaysWitness(note: string) returns (k: nat, tag: string, w1: string, w2: string, days: string, rest: string)
    requires MatchValidDays(note).Some?
    ensures k <= |note|
    ensures ValidDaysShape(note[k..], tag, w1, MatchValidDays(note).value, w2, days, rest)
  {
    k :| k <= |note| && MatchValidDays(note) == MatchValidDaysHere(note[k..]);
    tag, w1, w2, days, rest := ValidDaysMatchSound(note[k..]);
  }

  // ------ Records and names

  predicate IsNameLine(raw: string) {
    StartsWith(Trim(raw), NAME_LABEL)
  }

  /** The name a line carries: one when it is a `Certificate Name:` line, none otherwise. */
  function NameLine(raw: string): (names: seq<string>)
    ensures |names| <= 1
  {
    if IsNameLine(raw) then [After(Trim(raw), NAME_LABEL)] else []
  }

  /** The names the `Certificate Name:` lines carry, in order. */
  function NameLines(lines: seq<string>): (names: seq<string>)
    ensures |names| <= |lines|
    decreases |lines|
  {
    if lines == [] then [] else NameLine(lines[0]) + NameLines(lines[1..])
  }

  /** The name of each record, in order. */
  function RecordNames(records: seq<Certificate>): (names: seq<Value>)
    ensures |names| == |records|
    ensures forall k :: 0 <= k < |records| ==> names[k] == records[k].Get(NAME)
  {
    seq(|records|, k requires 0 <= k < |records| => records[k].Get(NAME))
  }

  /** The strings as PHP values. */
  function Strs(names: seq<string>): (values: seq<Value>)
    ensures |values| == |names|
    ensures forall k :: 0 <= k < |names| ==> values[k] == Str(names[k])
  {
    seq(|names|, k requires 0 <= k < |names| => Str(names[k]))
  }

  /** Before the first `Certificate Name:` line, no line carries a known label. */
  predicate NameFirst(lines: seq<string>)
    decreases |lines|
  {
    lines == [] || IsNameLine(lines[0]) || (!Recognized(lines[0]) && NameFirst(lines[1..]))
  }

  /**
    The invariant of the names proof: a non-empty field map holds a name,
    and an empty one is followed by no field line before the next name line.
   */
  predicate NamedBefore(st: ParseState, lines: seq<string>) {
    (st.current != map[] ==> NAME in st.current) && (st.current == map[] ==> NameFirst(lines))
  }

  /** Lines other than name lines never remove or change the name, and never empty the map. */
  lemma SetFieldKeepsName(current: map<string, Value>, line: string, next: map<string, Value>,
                          timezone: Option<string>, dateFormat: Option<string>, cal: Calendar)
    requires SetField(current, line, timezone, dateFormat, cal) == Success(next)
    ensures current.Keys <= next.Keys
    ensures NAME in current ==> NAME in next && next[NAME] == current[NAME]
  {
    if StartsWith(line, SERIAL_LABEL) || StartsWith(line, KEY_TYPE_LABEL) || StartsWith(line, DOMAINS_LABEL) {
    } else if StartsWith(line, EXPIRY_LABEL) {
      match MatchExpiry(line)
      case None =>
      case Some(captures) =>
        ExpiryFieldsOthers(current, captures.0, captures.1, next, timezone, dateFormat, cal);
        assert FieldValue(next, NAME) == FieldValue(current, NAME);
    }
  }

  lemma NameLineStep(st: ParseState, raw: string, timezone: Option<string>, dateFormat: Option<string>, cal: Calendar)
    requires IsNameLine(raw)
    ensures Step(st, raw, timezone, dateFormat, cal)
         == Success(ParseState(Flushed(st), map[NAME := Str(After(Trim(raw), NAME_LABEL))]))
  {
  }

  lemma OtherLineStep(st: ParseState, raw: string, next: ParseState,
                      timezone: Option<string>, dateFormat: Option<string>, cal: Calendar)
    requires !IsNameLine(raw) && Step(st, raw, timezone, dateFormat, cal) == Success(next)
    ensures next.certificates == st.certificates
    ensures SetField(st.current, Trim(raw), timezone, dateFormat, cal) == Success(next.current)
  {
  }

  lemma RecordNamesAppend(records: seq<Certificate>, c: Certificate)
    ensures RecordNames(records + [c]) == RecordNames(records) + [c.Get(NAME)]
  {
  }

  lemma AppendAssoc<T>(a: seq<T>, b: seq<T>, c: seq<T>)
    ensures (a + b) + c == a + (b + c)
  {
  }

  lemma StrsAppend(a: seq<string>, b: seq<string>)
    ensures Strs(a + b) == Strs(a) + Strs(b)
  {
  }

  /** One line keeps the invariant and adds its own name, if any, to the records' names. */
  lemma StepNames(st: ParseState, lines: seq<string>, next: ParseState,
                  timezone: Option<string>, dateFormat: Option<string>, cal: Calendar)
    requires lines != [] && Step(st, lines[0], timezone, dateFormat, cal) == Success(next)
    requires NamedBefore(st, lines)
    ensures NamedBefore(next, lines[1..])
    ensures RecordNames(Flushed(next)) == RecordNames(Flushed(st)) + Strs(NameLine(lines[0]))
  {
    var raw := lines[0];
    if IsNameLine(raw) {
      var n := After(Trim(raw), NAME_LABEL);
      NameLineStep(st, raw, timezone, dateFormat, cal);
      RecordNamesAppend(Flushed(st), Certificate(map[NAME := Str(n)]));
    } else if st.current == map[] {
      UnrecognizedLineIsInert(st, raw, timezone, dateFormat, cal);
    } else {
      OtherLineStep(st, raw, next, timezone, dateFormat, cal);
      SetFieldKeepsName(st.current, Trim(raw), next.current, timezone, dateFormat, cal);
      RecordNamesAppend(st.certificates, Certificate(st.current));
      RecordNamesAppend(st.certificates, Certificate(next.current));
    }
  }

  /**
    While a block holds its name, the records flushed so far, followed by
    the block in progress, carry exactly the names of the name lines read.
   */
  lemma {:induction false} RunRecordNames(st: ParseState, lines: seq<string>, final: ParseState,
                                          timezone: Option<string>, dateFormat: Option<string>, cal: Calendar)
    requires Run(st, lines, timezone, dateFormat, cal) == Success(final)
    requires NamedBefore(st, lines)
    ensures RecordNames(Flushed(final)) == RecordNames(Flushed(st)) + Strs(NameLines(lines))
    decreases |lines|
  {
    if lines == [] {
      assert final == st;
    } else {
      RunSucceeds(st, lines, final, timezone, dateFormat, cal);
      var next := Step(st, lines[0], timezone, dateFormat, cal).value;
      StepNames(st, lines, next, timezone, dateFormat, cal);
      RunRecordNames(next, lines[1..], final, timezone, dateFormat, cal);
      var before, own, after := RecordNames(Flushed(st)), Strs(NameLine(lines[0])), Strs(NameLines(lines[1..]));
      assert Strs(NameLines(lines)) == own + after by {
        StrsAppend(NameLine(lines[0]), NameLines(lines[1..]));
      }
      AppendAssoc(before, own, after);
    }
  }

  /**
    When no field line comes before the first `Certificate Name:` line, the
    parse gives one record per name line, in input order, each named by the
    trimmed text after its label.
   */
  lemma RecordsFollowNameLines(source: string, timezone: Option<string>, dateFormat: Option<string>, cal: Calendar,
                               records: seq<Certificate>)
    requires ParseCertificates(Some(source), timezone, dateFormat, cal) == Success(records)
    requires NameFirst(Explode(EOL, source))
    ensures |records| == |NameLines(Explode(EOL, source))|
    ensures forall k :: 0 <= k < |records| ==> records[k].Get(NAME) == Str(NameLines(Explode(EOL, source))[k])
  {
    var lines := Explode(EOL, source);
    if source == "" {
      assert lines == [""];
      assert !IsNameLine("");
      assert NameLines(lines) == [] by {
        assert lines[1..] == [];
      }
    } else {
      var final :| Run(INITIAL, lines, timezone, dateFormat, cal) == Success(final);
      RunRecordNames(INITIAL, lines, final, timezone, dateFormat, cal);
      assert RecordNames(Flushed(INITIAL)) == [];
      assert RecordNames(records) == Strs(NameLines(lines));
    }
  }
}
