/**
  The report `certbot certificates` prints, block by block, and what
  `parseCertbotCertificates` makes of it: one record per block, every field
  read back exactly as it was printed.
 */
module PrintedReport {
  import opened Wrappers
  import opened Php
  import opened Patterns
  import opened Dates
  import opened CertbotCertificate
  import opened ParseCertificates
  import Parser = ParseCertificates

  /** What certbot prints about one certificate. */
  datatype Block = Block(name: string, serial: string, keyType: string, domains: seq<string>,
                         expiry: string, validDays: string, certPath: string, keyPath: string)

  /** A value printed after a label: on one line, and with ends `trim` keeps. */
  predicate Clean(v: string) {
    v != [] && EOL !in v && !IsTrimChar(v[0]) && !IsTrimChar(v[|v| - 1])
  }

  /**
    The blocks certbot prints: single-line values, domain names without
    whitespace, an expiry date that starts the parenthesised note's line
    without '(' in it, and a day count made of digits.
   */
  predicate Printable(b: Block) {
    && Clean(b.name) && Clean(b.serial) && Clean(b.keyType) && Clean(b.certPath) && Clean(b.keyPath)
    && |b.domains| >= 1
    && (forall k :: 0 <= k < |b.domains| ==> b.domains[k] != [] && NoSpace(b.domains[k]))
    && Clean(JoinWith(b.domains, " "))
    && Clean(b.expiry) && '(' !in b.expiry && !IsSpace(b.expiry[0])
    && b.validDays != [] && AllDigits(b.validDays)
  }

  /** The note in parentheses after the expiry date. */
  function ExpiryNote(days: string): string {
    "VALID: " + days + " days"
  }

  function ExpiryText(b: Block): string {
    EXPIRY_LABEL + " " + b.expiry + " (" + ExpiryNote(b.validDays) + ")"
  }

  /** The seven lines of a block. */
  function BlockLines(b: Block): (lines: seq<string>)
    ensures |lines| == 7
  {
    [ NAME_LABEL + " " + b.name,
      SERIAL_LABEL + " " + b.serial,
      KEY_TYPE_LABEL + " " + b.keyType,
      DOMAINS_LABEL + " " + JoinWith(b.domains, " "),
      ExpiryText(b),
      CERT_PATH_LABEL + " " + b.certPath,
      KEY_PATH_LABEL + " " + b.keyPath ]
  }

  /** The record a block should give, `expires` being the formatted expiry date. */
  function BlockFields(b: Block, expires: string): map<string, Value>
    requires AllDigits(b.validDays)
  {
    map[NAME := Str(b.name), IDENTIFIER := Str(b.serial), KEY_TYPE := Str(b.keyType),
        DOMAINS := StringList(b.domains), EXPIRES := Str(expires),
        VALID_DAYS := Int(IntCast(b.validDays)),
        CERTIFICATE_KEY_PATH := Str(b.certPath), PRIVATE_KEY_PATH := Str(b.keyPath)]
  }

  /** A label, one space and a clean value: the line trims to itself and its remainder is the value. */
  lemma PrintedLine(tag: string, v: string)
    requires tag != [] && !IsTrimChar(tag[0]) && Clean(v)
    ensures Trim(tag + " " + v) == tag + " " + v
    ensures StartsWith(tag + " " + v, tag) && After(tag + " " + v, tag) == v
  {
    var line := tag + " " + v;
    assert [] + line + [] == line;
    TrimOfPadded([], line, []);
    assert line[..|tag|] == tag;
    assert line[|tag|..] == " " + v + [];
    TrimOfPadded(" ", v, []);
  }

  lemma NameStep(st: ParseState, b: Block, timezone: Option<string>, dateFormat: Option<string>, cal: Calendar)
    requires Clean(b.name)
    ensures Step(st, BlockLines(b)[0], timezone, dateFormat, cal) == Success(ParseState(Flushed(st), map[NAME := Str(b.name)]))
  {
    PrintedLine(NAME_LABEL, b.name);
  }

  lemma TextStep(st: ParseState, f: TextField, v: string, timezone: Option<string>, dateFormat: Option<string>, cal: Calendar)
    requires Clean(v)
    ensures Step(st, TextLabel(f) + " " + v, timezone, dateFormat, cal) == Success(st.(current := st.current[TextKey(f) := Str(v)]))
  {
    PrintedLine(TextLabel(f), v);
    TextFieldLine(st, TextLabel(f) + " " + v, f, timezone, dateFormat, cal);
  }

  lemma DomainsStep(st: ParseState, b: Block, timezone: Option<string>, dateFormat: Option<string>, cal: Calendar)
    requires Printable(b)
    ensures Step(st, BlockLines(b)[3], timezone, dateFormat, cal) == Success(st.(current := st.current[DOMAINS := StringList(b.domains)]))
  {
    var text := JoinWith(b.domains, " ");
    PrintedLine(DOMAINS_LABEL, text);
    DomainsLine(st, BlockLines(b)[3], timezone, dateFormat, cal);
    SplitJoinedTokens(b.domains);
  }

  lemma NotePrinted(days: string)
    requires days != [] && AllDigits(days)
    ensures ')' !in ExpiryNote(days)
    ensures MatchValidDays(ExpiryNote(days)) == Some(days)
  {
    var note := ExpiryNote(days);
    forall k | 0 <= k < |note| ensures note[k] != ')' {
      if 7 <= k < 7 + |days| {
        assert note[k] == days[k - 7];
      }
    }
    ValidDaysOfPrinted(days);
  }

  lemma ExpiryLineTrims(b: Block)
    requires Printable(b)
    ensures Trim(ExpiryText(b)) == ExpiryText(b)
    ensures StartsWith(ExpiryText(b), EXPIRY_LABEL)
    ensures MatchExpiry(ExpiryText(b)) == Some((b.expiry, ExpiryNote(b.validDays)))
  {
    var line := ExpiryText(b);
    assert [] + line + [] == line;
    TrimOfPadded([], line, []);
    assert line[..|EXPIRY_LABEL|] == EXPIRY_LABEL;
    NotePrinted(b.validDays);
    ExpiryOfPrinted(b.expiry, ExpiryNote(b.validDays));
  }

  lemma ExpiryFieldsPrinted(current: map<string, Value>, b: Block, timezone: Option<string>, dateFormat: Option<string>, cal: Calendar)
    requires Printable(b) && cal.format(b.expiry, timezone, dateFormat).Success?
    ensures ExpiryFields(current, b.expiry, ExpiryNote(b.validDays), timezone, dateFormat, cal)
         == Success(current[EXPIRES := Str(cal.format(b.expiry, timezone, dateFormat).value)]
                           [VALID_DAYS := Int(IntCast(b.validDays))])
  {
    assert [] + b.expiry + [] == b.expiry;
    TrimOfPadded([], b.expiry, []);
    NotePrinted(b.validDays);
  }

  lemma ExpiryBlockStep(st: ParseState, b: Block, timezone: Option<string>, dateFormat: Option<string>, cal: Calendar)
    requires Printable(b) && cal.format(b.expiry, timezone, dateFormat).Success?
    ensures Step(st, ExpiryText(b), timezone, dateFormat, cal)
         == Success(st.(current := st.current[EXPIRES := Str(cal.format(b.expiry, timezone, dateFormat).value)]
                                             [VALID_DAYS := Int(IntCast(b.validDays))]))
  {
    ExpiryLineTrims(b);
    ExpiryStep(st, ExpiryText(b), timezone, dateFormat, cal);
    ExpiryFieldsPrinted(st.current, b, timezone, dateFormat, cal);
  }

  /** A line that succeeds hands its state on to the lines after it. */
  lemma RunFrom(st: ParseState, lines: seq<string>, i: nat, next: ParseState,
                timezone: Option<string>, dateFormat: Option<string>, cal: Calendar)
    requires i < |lines| && Step(st, lines[i], timezone, dateFormat, cal) == Success(next)
    ensures Run(st, lines[i..], timezone, dateFormat, cal) == Run(next, lines[i + 1..], timezone, dateFormat, cal)
  {
    RunOneLine(st, lines, i, timezone, dateFormat, cal);
  }

  /** The name and serial lines of a block. */
  lemma BlockName(st: ParseState, b: Block, timezone: Option<string>, dateFormat: Option<string>, cal: Calendar)
    requires Clean(b.name) && Clean(b.serial)
    ensures Run(st, BlockLines(b), timezone, dateFormat, cal)
         == Run(ParseState(Flushed(st), map[NAME := Str(b.name)][IDENTIFIER := Str(b.serial)]),
                BlockLines(b)[2..], timezone, dateFormat, cal)
  {
    var lines := BlockLines(b);
    var s1 := ParseState(Flushed(st), map[NAME := Str(b.name)]);
    NameStep(st, b, timezone, dateFormat, cal);
    RunFrom(st, lines, 0, s1, timezone, dateFormat, cal);
    TextRun(s1, lines, 1, SerialNumber, b.serial, timezone, dateFormat, cal);
    assert lines[0..] == lines;
  }

  /** The key type and domains lines of a block. */
  lemma BlockKeyDomains(s: ParseState, b: Block, timezone: Option<string>, dateFormat: Option<string>, cal: Calendar)
    requires Printable(b)
    ensures Run(s, BlockLines(b)[2..], timezone, dateFormat, cal)
         == Run(s.(current := s.current[KEY_TYPE := Str(b.keyType)][DOMAINS := StringList(b.domains)]),
                BlockLines(b)[4..], timezone, dateFormat, cal)
  {
    var lines := BlockLines(b);
    var s3 := s.(current := s.current[KEY_TYPE := Str(b.keyType)]);
    TextRun(s, lines, 2, KeyType, b.keyType, timezone, dateFormat, cal);
    DomainsStep(s3, b, timezone, dateFormat, cal);
    RunFrom(s3, lines, 3, s3.(current := s3.current[DOMAINS := StringList(b.domains)]), timezone, dateFormat, cal);
  }

  /** The name, serial, key type and domains lines of a block. */
  lemma BlockHead(st: ParseState, b: Block, timezone: Option<string>, dateFormat: Option<string>, cal: Calendar)
    requires Printable(b)
    ensures Run(st, BlockLines(b), timezone, dateFormat, cal)
         == Run(ParseState(Flushed(st), map[NAME := Str(b.name), IDENTIFIER := Str(b.serial), KEY_TYPE := Str(b.keyType),
                                           DOMAINS := StringList(b.domains)]),
                BlockLines(b)[4..], timezone, dateFormat, cal)
  {
    BlockName(st, b, timezone, dateFormat, cal);
    BlockKeyDomains(ParseState(Flushed(st), map[NAME := Str(b.name)][IDENTIFIER := Str(b.serial)]), b, timezone, dateFormat, cal);
  }

  /** The expiry line of a block. */
  lemma BlockExpiry(s: ParseState, b: Block, timezone: Option<string>, dateFormat: Option<string>, cal: Calendar)
    requires Printable(b) && cal.format(b.expiry, timezone, dateFormat).Success?
    ensures Run(s, BlockLines(b)[4..], timezone, dateFormat, cal)
         == Run(s.(current := s.current[EXPIRES := Str(cal.format(b.expiry, timezone, dateFormat).value)]
                                       [VALID_DAYS := Int(IntCast(b.validDays))]),
                BlockLines(b)[5..], timezone, dateFormat, cal)
  {
    var next := s.(current := s.current[EXPIRES := Str(cal.format(b.expiry, timezone, dateFormat).value)]
                                       [VALID_DAYS := Int(IntCast(b.validDays))]);
    ExpiryBlockStep(s, b, timezone, dateFormat, cal);
    RunFrom(s, BlockLines(b), 4, next, timezone, dateFormat, cal);
  }

  /** A text-field line of a block, inside the fold. */
  lemma TextRun(s: ParseState, lines: seq<string>, i: nat, f: TextField, v: string,
                timezone: Option<string>, dateFormat: Option<string>, cal: Calendar)
    requires i < |lines| && lines[i] == TextLabel(f) + " " + v && Clean(v)
    ensures Run(s, lines[i..], timezone, dateFormat, cal)
         == Run(s.(current := s.current[TextKey(f) := Str(v)]), lines[i + 1..], timezone, dateFormat, cal)
  {
    TextStep(s, f, v, timezone, dateFormat, cal);
    RunFrom(s, lines, i, s.(current := s.current[TextKey(f) := Str(v)]), timezone, dateFormat, cal);
  }

  /** The two path lines of a block. */
  lemma BlockPaths(s: ParseState, b: Block, timezone: Option<string>, dateFormat: Option<string>, cal: Calendar)
    requires Clean(b.certPath) && Clean(b.keyPath)
    ensures Run(s, BlockLines(b)[5..], timezone, dateFormat, cal)
         == Success(s.(current := s.current[CERTIFICATE_KEY_PATH := Str(b.certPath)][PRIVATE_KEY_PATH := Str(b.keyPath)]))
  {
    var lines := BlockLines(b);
    var s6 := s.(current := s.current[CERTIFICATE_KEY_PATH := Str(b.certPath)]);
    TextRun(s, lines, 5, CertificatePath, b.certPath, timezone, dateFormat, cal);
    TextRun(s6, lines, 6, PrivateKeyPath, b.keyPath, timezone, dateFormat, cal);
    assert lines[7..] == [];
  }

  /** The seven lines of a printed block close the record before them and fill in a new one. */
  lemma BlockRun(st: ParseState, b: Block, timezone: Option<string>, dateFormat: Option<string>, cal: Calendar)
    requires Printable(b) && cal.format(b.expiry, timezone, dateFormat).Success?
    ensures Run(st, BlockLines(b), timezone, dateFormat, cal)
         == Success(ParseState(Flushed(st), BlockFields(b, cal.format(b.expiry, timezone, dateFormat).value)))
  {
    var s4 := ParseState(Flushed(st), map[NAME := Str(b.name), IDENTIFIER := Str(b.serial), KEY_TYPE := Str(b.keyType),
                                          DOMAINS := StringList(b.domains)]);
    BlockHead(st, b, timezone, dateFormat, cal);
    var s5 := s4.(current := s4.current[EXPIRES := Str(cal.format(b.expiry, timezone, dateFormat).value)]
                                         [VALID_DAYS := Int(IntCast(b.validDays))]);
    BlockExpiry(s4, b, timezone, dateFormat, cal);
    BlockPaths(s5, b, timezone, dateFormat, cal);
  }

  // ------ Whole reports

  /** The lines of `a` then those of `b`: the fold over `b` starts where the fold over `a` ended. */
  lemma {:induction false} RunAppend(st: ParseState, a: seq<string>, b: seq<string>,
                                     timezone: Option<string>, dateFormat: Option<string>, cal: Calendar)
    ensures Run(st, a + b, timezone, dateFormat, cal) ==
      match Run(st, a, timezone, dateFormat, cal)
      case Failure(e) => Failure(e)
      case Success(mid) => Run(mid, b, timezone, dateFormat, cal)
    decreases |a|
  {
    if a == [] {
      assert a + b == b;
    } else {
      assert (a + b)[0] == a[0] && (a + b)[1..] == a[1..] + b;
      match Step(st, a[0], timezone, dateFormat, cal)
      case Failure(e) =>
      case Success(next) => RunAppend(next, a[1..], b, timezone, dateFormat, cal);
    }
  }

  /** The blocks' lines one after the other. */
  function BlockReport(blocks: seq<Block>): (lines: seq<string>)
    ensures |lines| == 7 * |blocks|
    decreases |blocks|
  {
    if blocks == [] then [] else BlockLines(blocks[0]) + BlockReport(blocks[1..])
  }

  /** Blocks certbot prints, with dates `formatDateTime` accepts. */
  predicate Dated(blocks: seq<Block>, timezone: Option<string>, dateFormat: Option<string>, cal: Calendar)
    decreases |blocks|
  {
    blocks == [] ||
    (Printable(blocks[0]) && cal.format(blocks[0].expiry, timezone, dateFormat).Success?
     && Dated(blocks[1..], timezone, dateFormat, cal))
  }

  /** The records the blocks should give, in order. */
  function Records(blocks: seq<Block>, timezone: Option<string>, dateFormat: Option<string>, cal: Calendar)
    : (records: seq<Certificate>)
    requires Dated(blocks, timezone, dateFormat, cal)
    ensures |records| == |blocks|
    decreases |blocks|
  {
    if blocks == [] then []
    else [Certificate(BlockFields(blocks[0], cal.format(blocks[0].expiry, timezone, dateFormat).value))]
         + Records(blocks[1..], timezone, dateFormat, cal)
  }

  /** A printed block followed by more lines. */
  lemma BlockThen(st: ParseState, b: Block, more: seq<string>,
                  timezone: Option<string>, dateFormat: Option<string>, cal: Calendar)
    requires Printable(b) && cal.format(b.expiry, timezone, dateFormat).Success?
    ensures Run(st, BlockLines(b) + more, timezone, dateFormat, cal)
         == Run(ParseState(Flushed(st), BlockFields(b, cal.format(b.expiry, timezone, dateFormat).value)), more,
                timezone, dateFormat, cal)
  {
    RunAppend(st, BlockLines(b), more, timezone, dateFormat, cal);
    BlockRun(st, b, timezone, dateFormat, cal);
  }

  /** The parse state after the blocks: each one flushes the record before it and fills in its own. */
  function AfterBlocks(st: ParseState, blocks: seq<Block>, timezone: Option<string>, dateFormat: Option<string>, cal: Calendar)
    : ParseState
    requires Dated(blocks, timezone, dateFormat, cal)
    decreases |blocks|
  {
    if blocks == [] then st
    else
      AfterBlocks(ParseState(Flushed(st), BlockFields(blocks[0], cal.format(blocks[0].expiry, timezone, dateFormat).value)),
                  blocks[1..], timezone, dateFormat, cal)
  }

  lemma {:induction false} RunBlocks(st: ParseState, blocks: seq<Block>,
                                     timezone: Option<string>, dateFormat: Option<string>, cal: Calendar)
    requires Dated(blocks, timezone, dateFormat, cal)
    ensures Run(st, BlockReport(blocks), timezone, dateFormat, cal) == Success(AfterBlocks(st, blocks, timezone, dateFormat, cal))
    decreases |blocks|
  {
    if blocks != [] {
      var b := blocks[0];
      var fields := BlockFields(b, cal.format(b.expiry, timezone, dateFormat).value);
      BlockThen(st, b, BlockReport(blocks[1..]), timezone, dateFormat, cal);
      RunBlocks(ParseState(Flushed(st), fields), blocks[1..], timezone, dateFormat, cal);
    }
  }

  /** Each printed block adds its own record after those already flushed. */
  lemma FieldsNamed(b: Block, expires: string)
    requires AllDigits(b.validDays)
    ensures BlockFields(b, expires) != map[]
  {
    assert NAME in BlockFields(b, expires);
  }

  lemma {:induction false} AfterBlocksRecords(st: ParseState, blocks: seq<Block>,
                                              timezone: Option<string>, dateFormat: Option<string>, cal: Calendar)
    requires Dated(blocks, timezone, dateFormat, cal)
    ensures Flushed(AfterBlocks(st, blocks, timezone, dateFormat, cal)) == Flushed(st) + Records(blocks, timezone, dateFormat, cal)
    decreases |blocks|
  {
    if blocks == [] {
      assert Flushed(st) + [] == Flushed(st);
    } else {
      var b := blocks[0];
      var fields := BlockFields(b, cal.format(b.expiry, timezone, dateFormat).value);
      FieldsNamed(b, cal.format(b.expiry, timezone, dateFormat).value);
      AfterBlocksRecords(ParseState(Flushed(st), fields), blocks[1..], timezone, dateFormat, cal);
    }
  }

  /** The header lines change nothing; then the blocks are read one after the other. */
  lemma ReportRun(header: seq<string>, blocks: seq<Block>,
                  timezone: Option<string>, dateFormat: Option<string>, cal: Calendar)
    requires forall k :: 0 <= k < |header| ==> !Recognized(header[k])
    requires Dated(blocks, timezone, dateFormat, cal)
    ensures Run(INITIAL, header + BlockReport(blocks), timezone, dateFormat, cal)
         == Success(AfterBlocks(INITIAL, blocks, timezone, dateFormat, cal))
  {
    RunAppend(INITIAL, header, BlockReport(blocks), timezone, dateFormat, cal);
    NoLabelNoRecords(INITIAL, header, timezone, dateFormat, cal);
    RunBlocks(INITIAL, blocks, timezone, dateFormat, cal);
  }

  lemma ReportSingleLines(header: seq<string>, blocks: seq<Block>,
                          timezone: Option<string>, dateFormat: Option<string>, cal: Calendar)
    requires forall k :: 0 <= k < |header| ==> EOL !in header[k]
    requires Dated(blocks, timezone, dateFormat, cal)
    ensures forall k :: 0 <= k < |header + BlockReport(blocks)| ==> EOL !in (header + BlockReport(blocks))[k]
  {
    ReportLinesSingle(blocks, timezone, dateFormat, cal);
  }

  /**
    A report of printed blocks behind any header lines that carry no label
    parses to exactly the blocks' records, in order.
   */
  lemma ReportParses(header: seq<string>, blocks: seq<Block>,
                     timezone: Option<string>, dateFormat: Option<string>, cal: Calendar)
    requires forall k :: 0 <= k < |header| ==> EOL !in header[k] && !Recognized(header[k])
    requires Dated(blocks, timezone, dateFormat, cal)
    ensures Parser.ParseCertificates(Some(JoinWith(header + BlockReport(blocks), [EOL])), timezone, dateFormat, cal)
         == Success(Records(blocks, timezone, dateFormat, cal))
  {
    if blocks == [] {
      assert header + BlockReport(blocks) == header;
      HeaderOnly(header, timezone, dateFormat, cal);
      assert Records(blocks, timezone, dateFormat, cal) == [];
    } else {
      var lines := header + BlockReport(blocks);
      var final := AfterBlocks(INITIAL, blocks, timezone, dateFormat, cal);
      ReportSingleLines(header, blocks, timezone, dateFormat, cal);
      ReportRun(header, blocks, timezone, dateFormat, cal);
      ParseOfRun(lines, final, timezone, dateFormat, cal);
      AfterBlocksRecords(INITIAL, blocks, timezone, dateFormat, cal);
      assert Flushed(INITIAL) == [];
      assert Flushed(final) == Records(blocks, timezone, dateFormat, cal);
    }
  }

  lemma HeaderOnly(header: seq<string>, timezone: Option<string>, dateFormat: Option<string>, cal: Calendar)
    requires forall k :: 0 <= k < |header| ==> EOL !in header[k] && !Recognized(header[k])
    ensures Parser.ParseCertificates(Some(JoinWith(header, [EOL])), timezone, dateFormat, cal) == Success([])
  {
    if header != [] {
      ExplodeJoin(EOL, header);
      NoLabelEmptyResult(JoinWith(header, [EOL]), timezone, dateFormat, cal);
    }
  }

  /** Lines without a line break, joined with line breaks, are parsed line by line. */
  lemma ParseOfRun(lines: seq<string>, final: ParseState, timezone: Option<string>, dateFormat: Option<string>, cal: Calendar)
    requires |lines| >= 2
    requires forall k :: 0 <= k < |lines| ==> EOL !in lines[k]
    requires Run(INITIAL, lines, timezone, dateFormat, cal) == Success(final)
    ensures Parser.ParseCertificates(Some(JoinWith(lines, [EOL])), timezone, dateFormat, cal) == Success(Flushed(final))
  {
    ExplodeJoin(EOL, lines);
    assert JoinWith(lines, [EOL]) != "" by {
      assert Explode(EOL, "") == [""];
    }
  }

  lemma {:induction false} ReportLinesSingle(blocks: seq<Block>, timezone: Option<string>, dateFormat: Option<string>, cal: Calendar)
    requires Dated(blocks, timezone, dateFormat, cal)
    ensures forall k :: 0 <= k < |BlockReport(blocks)| ==> EOL !in BlockReport(blocks)[k]
    decreases |blocks|
  {
    if blocks != [] {
      var rest := blocks[1..];
      ReportLinesSingle(rest, timezone, dateFormat, cal);
      BlockLinesSingle(blocks[0]);
    }
  }

  lemma BlockLinesSingle(b: Block)
    requires Printable(b)
    ensures forall k :: 0 <= k < 7 ==> EOL !in BlockLines(b)[k]
  {
    ExpirySingle(b);
  }

  lemma ExpirySingle(b: Block)
    requires Printable(b)
    ensures EOL !in ExpiryText(b)
  {
    var note := ExpiryNote(b.validDays);
    forall k | 0 <= k < |note| ensures note[k] != EOL {
      if 7 <= k < 7 + |b.validDays| {
        assert note[k] == b.validDays[k - 7];
      }
    }
  }

  // ------ The example of the documentation

  const DOC_HEADER: seq<string> := ["Found the following certs:"]

  const LIVE: string := "/etc/letsencrypt/live/"

  const EXAMPLE_BLOCK: Block :=
    Block("example.com", "1234567890abcdef", "ECDSA", ["example.com", "www.example.com"],
          "2025-10-12 10:15:56+00:00", "66",
          LIVE + "example.com" + "/fullchain.pem", LIVE + "example.com" + "/privkey.pem")

  const TEST_BLOCK: Block :=
    Block("test.com", "abcdef1234567890", "RSA", ["test.com"],
          "2025-11-04 17:38:48+00:00", "89",
          LIVE + "test.com" + "/fullchain.pem", LIVE + "test.com" + "/privkey.pem")

  lemma LivePath(domain: string, file: string)
    requires EOL !in domain && EOL !in file && file != [] && !IsTrimChar(file[|file| - 1])
    ensures Clean(LIVE + domain + file)
  {
    var path := LIVE + domain + file;
    assert path[0] == LIVE[0];
    assert path[|path| - 1] == file[|file| - 1];
  }

  lemma PlainName(v: string)
    requires v == "example.com" || v == "www.example.com" || v == "test.com"
    ensures Clean(v) && NoSpace(v)
  {
  }

  lemma PlainText(v: string)
    requires v == "1234567890abcdef" || v == "abcdef1234567890" || v == "ECDSA" || v == "RSA"
    ensures Clean(v)
  {
  }

  lemma ExampleDate()
    ensures var v := EXAMPLE_BLOCK.expiry; Clean(v) && '(' !in v && !IsSpace(v[0])
  {
  }

  lemma TestDate()
    ensures var v := TEST_BLOCK.expiry; Clean(v) && '(' !in v && !IsSpace(v[0])
  {
  }

  lemma ExampleDomains()
    ensures JoinWith(["example.com", "www.example.com"], " ") == "example.com" + " " + "www.example.com"
    ensures Clean("example.com" + " " + "www.example.com")
  {
    assert ["example.com", "www.example.com"][1..] == ["www.example.com"];
    PlainName("example.com");
    PlainName("www.example.com");
    var text := "example.com" + " " + "www.example.com";
    assert text[0] == 'e' && text[|text| - 1] == 'm';
  }

  lemma ExampleBlockPrintable()
    ensures Printable(EXAMPLE_BLOCK)
  {
    PlainName("example.com");
    PlainName("www.example.com");
    PlainText("1234567890abcdef");
    PlainText("ECDSA");
    ExampleDate();
    ExampleDomains();
    LivePath("example.com", "/fullchain.pem");
    LivePath("example.com", "/privkey.pem");
  }

  lemma TestBlockPrintable()
    ensures Printable(TEST_BLOCK)
  {
    PlainName("test.com");
    PlainText("abcdef1234567890");
    PlainText("RSA");
    TestDate();
    LivePath("test.com", "/fullchain.pem");
    LivePath("test.com", "/privkey.pem");
  }

  /** A line whose first character differs from a label's does not start with it. */
  lemma FirstCharDiffers(line: string, tag: string)
    requires line != [] && tag != [] && line[0] != tag[0]
    ensures !StartsWith(line, tag)
  {
  }

  /** A line that trims to itself and starts with no label's first letter carries no label. */
  lemma InertLine(line: string)
    requires Trim(line) == line && line != [] && line[0] !in {'C', 'S', 'K', 'D', 'E', 'P'}
    ensures !Recognized(line)
  {
    FirstCharDiffers(line, NAME_LABEL);
    FirstCharDiffers(line, SERIAL_LABEL);
    FirstCharDiffers(line, KEY_TYPE_LABEL);
    FirstCharDiffers(line, DOMAINS_LABEL);
    FirstCharDiffers(line, EXPIRY_LABEL);
    FirstCharDiffers(line, CERT_PATH_LABEL);
    FirstCharDiffers(line, KEY_PATH_LABEL);
  }

  lemma DocHeaderInert()
    ensures forall k :: 0 <= k < |DOC_HEADER| ==> EOL !in DOC_HEADER[k] && !Recognized(DOC_HEADER[k])
  {
    var line := DOC_HEADER[0];
    assert [] + line + [] == line;
    TrimOfPadded([], line, []);
    InertLine(line);
  }

  /** Two printed blocks behind an inert header give their two records. */
  lemma TwoBlocks(header: seq<string>, b1: Block, b2: Block,
                  timezone: Option<string>, dateFormat: Option<string>, cal: Calendar)
    requires forall k :: 0 <= k < |header| ==> EOL !in header[k] && !Recognized(header[k])
    requires Printable(b1) && cal.format(b1.expiry, timezone, dateFormat).Success?
    requires Printable(b2) && cal.format(b2.expiry, timezone, dateFormat).Success?
    ensures Parser.ParseCertificates(Some(JoinWith(header + BlockReport([b1, b2]), [EOL])), timezone, dateFormat, cal)
         == Success([Certificate(BlockFields(b1, cal.format(b1.expiry, timezone, dateFormat).value)),
                     Certificate(BlockFields(b2, cal.format(b2.expiry, timezone, dateFormat).value))])
  {
    RecordsOfTwo(b1, b2, timezone, dateFormat, cal);
    ReportParses(header, [b1, b2], timezone, dateFormat, cal);
  }

  lemma RecordsOfTwo(b1: Block, b2: Block, timezone: Option<string>, dateFormat: Option<string>, cal: Calendar)
    requires Printable(b1) && cal.format(b1.expiry, timezone, dateFormat).Success?
    requires Printable(b2) && cal.format(b2.expiry, timezone, dateFormat).Success?
    ensures Dated([b1, b2], timezone, dateFormat, cal)
    ensures Records([b1, b2], timezone, dateFormat, cal)
         == [Certificate(BlockFields(b1, cal.format(b1.expiry, timezone, dateFormat).value)),
             Certificate(BlockFields(b2, cal.format(b2.expiry, timezone, dateFormat).value))]
  {
    var blocks := [b1, b2];
    assert blocks[1..] == [b2] && blocks[1..][1..] == [];
    assert Dated(blocks, timezone, dateFormat, cal);
    assert Records([], timezone, dateFormat, cal) == [];
  }

  lemma DaysValues(e1: string, e2: string)
    ensures BlockFields(EXAMPLE_BLOCK, e1)[VALID_DAYS] == Int(66)
    ensures BlockFields(TEST_BLOCK, e2)[VALID_DAYS] == Int(89)
  {
    assert "66"[..1] == "6" && "6"[..0] == "";
    assert "89"[..1] == "8" && "8"[..0] == "";
  }

  /**
    The report shown in the documentation of `parseCertbotCertificates`
    gives two records, `example.com` and `test.com`, each with the fields
    printed in its block and `expires` the formatted expiry date; the day
    counts read back as 66 and 89.
   */
  lemma DocExample(timezone: Option<string>, dateFormat: Option<string>, cal: Calendar)
    requires cal.format(EXAMPLE_BLOCK.expiry, timezone, dateFormat).Success?
    requires cal.format(TEST_BLOCK.expiry, timezone, dateFormat).Success?
    ensures Parser.ParseCertificates(Some(JoinWith(DOC_HEADER + BlockReport([EXAMPLE_BLOCK, TEST_BLOCK]), [EOL])),
                                     timezone, dateFormat, cal)
         == Success([Certificate(BlockFields(EXAMPLE_BLOCK, cal.format(EXAMPLE_BLOCK.expiry, timezone, dateFormat).value)),
                     Certificate(BlockFields(TEST_BLOCK, cal.format(TEST_BLOCK.expiry, timezone, dateFormat).value))])
    ensures BlockFields(EXAMPLE_BLOCK, cal.format(EXAMPLE_BLOCK.expiry, timezone, dateFormat).value)[VALID_DAYS] == Int(66)
    ensures BlockFields(TEST_BLOCK, cal.format(TEST_BLOCK.expiry, timezone, dateFormat).value)[VALID_DAYS] == Int(89)
  {
    ExampleBlockPrintable();
    TestBlockPrintable();
    DocHeaderInert();
    TwoBlocks(DOC_HEADER, EXAMPLE_BLOCK, TEST_BLOCK, timezone, dateFormat, cal);
    DaysValues(cal.format(EXAMPLE_BLOCK.expiry, timezone, dateFormat).value, cal.format(TEST_BLOCK.expiry, timezone, dateFormat).value);
  }
}
