# certbot wrapper — a Dafny model

This project models the logic core of a PHP wrapper around the `certbot`
command-line client:

- **The report parser** `parseCertbotCertificates`. It reads the text that `certbot certificates` prints and turns it into one certificate record per `Certificate Name:` block. The model has the line loop as a method and the same parse as a fold of a one-line `Step` function. It proves that the method computes the fold, and it states the properties of the parse as lemmas about the fold:
  - label dispatch;
  - record flushing and record order;
  - the whitespace split of `Domains:`;
  - the two regular expressions of `Expiry Date:`;
  - a complete printed report parsed back to its records.
- **The certificate entity** `CertbotCertificate`: its field map, keyed by the property-name constants, and its two validity predicates `isExpired` and `isValid`. Instants are integers; the time-zone database, date parsing and the clock are a `Calendar` parameter. Both predicates are functions, so neither can change the record.
- **The flag naming tables** `getCommandOption` and `getCommandPrefix` of `CertbotOption`.
- **`getCertbotDomains`**: a domain and an optional subdomain become the list of names a certificate is requested for.
- **The subcommand façade**: the `certificates`, `certonly`, `renew`, `revoke` and `delete` traits. It is modelled as a class `Certbot`:
  - The class holds the five stored option values, with the initializer methods that set them.
  - The lookup method runs a first-match search loop.
  - Each subcommand method returns a description of the process call it makes. The description gives the subcommand, the ordered option layers handed to `resolve`, and the sudo/silent/verbose/dry-run flags. What the process gives back (exit status, output) is an input.

Modules:

- `Wrappers`: Option and Result.
- `Php`: `trim`, `strtolower`, `explode`, `implode`, `empty` and `(int)`.
- `Patterns`: `preg_split('/\s+/')` and the two `preg_match` patterns.
- `Dates`: the date collaborators.
- `CertbotCertificate`.
- `CertbotOption`.
- `CertbotDomains`.
- `ParseCertificates`.
- `PrintedReport`: what certbot prints, and the parse of it.
- `CertbotCommands`.

Where a plain description and the code disagree, the model follows the code:

- `isExpired` compares with `<=` and `isValid` with `>`. Both are read in the same order, so whenever both return a value they are complements, at the expiry instant too. The only exception is an empty or `"0"` reference text: `isExpired` reads it as "now" (`?:`) and `isValid` does not (`??`).
- The documented `certbot certonly` example writes `--email` and `--quiet`. The flag table gives `-m` and `-q` for those keys.

## Model

| member | source | states |
|---|---|---|
| Php.Trim | src/oihana/certbot/helpers/parseCertbotCertificates.php:74 | the result is no longer than the input and neither starts nor ends with a character of the default trim set |
| Php.TrimOfPadded | src/oihana/certbot/helpers/parseCertbotCertificates.php:74 | trim removes exactly the trim-character padding around a text whose ends are not trim characters |
| Php.TrimIgnoresPadding | src/oihana/certbot/helpers/parseCertbotCertificates.php:74 | trim of a text is unchanged by any extra trim characters added before or after it |
| Php.ToLower | src/oihana/certbot/helpers/getCertbotDomains.php:22-23 | strtolower keeps the length and lowers each ASCII capital, position by position |
| Php.FindChar | src/oihana/certbot/helpers/parseCertbotCertificates.php:68 | the index of the first separator, or the length when the text has none |
| Php.Explode | src/oihana/certbot/helpers/parseCertbotCertificates.php:68 | explode gives at least one piece and no piece contains the separator |
| Php.JoinExplode | src/oihana/certbot/helpers/parseCertbotCertificates.php:68 | joining the pieces of explode with the separator gives the original text back |
| Php.ExplodeJoin | src/oihana/certbot/helpers/parseCertbotCertificates.php:68 | exploding a join of separator-free pieces gives the pieces back |
| Php.IntCast | src/oihana/certbot/helpers/parseCertbotCertificates.php:105 | `(int)` of a digit string is its decimal value, saturated at PHP_INT_MAX |
| Patterns.SpaceRun | src/oihana/certbot/helpers/parseCertbotCertificates.php:95 | the longest whitespace prefix: all `\s`, followed by a non-`\s` or the end |
| Patterns.TokenRun | src/oihana/certbot/helpers/parseCertbotCertificates.php:95 | the longest whitespace-free prefix: no `\s`, followed by a `\s` or the end |
| Patterns.DigitRun | src/oihana/certbot/helpers/parseCertbotCertificates.php:103 | the longest digit prefix: all digits, followed by a non-digit or the end |
| Patterns.SplitOnWhitespace | src/oihana/certbot/helpers/parseCertbotCertificates.php:95 | preg_split on `\s+` gives at least one piece and no piece holds whitespace |
| Patterns.CollapseKeepsToken | src/oihana/certbot/helpers/parseCertbotCertificates.php:95 | collapsing whitespace leaves a leading whitespace-free token unchanged |
| Patterns.SplitOnWhitespaceJoins | src/oihana/certbot/helpers/parseCertbotCertificates.php:95 | the pieces joined with single spaces are the text with each whitespace run collapsed to one space |
| Patterns.SplitOnWhitespaceNonEmpty | src/oihana/certbot/helpers/parseCertbotCertificates.php:95 | on a text that neither starts nor ends with whitespace, every piece is non-empty |
| Patterns.SplitOnWhitespaceEmpty | src/oihana/certbot/helpers/parseCertbotCertificates.php:95 | splitting the empty string gives one empty piece |
| Patterns.SplitJoinedTokens | src/oihana/certbot/helpers/parseCertbotCertificates.php:95 | splitting non-empty whitespace-free tokens joined by single spaces gives the tokens back |
| Patterns.ExpiryMatchSound | src/oihana/certbot/helpers/parseCertbotCertificates.php:99 | an anchored expiry match has the shape label, `\s+`, a text without '(', `\s+`, '(' then a text without ')' then ')' |
| Patterns.ExpiryMatchComplete | src/oihana/certbot/helpers/parseCertbotCertificates.php:99 | every text of that shape is matched, and the parenthesised text is the second capture |
| Patterns.SearchExpiry | src/oihana/certbot/helpers/parseCertbotCertificates.php:99 | an unanchored match is the anchored match at some position at or after the start |
| Patterns.MatchExpiryAtStart | src/oihana/certbot/helpers/parseCertbotCertificates.php:99 | a match anchored at the first position is the one the search returns |
| Patterns.SearchExpiryNone | src/oihana/certbot/helpers/parseCertbotCertificates.php:99 | a failed search means no position starts a match |
| Patterns.ExpiryOfPrinted | src/oihana/certbot/helpers/parseCertbotCertificates.php:99 | the expiry line certbot prints is matched, with the date and the note as the two captures |
| Patterns.MatchValidDaysHere | src/oihana/certbot/helpers/parseCertbotCertificates.php:103 | an anchored validity match captures a non-empty digit string |
| Patterns.ValidDaysMatchSound | src/oihana/certbot/helpers/parseCertbotCertificates.php:103 | an anchored validity match has the shape "VALID:" in any case, `\s*`, digits, `\s*`, "days" in any case |
| Patterns.ValidDaysMatchComplete | src/oihana/certbot/helpers/parseCertbotCertificates.php:103 | every text of that shape is matched and exactly its digits are captured |
| Patterns.SearchValidDays | src/oihana/certbot/helpers/parseCertbotCertificates.php:103 | an unanchored validity match is an anchored match at some position and captures digits |
| Patterns.SearchValidDaysFinds | src/oihana/certbot/helpers/parseCertbotCertificates.php:103 | wherever the validity pattern occurs, the search finds a match |
| Patterns.ValidDaysOfPrinted | src/oihana/certbot/helpers/parseCertbotCertificates.php:103 | "VALID: N days" yields exactly the digits N |
| Dates.ZoneName | src/oihana/certbot/entities/CertbotCertificate.php:73 | a given zone is used as it is; a missing one is Europe/Paris |
| CertbotCertificate.ReferenceInstant | src/oihana/certbot/entities/CertbotCertificate.php:111-125 | an instant reference is used as it is, and a failed reference read is a malformed-date error |
| CertbotCertificate.ParseInstant | src/oihana/certbot/entities/CertbotCertificate.php:127-134 | reading a date text succeeds exactly when the calendar knows it, and otherwise fails with that text |
| CertbotCertificate.IsExpired | src/oihana/certbot/entities/CertbotCertificate.php:66-82 | a missing, non-string or blank expiry is expired; otherwise it answers iff the zone is known and both the reference (a falsy text read as "now") and the expiry read, and the answer is expiry <= reference; a time-zone failure means the zone is unknown |
| CertbotCertificate.IsValid | src/oihana/certbot/entities/CertbotCertificate.php:95-137 | a missing, non-string or blank expiry is not valid; otherwise it answers iff the zone is known and both the reference and the expiry read, and the answer is reference < expiry; a time-zone failure means the zone is unknown |
| CertbotCertificate.ComparesInstants | src/oihana/certbot/entities/CertbotCertificate.php:66-137 | for any reference (object, text or none) whose instant reads, expired iff expiry <= reference and valid iff reference < expiry; at the expiry instant it is expired and not valid |
| CertbotCertificate.ComparesWithInstantAndNow | src/oihana/certbot/entities/CertbotCertificate.php:66-137 | an instant reference is compared as it is, and no reference is compared with the instant "now" reads |
| CertbotCertificate.ValidIsNotExpired | src/oihana/certbot/entities/CertbotCertificate.php:127-136 | for any reference except a falsy text, the two predicates fail together with the same error, or return opposite answers |
| CertbotCertificate.ExpiredStaysExpired | src/oihana/certbot/entities/CertbotCertificate.php:79-81 | expired at an instant means expired and not valid at every later instant |
| CertbotCertificate.FalsyReferenceMeansNow | src/oihana/certbot/entities/CertbotCertificate.php:75-77 | isExpired reads an empty or "0" reference text as "now", the same as no reference |
| CertbotCertificate.DefaultZoneIsParis | src/oihana/certbot/entities/CertbotCertificate.php:104 | no time zone gives the same answers as Europe/Paris, for both predicates |
| CertbotCertificate.UnknownZoneFailsFirst | src/oihana/certbot/entities/CertbotCertificate.php:102-109 | with a non-blank expiry and an unknown zone, both predicates fail with an invalid-time-zone error, even for an instant reference |
| CertbotCertificate.MalformedDatesReported | src/oihana/certbot/entities/CertbotCertificate.php:117-134 | a malformed reference text is reported before the expiry; a malformed expiry is reported with the stored text |
| CertbotOption.CommandOption | src/oihana/certbot/options/CertbotOption.php:167-183 | the ten short keys map to their letter, every other key to its hyphenated spelling |
| CertbotOption.CommandPrefix | src/oihana/certbot/options/CertbotOption.php:191-207 | the prefix is "-" exactly for the ten short keys and "--" exactly for all others |
| CertbotOption.PrefixMatchesToken | src/oihana/certbot/options/CertbotOption.php:169-206 | the two tables agree: a single hyphen is used iff the token is the key's letter, so it always carries one letter |
| CertbotOption.ShortLettersDistinct | src/oihana/certbot/options/CertbotOption.php:171-180 | no two short keys share a letter |
| CertbotOption.ExampleLongFlags | src/oihana/certbot/traits/CertbotCertOnlyTrait.php:32 | `rsaKeySize`, `agreeTos` and `webroot` render as `--rsa-key-size`, `--agree-tos` and `--webroot` |
| CertbotOption.ExampleShortFlags | src/oihana/certbot/traits/CertbotCertOnlyTrait.php:32 | `webrootPath` and `domains` render as `-w` and `-d`; `email` and `quiet` render as `-m` and `-q` |
| CertbotDomains.Normalize | src/oihana/certbot/helpers/getCertbotDomains.php:22-23 | the result is the trimmed text with each ASCII capital lowered, position by position; it neither starts nor ends with a trim character and is never longer than the input |
| CertbotDomains.GetCertbotDomains | src/oihana/certbot/helpers/getCertbotDomains.php:20-49 | fails iff the domain check fails, is null iff the check rejects the domain, and otherwise lists one or two names that each end with the normalised domain |
| CertbotDomains.DomainsBySubdomain | src/oihana/certbot/helpers/getCertbotDomains.php:34-46 | subdomain www gives [d, "www." + d]; another non-empty subdomain gives [sub + "." + d]; none gives [d] |
| CertbotDomains.NoSubdomainIsDomainAlone | src/oihana/certbot/helpers/getCertbotDomains.php:23 | a null subdomain and a blank one both give the domain alone |
| CertbotDomains.PaddingIgnored | src/oihana/certbot/helpers/getCertbotDomains.php:22-23 | whitespace around the domain and the subdomain does not change the result |
| ParseCertificates.Flushed | src/oihana/certbot/helpers/parseCertbotCertificates.php:119-122 | the field map in progress is added as a last record iff it is not empty |
| ParseCertificates.StringList | src/oihana/certbot/helpers/parseCertbotCertificates.php:95 | the domains value is a list of as many strings as there are pieces, in order |
| ParseCertificates.ParseCertificates | src/oihana/certbot/helpers/parseCertbotCertificates.php:61-64 | a null or empty source gives an empty list and no error |
| ParseCertificates.ParseCertbotCertificates | src/oihana/certbot/helpers/parseCertbotCertificates.php:53-125 | the line loop, with its flushes and its early failure, returns the fold of the line steps over the exploded source |
| ParseCertificates.UnrecognizedLineIsInert | src/oihana/certbot/helpers/parseCertbotCertificates.php:74-116 | a line that starts with no known label after trimming changes nothing |
| ParseCertificates.NoLabelNoRecords | src/oihana/certbot/helpers/parseCertbotCertificates.php:72-117 | lines without any known label leave the parse state unchanged |
| ParseCertificates.NoLabelEmptyResult | src/oihana/certbot/helpers/parseCertbotCertificates.php:72-124 | a text with no recognised label parses to no records |
| ParseCertificates.PaddingIsIrrelevant | src/oihana/certbot/helpers/parseCertbotCertificates.php:74 | indentation and trailing whitespace, a carriage return included, never change what a line does |
| ParseCertificates.LabelsDiffer | src/oihana/certbot/helpers/parseCertbotCertificates.php:76-116 | two labels that differ at some position never both start a line |
| ParseCertificates.TextLabelFirst | src/oihana/certbot/helpers/parseCertbotCertificates.php:76-113 | a line with a text-field label is caught by none of the branches checked before its own |
| ParseCertificates.TextFieldLine | src/oihana/certbot/helpers/parseCertbotCertificates.php:85-116 | serial, key type, certificate path and key path lines set their one field to the trimmed remainder, and nothing else changes |
| ParseCertificates.LastLineWins | src/oihana/certbot/helpers/parseCertbotCertificates.php:85-116 | a repeated text label: the later line overwrites, as if the earlier one were not there |
| ParseCertificates.DomainsLine | src/oihana/certbot/helpers/parseCertbotCertificates.php:93-96 | domains becomes the whitespace split of the remainder: pieces without whitespace, joining back to the collapsed remainder, [""] for an empty remainder, no empty piece for a remainder with non-space ends |
| ParseCertificates.ExpiryLabelFirst | src/oihana/certbot/helpers/parseCertbotCertificates.php:97 | an expiry line is caught by none of the branches checked before it |
| ParseCertificates.ExpiryStep | src/oihana/certbot/helpers/parseCertbotCertificates.php:97-108 | an expiry line without a pattern match changes nothing; with one it applies the expiry fields or fails with the date error |
| ParseCertificates.ExpiryFieldsOthers | src/oihana/certbot/helpers/parseCertbotCertificates.php:101-106 | the expiry update keeps every key and leaves every field other than expires and validDays unchanged |
| ParseCertificates.ExpiryFieldsShape | src/oihana/certbot/helpers/parseCertbotCertificates.php:101-106 | the expiry update sets expires and possibly validDays, nothing else |
| ParseCertificates.TwoUpdatesKeepOthers | src/oihana/certbot/helpers/parseCertbotCertificates.php:101-106 | setting expires and possibly validDays keeps every key and every other field |
| ParseCertificates.ExpiryFieldsSets | src/oihana/certbot/helpers/parseCertbotCertificates.php:101-106 | expires is the formatted first capture; validDays is the value of the digits whenever the validity pattern finds some, and is kept otherwise |
| ParseCertificates.ExpiryLine | src/oihana/certbot/helpers/parseCertbotCertificates.php:97-108 | an expiry line touches only expires and validDays: nothing without a match, the formatted date with one, and validDays is set to N whenever "VALID: N days" is in the parentheses, and changes only then |
| ParseCertificates.ExpiryFormatFailure | src/oihana/certbot/helpers/parseCertbotCertificates.php:101 | a date the formatter rejects aborts the whole parse with its exception |
| ParseCertificates.ValidDaysWitness | src/oihana/certbot/helpers/parseCertbotCertificates.php:103-106 | stored validity digits come from an occurrence of the validity pattern in the note |
| ParseCertificates.NameLine | src/oihana/certbot/helpers/parseCertbotCertificates.php:76-83 | a line carries at most one certificate name |
| ParseCertificates.NameLines | src/oihana/certbot/helpers/parseCertbotCertificates.php:72-84 | there are no more names than lines |
| ParseCertificates.RecordNames | src/oihana/certbot/helpers/parseCertbotCertificates.php:83 | one name per record, the record's own |
| ParseCertificates.SetFieldKeepsName | src/oihana/certbot/helpers/parseCertbotCertificates.php:85-116 | lines other than name lines keep every key and never change the name |
| ParseCertificates.NameLineStep | src/oihana/certbot/helpers/parseCertbotCertificates.php:76-84 | a name line flushes the map in progress if it is not empty and starts a map holding only the trimmed name |
| ParseCertificates.OtherLineStep | src/oihana/certbot/helpers/parseCertbotCertificates.php:85-116 | any other line leaves the finished records alone and only sets fields |
| ParseCertificates.StepNames | src/oihana/certbot/helpers/parseCertbotCertificates.php:76-116 | one line keeps the naming invariant and adds its own name, if any, to the records' names |
| ParseCertificates.RunRecordNames | src/oihana/certbot/helpers/parseCertbotCertificates.php:72-122 | the records' names are those flushed before followed by the names of the name lines read, in order |
| ParseCertificates.RecordsFollowNameLines | src/oihana/certbot/helpers/parseCertbotCertificates.php:72-124 | when no field line precedes the first name line, there is one record per name line, in input order, named by its trimmed text |
| PrintedReport.BlockLines | src/oihana/certbot/helpers/parseCertbotCertificates.php:26-32 | a printed certificate block is seven lines |
| PrintedReport.PrintedLine | src/oihana/certbot/helpers/parseCertbotCertificates.php:83-115 | a label, one space and a clean value trims to itself and its remainder is the value |
| PrintedReport.NotePrinted | src/oihana/certbot/helpers/parseCertbotCertificates.php:103-106 | the printed note holds no ')' and its validity digits are found |
| PrintedReport.ExpiryLineTrims | src/oihana/certbot/helpers/parseCertbotCertificates.php:97-99 | the printed expiry line trims to itself, carries the label and matches with the date and the note |
| PrintedReport.ExpiryBlockStep | src/oihana/certbot/helpers/parseCertbotCertificates.php:97-108 | the printed expiry line sets expires to the formatted date and validDays to the printed count |
| PrintedReport.BlockRun | src/oihana/certbot/helpers/parseCertbotCertificates.php:76-116 | a printed block flushes the record before it and fills in a new map with all eight fields |
| PrintedReport.RunAppend | src/oihana/certbot/helpers/parseCertbotCertificates.php:72-117 | reading two runs of lines one after the other is reading their concatenation |
| PrintedReport.BlockReport | src/oihana/certbot/helpers/parseCertbotCertificates.php:26-39 | the report of n blocks is 7n lines |
| PrintedReport.Records | src/oihana/certbot/helpers/parseCertbotCertificates.php:80-83 | one expected record per block |
| PrintedReport.RunBlocks | src/oihana/certbot/helpers/parseCertbotCertificates.php:72-117 | reading the printed blocks succeeds and reaches the state each block's flush and fill leads to |
| PrintedReport.AfterBlocksRecords | src/oihana/certbot/helpers/parseCertbotCertificates.php:78-122 | after the blocks, the records are those before followed by one record per block, in order |
| PrintedReport.ReportParses | src/oihana/certbot/helpers/parseCertbotCertificates.php:53-125 | a report of printed blocks behind label-free header lines parses to exactly the blocks' records, in order |
| PrintedReport.HeaderOnly | src/oihana/certbot/helpers/parseCertbotCertificates.php:72-124 | header lines alone parse to no records |
| PrintedReport.ParseOfRun | src/oihana/certbot/helpers/parseCertbotCertificates.php:68-124 | single lines joined with line breaks are parsed line by line |
| PrintedReport.InertLine | src/oihana/certbot/helpers/parseCertbotCertificates.php:74-116 | a trimmed line whose first letter starts no label carries no label |
| PrintedReport.TwoBlocks | src/oihana/certbot/helpers/parseCertbotCertificates.php:53-125 | two printed blocks behind an inert header parse to their two records |
| PrintedReport.ExampleBlockPrintable | src/oihana/certbot/helpers/parseCertbotCertificates.php:26-32 | the first documented block is in certbot's printed form |
| PrintedReport.TestBlockPrintable | src/oihana/certbot/helpers/parseCertbotCertificates.php:33-39 | the second documented block is in certbot's printed form |
| PrintedReport.DocExample | src/oihana/certbot/helpers/parseCertbotCertificates.php:24-42 | the documented report parses to exactly two records: example.com (ECDSA, domains example.com and www.example.com, validDays 66) and test.com (RSA, domains test.com, validDays 89) |
| CertbotCommands.InitLookup | src/oihana/certbot/traits/CertbotCertificatesTrait.php:58-63 | the subcommand's own non-null entry under certbot, else the non-null certbot entry whole, else the whole array; never null |
| CertbotCommands.FlatInitShared | src/oihana/certbot/traits/CertbotCertificatesTrait.php:60-62 | an array without a certbot entry is shared whole by all five subcommands |
| CertbotCommands.NestedInitSplit | src/oihana/certbot/traits/CertbotCertOnlyTrait.php:81-83 | a nested array gives each subcommand its own entry, and a subcommand without one gets the certbot entry whole |
| CertbotCommands.NormalizeDomains | src/oihana/certbot/traits/CertbotRenewTrait.php:102-109 | a list becomes its first element or null, the empty string null, any other string itself |
| CertbotCommands.LayersHoldOneKey | src/oihana/certbot/traits/CertbotDeleteTrait.php:92-93 | the cert-name layer is present iff the domain is non-empty and then holds only it; the quiet layer is present iff silent |
| CertbotCommands.RevokeLayersShape | src/oihana/certbot/traits/CertbotRevokeTrait.php:97-104 | six layers in order: stored, given, cert name iff non-empty, quiet iff silent, delete flag iff true, no-delete flag iff false, never both |
| CertbotCommands.DeleteLayersArePrefix | src/oihana/certbot/traits/CertbotDeleteTrait.php:89-94 | delete resolves the first four revoke layers |
| CertbotCommands.CertOnlyIgnoresSilentLayer | src/oihana/certbot/traits/CertbotCertOnlyTrait.php:127-136 | certonly resolves only the stored and given options; silent reaches the call and no layer |
| CertbotCommands.RenewIgnoresDomain | src/oihana/certbot/traits/CertbotRenewTrait.php:116-122 | renew as written never puts the domain in its layers: the cert-name layer is always left out |
| CertbotCommands.RenewDropsCertName | src/oihana/certbot/traits/CertbotRenewTrait.php:120 | renewing example.com resolves layers that differ from those with the guard on the domain |
| CertbotCommands.RenewIntendedNamesCertificate | src/oihana/certbot/traits/CertbotRenewTrait.php:120 | the corrected renew has a cert-name layer iff the domain is non-empty, holding the domain, the same layers as delete |
| CertbotCommands.DeleteRunsRevoke | src/oihana/certbot/traits/CertbotDeleteTrait.php:98 | delete as written runs the revoke subcommand, never the delete one |
| CertbotCommands.DeleteIntendedRunsDelete | src/oihana/certbot/traits/CertbotDeleteTrait.php:98 | the corrected delete runs `certbot delete` with the same layers and flags |
| CertbotCommands.NeedList | src/oihana/certbot/traits/CertbotCertificatesTrait.php:109 | a string need becomes a one-element list, a list stays as it is |
| CertbotCommands.FindCertificate | src/oihana/certbot/traits/CertbotCertificatesTrait.php:126-142 | the first certificate in list order that some need matches by name, domain-list member or domain string, or none when no certificate matches |
| CertbotCommands.FirstMatchUnique | src/oihana/certbot/traits/CertbotCertificatesTrait.php:126-142 | there is only one first match |
| CertbotCommands.NoNeedsNoMatch | src/oihana/certbot/traits/CertbotCertificatesTrait.php:128-134 | an empty list of needs never matches |
| CertbotCommands.NameMatches | src/oihana/certbot/traits/CertbotCertificatesTrait.php:131 | a listed certificate is found by its own name |
| CertbotCommands.Listing | src/oihana/certbot/traits/CertbotCertificatesTrait.php:281-286 | a non-success exit status lists no certificate; success lists the parse of the output |
| CertbotCommands.Verdict | src/oihana/certbot/traits/CertbotCertificatesTrait.php:217-222 | a null expiry is not valid, and valid implies a non-blank expiry |
| CertbotCommands.Certbot.constructor | src/oihana/certbot/traits/CertbotCertificatesTrait.php:49 | every stored option value starts null |
| CertbotCommands.Certbot.InitializeCertificatesOptions | src/oihana/certbot/traits/CertbotCertificatesTrait.php:56-65 | stores the certificates entry of the initializer lookup and nothing else |
| CertbotCommands.Certbot.InitializeCertOnlyOptions | src/oihana/certbot/traits/CertbotCertOnlyTrait.php:77-86 | stores the certOnly entry of the initializer lookup and nothing else |
| CertbotCommands.Certbot.InitializeDeleteOptions | src/oihana/certbot/traits/CertbotDeleteTrait.php:43-52 | stores the delete entry of the initializer lookup and nothing else |
| CertbotCommands.Certbot.InitializeRenewOptions | src/oihana/certbot/traits/CertbotRenewTrait.php:59-68 | stores the renew entry of the initializer lookup and nothing else |
| CertbotCommands.Certbot.InitializeRevokeOptions | src/oihana/certbot/traits/CertbotRevokeTrait.php:49-58 | stores the revoke entry of the initializer lookup and nothing else |
| CertbotCommands.Certbot.Certificates | src/oihana/certbot/traits/CertbotCertificatesTrait.php:254-287 | runs `certbot certificates` with sudo and the layers stored, given, quiet iff silent; returns the listing for the exit status |
| CertbotCommands.Certbot.Certificate | src/oihana/certbot/traits/CertbotCertificatesTrait.php:92-143 | null needs return null before any call; otherwise one listing call, its date error passed on, or the first match |
| CertbotCommands.Certbot.CertificateExists | src/oihana/certbot/traits/CertbotCertificatesTrait.php:166-177 | true iff some listed certificate matches some need; a listing error is passed on |
| CertbotCommands.Certbot.CertificateIsValid | src/oihana/certbot/traits/CertbotCertificatesTrait.php:201-223 | a given certificate is judged without a call; otherwise the first match is judged, and no match or null needs are not valid |
| CertbotCommands.Certbot.Renew | src/oihana/certbot/traits/CertbotRenewTrait.php:91-133 | with assertable and a domain, an unknown domain stops renew with the validation message and a listing error is passed on; otherwise `certbot renew` runs and its exit code is returned |
| CertbotCommands.Certbot.Revoke | src/oihana/certbot/traits/CertbotRevokeTrait.php:77-115 | runs `certbot revoke` with the revoke layers for the normalised domain and returns its exit code |
| CertbotCommands.Certbot.Delete | src/oihana/certbot/traits/CertbotDeleteTrait.php:70-105 | runs the delete layers for the normalised domain, as the code does, under `certbot revoke`, and returns its exit code |
| CertbotCommands.Certbot.CertOnly | src/oihana/certbot/traits/CertbotCertOnlyTrait.php:119-137 | runs `certbot certonly` with the stored and given options, passes its flags through and returns its exit code |

## Left out

- Process execution (`proc`, `system`, sudo, output capture) is not modelled. A call is returned as a description; the exit status and output of `proc` and the exit code of `system` are inputs.
- Dates:
  - `formatDateTime`, `DateTimeZone`, `DateTimeImmutable` and the clock are a `Calendar` parameter.
  - Instants are integers.
  - The text of the wrapping exception messages of `isValid` is not modelled; the error carries the rejected text.
- `hyphenate` and `assertDomain` are parameters, so every statement holds for any implementation of them.
- `Options::resolve`, the option classes and the rendering of arguments are left out. A stored options object is represented by the value it was built from. A call records the ordered layers handed to `resolve`, not the argument string.
- The key order of PHP arrays is not modelled: a record is a map from property name to value.
- Strings are sequences of characters, not PHP byte strings. Every character class involved is ASCII: the `trim` set, `\s` without the `u` flag, the capitals `strtolower` lowers, and the digits. Multi-byte text is not modelled.
- PHP_EOL is taken as "\n", the line break of the hosts certbot runs on.
- `formatDateTime` is taken to return a string.
- The `$needs` and `$domains` arguments are restricted to strings or lists of strings. The coercion of other array elements by `(array)`, `in_array` and string concatenation is not modelled.
- `CertbotTrait`, which only chains the five initializers, is not part of this model. Of `CertbotParam` and `CertbotSubCommand`, only the constants used are copied. The option property bags are not part of this model.
- `ExitCode::SUCCESS` is taken as 0.
- ParseCertificates.DomainsLine: promises non-empty pieces only for a remainder whose ends are not `\s` characters. `trim` keeps a form feed that `\s` matches, so a remainder ending in a form feed does give an empty piece.
- PrintedReport.ReportParses: covers reports in certbot's printed order: seven lines per block, one space after each label, values without line breaks or padding. Other layouts are covered by the line-level lemmas of `ParseCertificates`.
- Patterns.ExpiryMatchComplete: states the second capture only. The first capture can differ from the date text by whitespace the pattern backtracks over, so the parser trims it. `Patterns.ExpiryOfPrinted` states both captures for the printed form.

## Findings

| source | as written | input that shows it | evidently intended | confidence | as-written member | corrected member |
|---|---|---|---|---|---|---|
| src/oihana/certbot/traits/CertbotRenewTrait.php:120 | the cert-name layer is guarded by `!empty($name)`, a variable never assigned, so the layer is always left out | `certbotRenew('example.com')` resolves no `certName` layer and renews every certificate | guard on `$domains`, as revoke and delete do, so the named certificate is renewed | not executed | CertbotCommands.RenewDropsCertName | CertbotCommands.RenewIntendedNamesCertificate |
| src/oihana/certbot/traits/CertbotDeleteTrait.php:98 | `certbotDelete` runs `CertbotSubCommand::REVOKE` | `certbotDelete('example.com')` runs `certbot revoke` | run `CertbotSubCommand::DELETE`, as the method's name and documentation say | not executed | CertbotCommands.DeleteRunsRevoke | CertbotCommands.DeleteIntendedRunsDelete |
