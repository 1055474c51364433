# GoTestWAF: verified model

GoTestWAF sends encoded attack payloads to a web application firewall and reports how many were
blocked. This project models the parts whose correctness the report rests on, and proves them:

- the scan pipeline: one producer, a bounded channel and workers, interleaved and cancelled at
  will (`Pipeline.dfy`), and what each exchange with the target does to the results
  (`Outcomes.dfy`, `TemplateRuns.dfy`, `Verdicts.dfy`, `Scanner.dfy`);
- the results database, which keeps the same facts as nested counters and as four lists
  (`Ledger.dfy`, `Database.dfy`), and the statistics computed from both (`Tables.dfy`,
  `Scores.dfy`, `Statistics.dfy`), rolled up in the HTML report (`Report.dfy`);
- the theorems that join them, from the plan of a scan to its report (`EndToEnd.dfy`) and from the
  replies of the target to the rows and scores (`ReplyReport.dfy`);
- the OpenAPI templates: schemas and their values (`Schema.dfy`, `SchemaValues.dfy`,
  `XmlStrings.dfy`), random placeholders (`Placeholders.dfy`), the compiler (`SchemaCompiler.dfy`),
  values as JSON and as forms (`Rendering.dfy`), the templates of a document and their index
  (`RequestBodies.dfy`, `Operations.dfy`), the requests made from them (`Templates.dfy`), and
  substitution over an unordered map (`Substitution.dfy`, `OrderAgreement.dfy`,
  `PathSubstitution.dfy`);
- the DNS cache under interleaving (`DnsCache.dfy`);
- the Base64 and JSUnicode encoders against their decoders (`Base64.dfy`, `JsUnicode.dfy`).

`Order.dfy`, `Text.dfy` and `Wrappers.dfy` hold sorting, counting, string operations and optional
values. `dafny verify dfyconfig.toml` checks everything.

Objects that the program updates in place are classes here (`DB`, `Info`, `Scanner`,
`TestStatus`, `Resolver`, `TestSetSummary`), and each of their methods is proved against a
function on values; loops stay loops. A method of `DB` is one critical section under the
database lock. Answers of the network, of DNS, of the router and of random generators are
arbitrary inputs; regular expressions, block checks and digests are uninterpreted functions. A Go
panic is an outcome, never a precondition.

## How the results fit together

1. `Pipeline.FinishedScan`: whatever the interleaving, an uncancelled scan that is over has
   recorded and counted every (case, payload, encoder, placeholder) exactly once.
2. `Scanner.Scanner.SendPayload` and `EndToEnd.ProcessAll`: the objects bring the database to the
   ledger that the history of those items leads to.
3. `Ledger.LedgerInvariant` and `Statistics.AccountingsAgreeIff`: after any history, each counter
   is the occurrences in its list plus the routed unresolved records, and the two accountings of
   `GetStatistics` agree exactly when every unresolved update was routed as the report reads it.
4. `EndToEnd.ScanConserved`, `EndToEnd.ScanReportSound` and `EndToEnd.ScheduleIrrelevant`: hence a
   finished scan reports exactly its items minus the skipped ones, its numbers are consistent
   and in scale, and the number of workers and their interleaving do not show.
5. `Verdicts.EffectRecorded`: the record of an item is the one that the reasons in its reply call for,
   said of the configuration alone; so, without templates, every row of the report of a finished scan is
   a tally of the replies with its share (`ReplyReport.RowFromReplies`), and the scores are those of the
   replies (`ReplyReport.ScoreFromReplies`).  With templates, `Verdicts.RunSplitsTemplates` says which
   templates the payload got through to.
6. `Report.SetsAddUpToTotals`: the roll-up by test set loses nothing.

For the templates, `SchemaCompiler.SchemaToMap` gives one of the values that `Schemas.IsValue`
defines, in JSON and in XML mode.  Every string of the schema that is left in a JSON value has a
placeholder of its own with its own limits (`SchemaValues.ValueApart`, `SchemaValues.ValueConforms`,
`SchemaValues.HolesLeft`; `XmlStrings.XmlHolesLeft` counts them in XML), `Rendering.PiecesShow` keeps it between delimiters,
`Substitution.BodyOrderIff` says when filling does not depend on the order of a map, and
`Operations.JsonRequest` and `Operations.JsonCarries` join them: from the schema to the body of every
request.  The compiler draws its placeholders from a supply of distinct words that is large enough;
`Placeholders.SupplyIff` says which supplies there are.

## Where the code does not do what one might expect

- A GraphQL pre-check overwrites the gRPC flag of the report (`Scanner.Scanner.CheckAvailability`:
  the flag is right exactly when both protocols are available or both are not).
- With OpenAPI templates loaded, the plain request that follows the templates is refused unless it
  failed to send, or was reset and resets are not blocks (`Outcomes.OpenAPIDropsPlainExchanges`).
- A HEAD operation makes a second GET template, and a nil dereference when there is no GET
  (`Operations.HeadBecomesGet`).
- A string schema whose maximum length is under 16 makes the generator of example values panic
  (`SchemaValues.ShortStringFails`).
- `oneOf` without strings in any alternative compiles to null (`SchemaCompiler.CompileOneOf`).  An
  array takes its length from `minLength` rather than from `minItems`: it has enough items exactly when
  `minLength`, or one, is at least `minItems` (`SchemaCompiler.CompileArray`, and
  `SchemaValues.TooFewItems` where it has not).
- Integers that are generated for a schema are cut from its bounds toward zero, so a positive lower or a
  negative upper bound that is not whole, and not excluded, is missed (`SchemaValues.IntegersWithin`).
- A body placeholder is served for every string of a schema, also for one that a later branch of
  `allOf` hides.  The body has a placeholder for the payload exactly when a string is left
  (`Operations.JsonCarries`), which need not be so (`Operations.ServedInVain`).
- Overlapping lookups of one address can leave the older answer in the DNS cache.  Exactly when that
  can happen is `DnsCache.FreshIffSettled`; every overlap with a lookup that is not answered yet is
  such a case (`DnsCache.OverlapGoesStale`), and without overlap the newest answer stays
  (`DnsCache.FreshIfExclusive`).
- A payload that contains a placeholder can make the request depend on the map order
  (`Templates.PathOrderCanMatter`).  Every order gives the simultaneous replacement exactly when no
  hole's payload holds the placeholder of another parameter, unless that placeholder is the whole
  payload (`Substitution.BodyOrderIff`, `PathSubstitution.PathOrderIff`); for bodies this is also
  exactly when all orders agree with each other (`OrderAgreement.OrdersAgreeIff`).
- In a path, payloads with a brace closed and another left open can make the name of a parameter
  together with the literal between them, so an order can matter although no payload holds a name
  (`Templates.PayloadsCanJoin`).

## Model

| member | source | states |
|---|---|---|
| Ledger.LedgerInvariant | internal/db/database.go:64-94 | after any sequence of updates each (set, case) counter equals the occurrences in its list plus the unresolved records the flags routed to it |
| Ledger.OneRecordPerUpdate | internal/db/database.go:64-94 | the four lists together hold one record per update |
| Ledger.ReplayBalanced | internal/db/database.go:64-94 | the invariant without the history: counters match lists for every registered key, listed records are registered, and the unresolved ones split into those counted as passed and as blocked |
| Database.DB.constructor | internal/db/database.go:30-62 | a new database has exactly the keys of its cases, all counters zero, empty lists, the number of tests as the sum of products, and the digest of the sorted case hashes |
| Database.FingerprintCanonical | internal/db/database.go:36-59 | every order of the same cases feeds the same bytes to the final digest |
| Database.FingerprintIff | internal/db/database.go:36-59 | two lists of cases feed the same bytes to the final digest if and only if their hashes are the same, each as often |
| Database.DB.UpdatePassedTests | internal/db/database.go:64-69 | appends this very object, bumps one counter, and leaves the rest of the ledger alone |
| Database.DB.UpdateNaTests | internal/db/database.go:71-80 | counts an unresolved result as passed or blocked by flags and polarity, and lists it as unresolved |
| Database.DB.UpdateBlockedTests | internal/db/database.go:82-87 | appends this very object, bumps one counter, and leaves the rest of the ledger alone |
| Database.DB.UpdateFailedTests | internal/db/database.go:89-94 | appends this very object, bumps one counter, and leaves the rest of the ledger alone |
| Database.DB.AddToScannedPaths | internal/db/database.go:96-108 | adds one (path, method) and keeps all others |
| Tables.ScanAllAdds | internal/db/database.go:96-108 | after any additions exactly the old paths and the added ones are scanned |
| Database.DB.CountUnresolved | internal/db/statistics.go:130-144 | for every key the nested map reads as the number of unresolved records, or zero when they are not shown |
| Tables.SortedKeys | internal/db/statistics.go:146-159 | lists exactly the keys of a map, strictly increasing |
| Tables.ListPaths | internal/db/statistics.go:369-383 | lists exactly the scanned (path, method) pairs, strictly increasing by path, then method |
| Order.KeyLessIsTotal | internal/db/statistics.go:102-110 | the order of scanned paths is a strict total order |
| Order.KeyLessMeaning | internal/db/statistics.go:102-110 | a path is before another exactly when it differs first by a smaller byte or by ending, or is the same with a smaller method |
| Tables.SummaryTables | internal/db/statistics.go:146-218 | each table lists exactly the registered keys of its polarity in order, with their numbers, and the running sums are the sums of its rows; what the percentage of a row is says `Statistics.RowShowsShare` |
| Statistics.RowShowsShare | internal/db/statistics.go:196-213 | in every row of a report the percentage is, to two decimals, the share of the blocked requests among the resolved ones in malicious sets and of the bypassed ones in benign sets, and zero when nothing is resolved |
| Statistics.SharesMeaning | internal/db/statistics.go:453-456 | blocked and bypassed are shares of the resolved requests of the polarity, unresolved and failed of all of them |
| Statistics.HalvesCount | internal/db/statistics.go:220-367 | the API and application numbers count the listed records whose set has or has not "api" and "false" in its name, the unresolved ones added to the bypassed of malicious and to the blocked of benign sets when they are not shown |
| Database.Classify | internal/db/statistics.go:220-251 | splits a list by polarity in list order, counts API and application records, and sorts the additional information in place |
| Database.DetailsListed | internal/db/statistics.go:220-367 | the detail lists of a polarity are the listed records of its sets, in the order they were recorded, with the hidden unresolved ones at the end of the bypasses or of the blocked |
| Database.DB.GetStatistics | internal/db/statistics.go:120-422 | the whole report is what `Describes` says of the ledger, for every flag pair, with the detail lists grouped and the notes as sorted in place |
| Statistics.RowMeaning | internal/db/statistics.go:163-191 | every row has Sent = Blocked + Bypassed + Unresolved + Failed = the records of its key, and when routing matches each field counts records, so none is negative |
| Statistics.TableTotals | internal/db/statistics.go:153-218 | the sums over a table are counts over the lists of its polarity, up to how unresolved records were routed |
| Statistics.AccountingsAgreeIff | internal/db/statistics.go:130-367 | request numbers from the counters equal API plus application numbers from the lists, for both polarities, if and only if every unresolved update was routed as the report reads it |
| Statistics.RequestsConserved | internal/db/statistics.go:424-432 | for all flags the requests of both polarities sum to the number of updates |
| Statistics.StatisticsIndependent | internal/db/statistics.go:120-422 | ledgers whose lists are permutations of each other have the same tables, request numbers, percentages and scores if and only if, for each (set, case), as many unresolved records were counted as passed |
| Statistics.ReportConsistent | internal/db/statistics.go:424-456 | both accountings agree with each other and with the lengths of the detail lists, nothing is negative, percentages and scores are in scale, and the average is -1 exactly when nothing was resolved |
| Scores.CalculateScorePercentage | internal/db/statistics.go:458-491 | the score that `Scores.ScoreMeaning` describes |
| Scores.ScoreMeaning | internal/db/statistics.go:458-491 | the two rates in hundredths; the average is -1 when nothing was resolved, zero when something was and no attack was blocked, otherwise the rounded half of the sum of the two rates, or the one rate there is |
| Scores.CentsNearest | internal/db/helpers.go:20-40 | a rate is the nearest to the share that two decimals allow |
| Statistics.HalfScore | internal/db/statistics.go:388-401 | the two scores of a report are such scores of the API and of the application numbers |
| Statistics.AverageMeaning | internal/db/statistics.go:403-419 | the average of a report is the rounded mean of the two averages, or the one that was measured, or -1 |
| Scores.CalculateOverall | internal/db/statistics.go:403-419 | the mean over the halves that were measured, or -1 |
| Scores.PercentageRange | internal/db/helpers.go:20-40 | a part of a whole is a percentage in [0, 100] |
| Scores.PercentagesComplement | internal/db/statistics.go:453-454 | blocked% plus bypassed% is 100, or 100.01 exactly on a rounding tie |
| Scores.ScoreInScale | internal/db/statistics.go:458-491 | every score is -1 or in [0, 100], and -1 exactly when its requests are unresolved |
| Scores.ScoreMonotone | internal/db/statistics.go:458-491 | with totals fixed, blocking more attacks never lowers a score |
| Scores.OverallMonotone | internal/db/statistics.go:403-419 | raising a half never lowers the overall average |
| Outcomes.MatchResponse | internal/scanner/scanner.go:404-420 | a regular expression matches a response when it matches a header line or a non-empty body, for any order of the headers |
| Outcomes.CheckBlockedOrPassed | internal/scanner/scanner.go:385-445 | blocked and passed are decided by the block check, the expressions and the status codes, with the block check overriding |
| Verdicts.ReplyJudged | internal/scanner/scanner.go:385-445 | without templates a response without an error is recorded as blocked when there is only a reason to block, as passed when there is only a reason to pass, and as unresolved otherwise; the reasons are said of the block check, the expressions and the status codes |
| Verdicts.ErrorJudged | internal/scanner/scanner.go:669-707 | a reset is recorded as blocked or as unresolved by the configuration, any other error as failed |
| Verdicts.EffectRecorded | internal/scanner/scanner.go:656-814 | every answered item leaves one update, the one of its effect, whose record has the payload, encoder, placeholder, set, case and type of the item and the status of the response; an item that is not sent leaves none |
| Outcomes.PlainRecordsOnce | internal/scanner/scanner.go:534-609 | without templates every answered item that is not skipped is recorded exactly once, with the scan's flags and its own key and polarity |
| Outcomes.OpenAPIDropsPlainExchanges | internal/scanner/scanner.go:708-713 | with templates loaded, exactly which plain exchanges are still recorded |
| TemplateRuns.OneRecordPerSlot | internal/scanner/scanner.go:614-653 | a run over templates makes one record in each ledger it reaches and none in the others |
| TemplateRuns.DoneNotesAll | internal/scanner/scanner.go:628-652 | a run that returns no error has exchanged a request with every template, in order, and scanned them all |
| TemplateRuns.DoneRunAddsUp | internal/scanner/scanner.go:614-653 | the lengths of the additional information over the four slots sum to the number of templates, with at most one new record in each ledger |
| TemplateRuns.RunStops | internal/scanner/scanner.go:628-652 | a run ends at the first template whose request cannot be made or whose exchange is not noted: with the exchanges and the scanned paths until then, that template scanned too when it is refused |
| Verdicts.TemplateJudged | internal/scanner/scanner.go:700-767 | an answered exchange with a template that is not routed is refused; otherwise it goes to the passed record when the response is valid and gives no reason to block, else to the blocked one, with method and path as its note |
| Verdicts.TemplateFails | internal/scanner/scanner.go:669-727 | without an answer the exchange is failed with its message, unresolved for a reset that is no block, and otherwise refused or a crash |
| Verdicts.RunSplitsTemplates | internal/scanner/scanner.go:614-653 | when all are answered, the passed record of an item lists the templates that its payload got through to, the blocked one all others, in order |
| Verdicts.FirstOfSlotRecorded | internal/scanner/scanner.go:656-797 | the record of a slot is made from the first exchange that goes there |
| Verdicts.RunThenPlain | internal/scanner/scanner.go:506-530 | with templates loaded an item leaves the updates of its run, then one more for a plain request that fails or is reset without that being a block; nothing is sent after a run that ends in an error |
| TemplateRuns.ItemSentAs | internal/scanner/scanner.go:656-797 | in every mode an item touches its own key only, with the flags of the scan and its own polarity |
| Scanner.Scanner.UpdateDB | internal/scanner/scanner.go:656-797 | the branches decide as `Decide` does, which `Verdicts` says of the reply alone; one slot, its list and the ledger change when the verdict is noted, the first time with a fresh record, and nothing changes otherwise |
| Scanner.Scanner.SendOpenAPIRequests | internal/scanner/scanner.go:614-653 | afterwards each filled slot holds the very object its list gained, annotated once per template that went there, and the ledger and the scanned paths are those of the run, also when it ends in an error |
| Scanner.Scanner.SendGrpcRequest | internal/scanner/scanner.go:534-554 | the ledger gains exactly the update of the exchange, or none when gRPC is not available |
| Scanner.Scanner.SendGraphQLRequest | internal/scanner/scanner.go:558-584 | the ledger gains exactly the update of the exchange, or none when GraphQL is not available |
| Scanner.Scanner.SendRequest | internal/scanner/scanner.go:587-609 | the ledger gains exactly the update of the exchange, if it is noted |
| Scanner.Scanner.SendPayload | internal/scanner/scanner.go:506-530 | the ledger, the scanned paths and the result are those of the item's updates, in every mode |
| Scanner.Scanner.CheckGraphQLAvailability | internal/scanner/scanner.go:203-226 | sets both availability flags |
| Scanner.Scanner.CheckAvailability | cmd/gotestwaf/main.go:171-172 | after both pre-checks the gRPC flag is right if and only if the two availabilities are equal |
| Pipeline.PlanAt | internal/scanner/scanner.go:449-503 | the plan has as many items as there are tests; at the mixed-radix position of a case, payload, encoder and placeholder stands the item with exactly that payload, encoder and placeholder, the set, name, type and polarity of the case, and the digest of set, name, placeholder, encoder and payload as its debug header when that is enabled |
| Pipeline.ProduceTests | internal/scanner/scanner.go:449-503 | the nested loops send the plan in order, or a prefix of it when cancelled, so the item sent at a position is the one of `PlanAt` |
| Pipeline.ReachableInv | internal/scanner/scanner.go:328-352 | in every reachable state, cancelled or not, the sent items are those in the channel, with the workers and processed; the channel never overfills; recorded items are counted or about to be |
| Pipeline.RunsTerminate | internal/scanner/scanner.go:328-356 | a natural-number measure falls by one in every step, which bounds every run |
| Pipeline.NeverStuck | internal/scanner/scanner.go:328-356 | with at least one worker some step other than cancelling is enabled until all workers have returned |
| Pipeline.CanComplete | internal/scanner/scanner.go:328-356 | every uncancelled run, however it began, can be carried on until all workers have returned |
| Pipeline.FinishedScan | internal/scanner/scanner.go:328-360 | an uncancelled scan that is over has processed, recorded and counted each planned item exactly once |
| EndToEnd.ProcessAll | internal/scanner/scanner.go:328-352 | handing the items of a log to the scanner object brings the database to the ledger of the log's history |
| EndToEnd.EveryTestCounted | internal/scanner/scanner.go:323-345 | when an uncancelled scan is over the counter of sent requests equals the number of tests, and each planned item is processed once |
| EndToEnd.HistoryFits | internal/db/load.go:81-96 | every update of a finished scan, in any mode, concerns a registered case and is routed as a report with the flags of the scan reads it |
| EndToEnd.ScanReportSound | internal/db/statistics.go:424-456 | in every mode and for every order of the single updates the report of a finished scan accounts for every update, its accountings agree and its numbers are in scale |
| EndToEnd.ScanConserved | internal/scanner/scanner.go:506-609 | without templates both polarities sum to the number of tests minus the items skipped for lack of gRPC or GraphQL |
| EndToEnd.ScanAndReport | internal/scanner/scanner.go:274-360 | a database is made, the items of a finished scan are processed and the statistics computed: the report adds up to the updates, and without templates to the number of tests minus the skipped items |
| EndToEnd.ScheduleIrrelevant | internal/scanner/scanner.go:274-360 | finished scans of the same cases against the same target report the same tables, numbers, percentages and scores, whatever the workers, the interleavings and the order of updates |
| ReplyReport.RowFromReplies | internal/db/statistics.go:161-218 | a finished scan without templates: the numbers of every row count the replies to the items of its set and case by what became of them, and its percentage is the share of the good ones |
| ReplyReport.ScoreFromReplies | internal/db/statistics.go:386-491 | a finished scan without templates: both scores are those of the replies, the share of the attacks that were blocked and of the benign requests that were let in |
| Report.RollUp | internal/report/html.go:218-241 | one fresh summary object per test set of the rows, with their sums and the rounded mean over resolved cases |
| Report.SetsPartitionRows | internal/report/html.go:218-236 | every row is counted in exactly one set |
| Report.SummaryNumbers | internal/report/html.go:228-236 | the numbers of a set's summary are the sums over its rows, before and after averaging |
| Report.SetPercentageInScale | internal/report/html.go:239-241 | the percentage of a set is in [0, 100], also when nothing in it was resolved |
| Report.SetPercentageMeaning | internal/report/html.go:218-241 | the percentage of a set is the mean of its resolved rows to the nearest hundredth, and zero when there are none |
| Report.SetListsRows | internal/report/html.go:218-236 | the test cases of a set are its rows, in order |
| Report.SetsAddUpToTotals | internal/report/html.go:398-416 | the numbers of all sets of both tables add up to the totals of the report, which count every update |
| DnsCache.Resolver.LookupIP | pkg/dnscache/dnscache.go:116-126 | a successful answer is cached under its address, a failed one changes nothing |
| DnsCache.Resolver.Fetch | pkg/dnscache/dnscache.go:130-138 | asks the server if and only if the address is not cached |
| DnsCache.Resolver.Refresh | pkg/dnscache/dnscache.go:141-159 | for every order of the keys, uninterleaved, each key of before holds the new answer, or its old value where the lookup failed |
| DnsCache.Resolver.Stop | pkg/dnscache/dnscache.go:162-169 | the closer runs once, however often this is called |
| DnsCache.CacheIsLastCommits | pkg/dnscache/dnscache.go:116-126 | in every interleaving the cache holds for each address the last committed answer, which the server gave |
| DnsCache.KeysNeverShrink | pkg/dnscache/dnscache.go:116-159 | no key ever leaves the cache |
| DnsCache.EntryKept | pkg/dnscache/dnscache.go:116-159 | between commits of an address its entry does not change, whatever hits, failed lookups, refreshes and other commits happen |
| DnsCache.RefreshAsksAll | pkg/dnscache/dnscache.go:141-159 | however it is interleaved, a refresh asks again about every address it started with |
| DnsCache.FreshIfExclusive | pkg/dnscache/dnscache.go:116-126 | while lookups of an address do not overlap its entry is the newest successful answer |
| DnsCache.FreshIffSettled | pkg/dnscache/dnscache.go:116-126 | in every reachable state: however the calls under way go on, they leave the newest answer in the cache, if and only if no call asks while an answer waits to be committed, no two calls ask, waiting answers say what the newest says, and without one the entry is the newest answer |
| DnsCache.OverlapGoesStale | pkg/dnscache/dnscache.go:116-126 | from every reachable state in which an unanswered lookup of an address overlaps another call busy with it, some continuation that begins no new lookup of it ends with an older answer for good; from an exclusive fresh state none does |
| Base64.DecodeBase64 | tests/integration/waf/decoder.go:16-30 | decodes the payload with the padding its length asks for |
| Base64.FlatIsUnpadded | internal/payload/encoder/base64.go:28-38 | the flat text is the normal one without its padding, and holds digits only |
| Base64.RoundTrip | tests/integration/waf/decoder.go:16-30 | the decoder inverts both modes for every byte string; the flat length is never 1 mod 4, '=' is trailing padding only, and padding again restores the normal text |
| Base64.EncodeInjective | internal/payload/encoder/base64.go:28-38 | no two payloads share a text |
| Base64.DigitsDenote | internal/payload/encoder/base64.go:28-38 | the digits of a text and the bytes of its payload denote the same number, in base 64 and 256, up to the unused bits |
| Base64.ValueInAlphabet | tests/integration/waf/decoder.go:16-30 | a character is a digit exactly when it is in the standard alphabet, and then its value is its place there |
| Base64.DecodesIff | tests/integration/waf/decoder.go:16-30 | a text without line breaks decodes exactly when it is digits, not one more than a multiple of four, with the padding of that many |
| JsUnicode.Encode | internal/payload/encoder/jsunicode.go:22-35 | the loop over bytes prints each UTF-16 unit as one escape |
| JsUnicode.Utf16RoundTrip | internal/payload/encoder/jsunicode.go:23-27 | units decode to the scalars they came from, surrogate pairs included |
| JsUnicode.RoundTrip | tests/integration/waf/decoder.go:32-47 | the decoder inverts the encoder for all scalars, and the text has six characters per unit |
| JsUnicode.UnitsCount | internal/payload/encoder/jsunicode.go:23-27 | one unit per scalar, two beyond the basic plane |
| JsUnicode.PrintedAt | internal/payload/encoder/jsunicode.go:28-35 | each unit stands at its place as backslash, u and its four hexadecimal digits |
| JsUnicode.UnitsMeaning | internal/payload/encoder/jsunicode.go:23-27 | a scalar of the basic plane is its own unit, and any other a leading and a trailing surrogate with its upper and lower ten bits |
| Substitution.ReplaceShown | internal/openapi/template.go:284-292 | one ReplaceAll of a minted word acts on every hole by itself, whatever the holes show, when the literals keep letters away and do not contain the word |
| Substitution.SettledOrder | internal/openapi/template.go:253-336 | an order in which no filled hole changes again gives the simultaneous replacement |
| Substitution.BodyOrderIff | internal/openapi/template.go:280-336 | every order of the replacements gives the simultaneous one if and only if the payload holds no admitted placeholder other than a hole's own, unless the payload is that placeholder; for minted words between delimiters and any payload |
| OrderAgreement.OrdersAgreeIff | internal/openapi/template.go:284-292 | for every payload, all orders agree with each other if and only if they all give the simultaneous replacement, hence under the same condition |
| OrderAgreement.TwoHolesDisagree | internal/openapi/template.go:284-292 | a payload with two placeholders that both have holes always makes two orders give different bodies |
| PathSubstitution.ReplaceIsSubst | internal/openapi/template.go:253-265 | one ReplaceAll of a name in braces is one substitution in the literals and names of the path |
| PathSubstitution.PathOrderIff | internal/openapi/template.go:253-265 | every order of the replacements gives the simultaneous one if and only if the payload holds no path parameter other than a hole's own, unless it is that parameter; for texts made of names in braces and of literals without keys that all leave no brace open, or all close none they did not open |
| Templates.PathOrderCanMatter | internal/openapi/template.go:253-265 | for the path /{a}/{b} and the payload x{b} the two orders make the requests /xx{b}/x{b} and /x{b}/x{b} |
| Templates.PayloadsCanJoin | internal/openapi/template.go:253-265 | a path and a payload without any parameter's name for which an order differs from the simultaneous replacement: the payload closes a brace and leaves one open |
| Templates.CreateRequest | internal/openapi/template.go:229-367 | no request exactly for placeholders that are unserved or unknown; otherwise method, path, query, headers and body are those of the replacements in some order of each map |
| Templates.HeaderRequest | internal/openapi/template.go:242-251 | a header request has exactly the headers of the template: a string whose limits admit the payload carries it, any other its own value |
| Templates.QueryRequest | internal/openapi/template.go:268-277 | a query request has one "name=value" for each query parameter by the same rule, joined by "&" |
| Templates.PathRequest | internal/openapi/template.go:253-265 | every request has its path parameters replaced once each, by the same rule for URLPath and by their own values for other placeholders; headers and query stay empty where they do not belong |
| Templates.BodyRequest | internal/openapi/template.go:280-336 | a body request has the content type of its placeholder and that body, with exactly the strings that admit the payload replaced by it, once each |
| Templates.FillBody | internal/openapi/template.go:284-292 | the parameters that admit the payload are replaced, each once |
| Templates.FillPath | internal/openapi/template.go:253-346 | every path parameter is replaced, each once |
| Templates.BodyMeaning | internal/openapi/template.go:280-336 | in all requests the payload stands exactly in the string holes whose length bounds admit it, and every other hole keeps its placeholder, if and only if the payload holds no other admitted placeholder |
| Templates.PathMeaning | internal/openapi/template.go:253-346 | in all requests every path parameter is filled, by the payload or by its own value, if and only if the payload holds no other path parameter |
| Templates.IndexTemplates | internal/openapi/template.go:46-55 | the index agrees with a plain scan: per placeholder, the templates that serve it, in order |
| Templates.IndexedNeverNil | internal/openapi/template.go:230-339 | a template is indexed under what it serves, and then neither exit without a request is taken |
| Operations.ParseParameters | internal/openapi/parameters.go:44-104 | ends as the first parameter that cannot be read or panics; otherwise the last parameter of each name counts, and a placeholder is supported exactly when a string goes there |
| Operations.LatestMeaning | internal/openapi/parameters.go:44-104 | a place has exactly the parameters named there, each as it was parsed last |
| Operations.ParametersEnd | internal/openapi/parameters.go:50-95 | parsing succeeds exactly when every parameter is in a known place and is parsed; otherwise the first that is not decides, and only one in a known place can panic |
| Rendering.PiecesShow | internal/openapi/schema.go:240-247 | the JSON of a value is a text whose holes are those of the value, with quotes around each; filled, it is the JSON with the fillings in its holes |
| Rendering.JsonMeaning | internal/openapi/schema.go:240-247 | scalars in quotes, items between brackets, fields in the order of their names between braces, with commas |
| Rendering.EscapedJson | internal/openapi/schema.go:280-286 | escaping the marshalled JSON of a form field is escaping everything but its placeholders |
| Rendering.HtmlFormMarshal | internal/openapi/schema.go:267-293 | fails exactly on a value that is no map; otherwise the form lists each field once, strings as they are and other values as escaped JSON |
| Rendering.FormMeaning | internal/openapi/schema.go:267-293 | a form is "name=value" for each field, joined by "&", with scalars as they are and other values as escaped JSON |
| Rendering.QueryEscapeMeaning | internal/openapi/schema.go:280-286 | letters, digits and -_.~ stand for themselves, a space for a plus, any other byte for a percent sign and two hexadecimal digits |
| Rendering.JsonBodyMeaning | internal/openapi/template.go:294-308 | when no name holds an admitted placeholder: the body of every request is the JSON of the same value with the payload in its admitted holes, if and only if the payload holds no admitted placeholder but that of a hole itself |
| Rendering.FormBodyMeaning | internal/openapi/template.go:280-292 | the same for the form of an object |
| RequestBodies.CompileContent | internal/openapi/template.go:154-177 | a schema is compiled once, and once more for XML; it ends as the first of these that does not succeed, and panics without a schema; it draws as many placeholders as these compilations |
| RequestBodies.BuildBodies | internal/openapi/template.go:153-219 | succeeds only if every content type compiles, in both modes for XML, and is marshalled; otherwise ends as the first that does not, with a panic exactly for a panic of the compiler; every supported body placeholder has a body, the body of a content type renders a value of its schema whose holes are body parameters, each a minted word with the limits of a string in a schema; the plain body is one of those words; the placeholders drawn are those of all content types |
| RequestBodies.BuiltIffReady | internal/openapi/template.go:153-219 | bodies are built if and only if every content type compiles and gives XML and forms a map; otherwise the first that does not decides between error and panic |
| RequestBodies.BodyPlaceholdersMeaning | internal/openapi/template.go:153-219 | a body placeholder is supported exactly when a content type that goes with it compiles a string |
| Operations.OperationTemplate | internal/openapi/template.go:132-225 | ends as the first parameter that is not read and otherwise as its bodies do; a template serves a placeholder exactly when the operation has a string parameter there or compiles a string for such a body, keeps its parameters, and its bodies render the schemas |
| Operations.PathTemplates | internal/openapi/template.go:61-129 | one template for each operation of the path, in order, or the end of the first that fails or panics; each draws its placeholders after those before it, and no two templates share one |
| Operations.ServesKnown | internal/openapi/template.go:132-225 | templates serve known placeholders only, and URLPath, Header and URLParam exactly when the operation takes a string in that place |
| Operations.PlainBodyIsPayload | internal/openapi/template.go:204-214 | in every request a plain body is the payload if its string admits it, and its placeholder otherwise, if and only if an admitted payload holds no other admitted placeholder |
| Operations.HeadBecomesGet | internal/openapi/template.go:61-129 | no template has the method HEAD; a HEAD beside a GET makes two GET templates of the same operation; a HEAD without a GET is the only nil operation, dereferenced unless CONNECT or DELETE fails first |
| Operations.SlotsMeaning | internal/openapi/template.go:61-129 | a path has one template for each of its operations under its own method, and for HEAD one more of GET |
| Operations.SlotsInOrder | internal/openapi/template.go:61-129 | the templates of a path come in the alphabetical order of their methods |
| SchemaValues.ValueApart | internal/openapi/schema.go:119-196 | in both modes every placeholder left in a value is a parameter, different fields of every map have different placeholders, and a list repeats one item |
| SchemaValues.ValueConforms | internal/openapi/schema.go:26-196 | a JSON value has exactly the fields of its schema, each from the last branch or property that has it, and for each string a placeholder with the limits of that string |
| SchemaValues.IntegersGiven | internal/openapi/helpers.go:7-29 | exactly which integers a schema may compile to: between its bounds with their decimals cut off, from 0 to 10000 without |
| SchemaValues.IntegersWithin | internal/openapi/helpers.go:7-29 | all of them are within the bounds of the schema if and only if a positive lower and a negative upper bound that belong to the range are whole |
| SchemaValues.NumbersGiven | internal/openapi/helpers.go:32-53 | exactly which numbers: whole steps above the lower bound, up to the upper one or one less when it is excluded |
| SchemaValues.NumbersWithin | internal/openapi/helpers.go:32-53 | a number is always within the bounds of its schema |
| SchemaValues.ItemsGiven | internal/openapi/schema.go:150-168 | an array is one value of its items' schema, as often as minLength says, or once without |
| SchemaValues.ObjectEnds | internal/openapi/schema.go:170-196 | an object compiles exactly when all its properties do; otherwise the first that does not decides, with a panic for one without a schema |
| SchemaValues.BranchesEnd | internal/openapi/schema.go:39-98 | a join or a choice compiles exactly when every branch compiles to a map; otherwise the first that does not decides, with an error when only the map is missing |
| SchemaValues.LeavesCompile | internal/openapi/schema.go:119-200 | how a schema without parts compiles, type by type: unknown types fail, and empty ranges, strings under 16 letters and arrays without items panic |
| SchemaValues.HolesLeft | internal/openapi/schema.go:54-68 | a JSON value has exactly as many placeholders as strings are left in its schema when later branches hide earlier fields |
| SchemaValues.LeftOfStrings | internal/openapi/schema.go:54-68 | never more strings are left than are compiled, so a placeholder is served wherever one is left |
| XmlStrings.XmlHolesLeft | internal/openapi/schema.go:54-234 | an XML value has exactly the fields that the tags of its schema give, and as many placeholders as strings are left when later tags and declared namespaces hide earlier fields |
| XmlStrings.XmlLeftOfStrings | internal/openapi/schema.go:54-234 | never more strings are left in XML than are compiled |
| SchemaValues.XmlTagged | internal/openapi/schema.go:101-234 | a typed XML value stands in its tag with its namespace declared |
| Operations.BodyValueFits | internal/openapi/template.go:155-218 | these hold of the value behind the JSON and the form body of a template, with the body parameters of the template |
| Operations.XmlValueFits | internal/openapi/template.go:171-188 | the value behind an XML body has parameters of the template as placeholders, apart, and as many as strings are left in XML |
| Operations.StringHoldsPayload | internal/openapi/template.go:300-307 | in place of a string stands the payload exactly when the limits of that string admit it |
| Operations.JsonRequest | internal/openapi/template.go:132-336 | a JSON body is the JSON of a value of its schema; when no name holds an admitted placeholder, in every request its admitted strings hold the payload and nothing else differs, if and only if the payload holds no admitted placeholder but that of a hole itself |
| Operations.JsonCarries | internal/openapi/template.go:161-308 | a JSON body has a placeholder for each string left in its schema; under those conditions a request holds the payload if one of them admits it, and is the same for all payloads that none admits |
| Operations.FormRequest | internal/openapi/template.go:132-292 | the same for a form |
| Operations.FormCarries | internal/openapi/template.go:190-292 | the same for a form |
| Operations.ServedInVain | internal/openapi/template.go:161-164 | builds the template of an operation, which serves JSONBody although the value that is its body has no placeholder |
| Operations.NewTemplates | internal/openapi/template.go:36-58 | every operation of every path has its template, each indexed under exactly the placeholders it serves, all of them known, and no two templates share a body parameter; or building ends as the first operation that fails or panics |
| SchemaCompiler.GenRandomString | internal/openapi/helpers.go:56-69 | letters only, at least 16 and within the limits, or a panic exactly when the limits do not fit |
| Placeholders.SupplyIff | internal/openapi/helpers.go:71-74 | placeholders can be drawn without repetition as often as there are words of 16 letters, 52^16, and not more often |
| Schemas.StringsMinted | internal/openapi/schema.go:73-98 | never more placeholders are left than are drawn; a oneOf drops those of the alternatives it does not take |
| SchemaCompiler.SchemaToMap | internal/openapi/schema.go:26-237 | succeeds, fails or panics as the first part of the schema that does not compile, in the order of the walk; the result is a value of the schema in the mode asked for: joins and objects merge their parts in order, a oneOf has the value of its first alternative with the most strings, a string is a placeholder with its own limits and apart from all others, and XML is wrapped in its tag; strings are available exactly when there are parameters, and every placeholder left is one of them; one placeholder is drawn for each string of every branch, property and item |
| SchemaCompiler.CompileJoin | internal/openapi/schema.go:39-71 | merges the maps of all branches in order, in both modes, their placeholders apart; fails when a branch is not a map |
| SchemaCompiler.CompileOneOf | internal/openapi/schema.go:73-98 | in both modes the result is a value of the first branch with the most strings, or null when none has any |
| Schemas.ChosenIsFirstLargest | internal/openapi/schema.go:73-98 | the alternative that a oneOf stands for is the first with the most strings, and there is none exactly when no alternative has a string |
| SchemaCompiler.CompileArray | internal/openapi/schema.go:150-168 | repeats one item; there are as many as the schema asks for if and only if minLength, or one, is that many |
| SchemaValues.TooFewItems | internal/openapi/schema.go:156-159 | a schema that asks for two items and of which every value has one |
| SchemaValues.HiddenString | internal/openapi/schema.go:58-66 | a schema with one string of which no value has a placeholder |
| SchemaCompiler.CompileObject | internal/openapi/schema.go:170-196 | merges what the properties give, in the order of the walk and in both modes, with a placeholder of its own for every string |
| SchemaValues.ShortStringFails | internal/openapi/helpers.go:56-69 | a string compiles exactly when its maximum length is at least 16 and its minimum; a shorter one panics, and an object with it anywhere does not compile |

## Left out

- The HTTP, Chrome, gRPC and GraphQL clients, cookies, TLS, timers, the progress bar, signals and
  logging: an exchange is an arbitrary answer.
- Regular expressions, block checks, routing, response validation and SHA-256: uninterpreted. The
  hash of a case is given, since the hash of a raw-request configuration walks a map.
- Machine integers: counters, lengths and sums are unbounded, except where `genRandomString` and
  `schemaToMap` convert lengths; schema lengths are at most 2^63-1.
- Floating point: percentages, scores and numeric bounds are exact reals, rounded half away from
  zero; 0/0 is 0, as `Round` makes it.
- Strings are sequences of bytes; JSUnicode payloads are valid Unicode, so the replacement of
  malformed UTF-8 by the library's encoder is not modelled.
- Outcomes.Decide: a client that gives neither a response nor an error counts as a crash.
- Pipeline.FinishedScan: a crash of one worker ends the whole program, which the state machine does
  not show; `Outcomes.Decide` says when an exchange crashes.
- Pipeline.ReachableInv: a step records an item with all its updates, where the updates of one run
  over templates can interleave with those of other workers; the theorems of `EndToEnd.dfy`
  therefore hold for every order of the single updates.
- EndToEnd.ScanConserved: holds without OpenAPI templates; with them an item adds one record per
  slot that its run reaches, as `TemplateRuns.OneRecordPerSlot` states.
- SchemaCompiler.SchemaToMap: cyclic schemas and colliding random names are excluded: the placeholders
  that are drawn are distinct, and there are as many as the schema's strings.
- SchemaCompiler.GenRandomString: memory is unbounded, so the panic of `make` for strings that cannot be
  allocated, from 2^46 letters on, is not modelled; all lengths that overflow an `int` are such.
- PathSubstitution.PathOrderIff: payloads that both close a brace they did not open and leave one open,
  for which the equivalence can fail (`Templates.PayloadsCanJoin`), or that have a parameter's name
  within further braces, are not covered.
- Templates.PathMeaning: excludes the same payloads.
- Templates.CreateRequest: the order in which query parameters are joined is some order.
- Operations.ParseParameters: how one parameter yields its key and value, an error or a panic is given.
- Rendering.JsonBodyMeaning: how names are escaped inside JSON quotes and numbers are printed is
  given; that no name contains a minted placeholder is a condition.
- XML rendering is an uninterpreted function, which `RequestBodies.BuiltIffReady` takes to accept
  every map; that its text is delimited as `Substitution.BodyOrderIff` asks is a condition of
  `Templates.BodyMeaning`.
- The libraries for Base64, UTF-16 and hexadecimal text are modelled from section 4 of RFC 4648 and
  section 2 of RFC 2781, with the library's treatment of line breaks and malformed units.
- `preCheck`, the detection of JavaScript challenges and of the WAF, case loading, exports, grades,
  charts, payload truncation, the payload tables of the HTML report and e-mail.
- The URL, XML entity and plain encoders and the placeholders that build requests: thin wrappers.
