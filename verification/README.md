# Verified models of the GasGuard repository

Dafny models of the repository's state machines and algorithms, with proofs of what they promise. Each
module follows one component: code that updates fields is a class whose methods are proved against
functions of the old state, code made of expressions is functions, and the promised properties are lemmas
about those functions over every input or every run. `dafny verify dfyconfig.toml` checks everything.

| files | component |
|---|---|
| `RustAst`, `RuleEngine`, `UnusedStateVariables` | the unused-state-variable rule and its syntax-tree traversal |
| `VisitedPlaces`, `MentionedPlaces` | what the traversal collects and where fields are mentioned, by relations on the syntax tree |
| `FieldMentions`, `RustSemantics`, `Erasure`, `NonInterference`, `FieldRemoval`, `RemovalSimulation`, `UnusedFieldSafety`, `MissedUses`, `LostInitializers` | an evaluator for the covered Rust, what a report of the rule means for execution, and programs it misjudges |
| `ExportCollection`, `CsvExport`, `Decimals`, `Rfc4180`, `ReportText` | collecting records, the CSV export, a reader for RFC 4180, section 2, and finding the table in the whole text |
| `Brackets`, `SorobanParser`, `SorobanSignatures` | bracket-aware splitting, the struct-field parser and the parameter parser |
| `RateLimit`, `RateLimitService` | the sliding-window rate limiter |
| `PropertyToken`, `PropertyTokenContract`, `PropertyTokenSafety`, `PropertyTokenAcceptance` | the property token contract |
| `ConfigRegistry`, `ConfigRegistrySafety`, `ConfigRegistryAcceptance` | the on-chain configuration registry |
| `ApiKeys`, `ApiKeysSafety` | the API key life cycle |
| `GasAggregation` | gas time-series aggregation and the exponential moving average |
| `SpikeRules`, `GasMonitor` | gas spike classification and alerts |
| `FailureAccounting` | failed-transaction index and waste accounting |
| `AnalyzerRegistry`, `ResultMerging` | the analyzer registry and the merging of reports |
| `RpcFailover` | failover between RPC providers |
| `Wrappers`, `Text`, `Arithmetic`, `Sequences`, `Sums`, `Ordering` | shared definitions |

## Where the code and its descriptions differ

The models follow the code.

- The unused-state-variable rule says a reported variable is "never read or written". That is so only for fields not mentioned in the places it does not look: references, parentheses, tuples, ranges, macro arguments, match guards and patterns, renamed fields of struct patterns, functions nested in a body, and all other items of the file (other impl blocks of the struct and those of other types, free functions, trait defaults, modules); and a struct literal may write the field, since the rule looks at the initializer but not at the field's name. `ReportedMentionsAreHidden` says exactly when a reported field is mentioned; the lemmas of `MissedUses` give programs where the report is wrong. Initializers are no obstacle to non-interference.
- A derived comparison or another operation on the whole struct that looks into the field is no mention; the main theorems therefore ask operators and host to ignore it, and `DerivedEqualityIsMissed` shows that they must. Operators on numbers and texts do (`ScalarOperatorsIgnore`), and so does a host that clones, stores and returns whole structs (`StorageHostIgnores`).
- The rule advises removing a reported field. The compiler then demands that its initializers go too, and with them go their effects: `ReportedFieldCanBeDeleted` says when that changes nothing, `EffectfulInitializerIsLost` gives a program that it changes. The rule's own example (packages/rules/src/unused_state_variables.rs:170) initializes the field with a method call, which the model gives to the host and therefore does not take for inert.
- The rotation code speaks of a grace period for rotated API keys, but only ACTIVE keys validate: `NeverValidatedAgain`.
- `prevent_replay` saves the nonce before it checks the transaction id. A repeated id is harmless only because the runtime undoes every write of a failed message: `Contract.CheckReplay` leaves the write behind, `Contract.Execute` undoes it.
- The batch of the configuration registry stores its keys under the persistent key `version_snapshot`, which any caller could also use as a configuration key; `StepKeepsAgreement` says exactly which operations break the agreement of key list and store, `RunKeepsAgreement` exactly which runs, and `SomeRunBreaks` gives one from deployment.
- `split_preserving_parentheses` does not count angle brackets: `AngleBracketsSplit`.
- `mergeResults` drops a non-positive sum of savings and recounts summaries, except for a single report, which it returns as it is; `RegroupingIsSafeExactlyFor` gives the reports for which this cannot be noticed.
- The wallet analysis reports the cost of all failures next to a breakdown of those in the timeframe: `BreakdownAgreesWithCost`.
- The exponential moving average of a period below 1 would leave the range of its data: `EmaStaysInside`. The function is private and called only with period 24 (src/modules/price-volatility-analyzer/volatility.engine.ts:49, 67), so this input does not occur.
- The alert's previous fee is read from the history of the chain asked for, the percentage from that of the snapshot's chain: `ComparesRightExactly` and `AlertsAreConsistentExactly` say exactly when the two belong together.
- The comment lines of an export are not escaped, so a line feed in a filter text can end them early: `ReportIsReadable`.

## Model

| member | source | states |
|---|---|---|
| `UnusedFieldSafety.ReportedFieldDoesNotInterfere` | packages/rules/src/unused_state_variables.rs:19-59 | non-interference: if the rule reports field f of struct s and f is not mentioned where the rule does not look, then any function of the file (of an impl block, free, a trait default, in a module), run on arguments and after host calls that agree up to f, gives results, variables and host calls that agree up to f, for every fuel and every meaning of operators and host calls on whole values that does not itself look into f |
| `UnusedFieldSafety.ReportedFieldCanBeDeleted` | packages/rules/src/unused_state_variables.rs:41-51 | when following the advice is safe: the edited file, without the declaration of the reported field and without its initializers in the literals of its struct, does in every run that does not abort what the original does with the field erased from all values, if the removed initializers only read, compute and build tuples; in every run whatsoever, if they are literals, enum paths, tuples, parentheses and references of these |
| `UnusedFieldSafety.DeletedFieldIsGone` | packages/rules/src/unused_state_variables.rs:41-51 | the edited file neither declares, initializes, reads, assigns nor matches the field |
| `UnusedFieldSafety.StorageContractsCanDropTheField` | packages/rules/src/unused_state_variables.rs:41-51 | with integer arithmetic and a host that clones and stores whole structs only the conditions on the text of the file remain |
| `RemovalSimulation.EvalCut` | packages/rules/src/unused_state_variables.rs:41-51 | evaluating any expression with the initializers removed is evaluating the original, once the field is not declared (simulation, mutually inductive over the whole language) |
| `FieldRemoval.LiteralSurvivesExactly` | packages/rules/src/unused_state_variables.rs:41-51 | a literal keeps its meaning without the initializer of an undeclared field if and only if evaluating that initializer ends normally and changes nothing |
| `LostInitializers.EffectfulInitializerIsLost` | packages/rules/src/unused_state_variables.rs:41-51 | `C { f: tick() }` meets every other condition, but without the field the call is no longer made |
| `LostInitializers.ConstantCanGo` | packages/rules/src/unused_state_variables.rs:41-51 | `C { f: 0 }`, or any other constant, meets all conditions, and the edited file runs as the original |
| `UnusedFieldSafety.ReportedMentionsAreHidden` | packages/rules/src/rule_engine.rs:85-215 | exactly when a reported field is mentioned at all in the modelled language: it is read, assigned or matched if and only if that happens in a place the traversal skips inside the checked impl block, or in any other item of the file; apart from that it can only be initialized in a literal of its struct |
| `UnusedFieldSafety.AgreeExceptForStructs` | packages/rules/src/unused_state_variables.rs:128-146 | what agreeing up to a field means for two values of its struct: same other fields, with agreeing values |
| `MissedUses.ReferenceIsMissed` | packages/rules/src/rule_engine.rs:186-188 | a method returning `&self.f` reads f, yet f is reported (references fall into the ignored arm) |
| `MissedUses.GuardIsMissed` | packages/rules/src/rule_engine.rs:154-159 | a match guard reading `self.f` is not visited, yet decides the result |
| `MissedUses.RenamingPatternIsMissed` | packages/rules/src/rule_engine.rs:195-199 | `let C { f: x } = self` reads f, but only the bound variable is collected |
| `MissedUses.EarlierImplIsMissed` | packages/rules/src/unused_state_variables.rs:78-97 | a later impl block of the same struct replaces an earlier one that plainly reads `self.f` |
| `MissedUses.FreeFunctionIsMissed` | packages/rules/src/unused_state_variables.rs:78-97 | a method that hands `self` to a free function reading the field is decided by the field, yet the field is reported |
| `MissedUses.NestedFunctionIsMissed` | packages/rules/src/rule_engine.rs:85-99 | the same with the function nested in the method body |
| `MissedUses.DerivedEqualityIsMissed` | packages/rules/src/unused_state_variables.rs:128-146 | with a comparison that looks at all fields, as a derived one does, a method comparing `self` with a literal is decided by a reported field; such a comparison fails the condition on operators |
| `NonInterference.EvalErase` | packages/rules/src/rule_engine.rs:101-188 | evaluating an expression that avoids a field commutes with erasing the field from the state (simulation, mutually inductive over the whole language) |
| `NonInterference.RunErase` | packages/rules/src/rule_engine.rs:70-83 | the same for running any function of the program on argument values |
| `FieldMentions.FnsMention` | packages/rules/src/rule_engine.rs:70-83 | for a name the traversal did not collect, being mentioned anywhere means being mentioned where it does not look, and conversely |
| `RuleEngine.FindVariableUsage` | packages/rules/src/rule_engine.rs:70-83 | the mutating traversal returns exactly the names of the traversal specification over all method bodies |
| `RuleEngine.ExtractFromExpr` | packages/rules/src/rule_engine.rs:101-188 | inserts exactly the names of one expression into the shared set, keeping what is there |
| `RuleEngine.ExtractFromStmt` | packages/rules/src/rule_engine.rs:85-99 | the same for one statement |
| `RuleEngine.ExtractFromPat` | packages/rules/src/rule_engine.rs:190-215 | the same for one pattern |
| `UnusedStateVariables.Rule.Check` | packages/rules/src/unused_state_variables.rs:19-59 | the reported list, in order: per contract struct with an impl block, its unused fields |
| `UnusedStateVariables.Rule.FindContractStructs` | packages/rules/src/unused_state_variables.rs:63-76 | the structs with a contract attribute, in order |
| `UnusedStateVariables.Rule.FindContractImpls` | packages/rules/src/unused_state_variables.rs:78-97 | for each type name its last impl block |
| `UnusedStateVariables.FindingsAreReports` | packages/rules/src/unused_state_variables.rs:19-59 | a field is in the reported list if and only if some contract struct of that name declares it and the last impl block of that name does not use it |
| `UnusedStateVariables.UsageTestIsMembership` | packages/rules/src/unused_state_variables.rs:128-146 | over identifiers, the `self.`-prefixed substring patterns never decide: the usage test is set membership |
| `VisitedPlaces.CollectedExactly` | packages/rules/src/rule_engine.rs:70-215 | a name is collected if and only if it stands at a place the traversal visits: as the member of a field access, as the last segment of a path and no keyword, or as a variable bound by a pattern; the visited places are those reached by steps of a relation between neighbouring nodes |
| `VisitedPlaces.ReportedExactly` | packages/rules/src/unused_state_variables.rs:19-97 | a field is reported if and only if a struct carrying one of the three contract attributes declares it, its struct has an impl block, and its name stands at no visited place of the last of them |
| `VisitedPlaces.ReportsInOrder` | packages/rules/src/unused_state_variables.rs:19-59 | the reports stand in the order of the items and of their fields, one for each declaration |
| `MentionedPlaces.ReportedReadsAreHidden` | packages/rules/src/rule_engine.rs:85-215 | a reported field is read, assigned or matched at some part of some function of the file if and only if it is where the rule does not look; the parts are those reached by steps from a node to its immediate parts |
| `Rfc4180.ParseTable` | apps/api/src/exports/exports.service.ts:178-228 | for all records, a reader for section 2 of RFC 4180 (line feed as line end) gets back the header and every record's fields, in order, whatever commas, quotes and line feeds they contain |
| `Rfc4180.ParsedRowsCarry` | apps/api/src/exports/exports.service.ts:178-228 | each parsed row carries the twelve values of its record: texts as they are, missing ones empty, and chain id, gas used and block number as decimal numerals that read as the numbers |
| `Decimals.NumbersRead` | apps/api/src/exports/exports.service.ts:206-221 | every integer is printed as a numeral without leading zeros that a separate decimal reader reads as that integer |
| `Decimals.NumeralsAgree` | apps/api/src/exports/exports.service.ts:206-221 | numerals with the same value are the same text |
| `Rfc4180.QuotedExactly` | apps/api/src/exports/exports.service.ts:223-228 | a text is quoted if and only if it contains a comma, a quote or a line feed |
| `Rfc4180.TotalIsStated` | apps/api/src/exports/exports.service.ts:158-160 | the third comment line ends in the number of records |
| `Rfc4180.HeadIsStated` | apps/api/src/exports/exports.service.ts:157-162 | the other leading comment lines state the title, the time and the two totals |
| `Rfc4180.TablesAgree` | apps/api/src/exports/exports.service.ts:206-228 | two exports are the same text if and only if they have the same field values |
| `Rfc4180.ColumnsMatchHeaders` | apps/api/src/exports/exports.service.ts:203-221 | each column of a row holds the value its header names |
| `Rfc4180.ScanField` | apps/api/src/exports/exports.service.ts:223-228 | whatever text follows, an escaped field followed by a separator reads back as the field |
| `Rfc4180.ScanRecord` | apps/api/src/exports/exports.service.ts:206-221 | a printed row reads back as the record's twelve columns, unescaped numbers included |
| `CsvExport.BuildCsvStream` | apps/api/src/exports/exports.service.ts:150-201 | for every chunk size the stream receives the same text: the comment lines of the metadata (filters only when given, the date range when one end is), a blank line, the header, and one line per record |
| `CsvExport.WriteRows` | apps/api/src/exports/exports.service.ts:181-193 | the chunked loop appends exactly one line per record, for every chunk size and every number of records |
| `CsvExport.ChunkLines` | apps/api/src/exports/exports.service.ts:181-188 | appending the next chunk to the lines of the first i rows gives the lines up to the chunk's end |
| `CsvExport.WriteReport` | apps/api/src/exports/exports.service.ts:150-201 | the service's own call, with chunks of 500 rows |
| `ReportText.ReportIsReadable` | apps/api/src/exports/exports.service.ts:150-201 | behind the first blank line of the exported text stands exactly the table, if and only if no text of the metadata holds an empty line or ends its comment line with a line feed; the RFC 4180 reader then gets rows that carry all values of all records from the whole text |
| `ReportText.TableIsFound` | apps/api/src/exports/exports.service.ts:156-178 | the same for any comment lines: the table is found if and only if no comment holds a blank line |
| `ReportText.OwnersAreStated` | apps/api/src/exports/exports.service.ts:164-167 | merchant and wallet are stated with their values if and only if they were given and not empty |
| `ReportText.RangeIsStated` | apps/api/src/exports/exports.service.ts:168-171 | the date range is stated if and only if one of its ends was given, a missing end as N/A |
| `ReportText.ChainIsStated` | apps/api/src/exports/exports.service.ts:172-173 | the chain filter is stated if and only if it was given |
| `ReportText.TxTypeIsStated` | apps/api/src/exports/exports.service.ts:174-175 | so is the transaction type filter |
| `ExportCollection.CollectWalletTxHashes` | apps/api/src/exports/exports.service.ts:284-308 | the hashes of all answered block ranges, each once, in order of first appearance; a failing range is skipped |
| `ExportCollection.ChunksCover` | apps/api/src/exports/exports.service.ts:292-293 | for every range size the ranges are the blocks from first to last, each once and in order |
| `ExportCollection.ChunksFit` | apps/api/src/exports/exports.service.ts:292-293 | no range is empty or longer than the size |
| `ExportCollection.ChunksAreFull` | apps/api/src/exports/exports.service.ts:292-293 | every range but the last has exactly the size |
| `ExportCollection.CollectedExactly` | apps/api/src/exports/exports.service.ts:284-308 | a hash is collected if and only if the answer for some range lists it |
| `ExportCollection.ExportedExactly` | apps/api/src/exports/exports.service.ts:247-277 | a record is exported if and only if some collected transaction parses to it, one for each transaction that parses |
| `ExportCollection.ScanIsComplete` | apps/api/src/exports/exports.service.ts:284-308 | with a provider that answers every range, the hashes found are those of all blocks, whatever the range size |
| `ExportCollection.CollectGasRecords` | apps/api/src/exports/exports.service.ts:232-278 | scan, parsing and sorting with the service's range and batch sizes: the records of the answered ranges sorted by time, and with a provider that answers every range the records of all blocks |
| `ExportCollection.ParseHashes` | apps/api/src/exports/exports.service.ts:247-272 | for every batch size the records are those of the parsable transactions, sorted by time |
| `ExportCollection.RecordsAreChronological` | apps/api/src/exports/exports.service.ts:274-277 | sorting puts the oldest record first, keeps all records, and keeps the order of records of equal time |
| `Brackets.SplitInvertsJoin` | packages/rules/src/soroban/parser.rs:419-450 | for any trimmed non-empty parts, splitting their join returns them if and only if all but the last have level bracket depths and none contains the delimiter at level depths |
| `Brackets.PiecesAreUnique` | packages/rules/src/soroban/parser.rs:426-443 | the pieces found are the only list of splittable pieces that joins to the text |
| `Brackets.PiecesJoin` | packages/rules/src/soroban/parser.rs:426-443 | for any text the pieces are splittable and join back to the text |
| `Brackets.SplitPreservingParentheses` | packages/rules/src/soroban/parser.rs:419-450 | the character loop cuts exactly at the delimiters up to which as many brackets of each of the three kinds were opened as closed, trims the parts and drops a blank last one |
| `Brackets.DepthsAreNets` | packages/rules/src/soroban/parser.rs:427-435 | the three depths are the opened minus the closed brackets of each kind |
| `Brackets.SplitCutsExactly` | packages/rules/src/soroban/parser.rs:419-450 | the same for the specified split |
| `Text.TrimMeaning` | packages/rules/src/soroban/parser.rs:440-447 | trimming takes white space off both ends, and all of it |
| `Brackets.AngleBracketsSplit` | packages/rules/src/soroban/parser.rs:427-435 | angle brackets are not counted: `Map<K, V>` is split at its comma |
| `SorobanParser.ExtractBetween` | packages/rules/src/soroban/parser.rs:395-416 | returns the balanced text after the first opening bracket, and None if and only if that bracket never closes |
| `SorobanParser.ExtractBetweenBraces` | packages/rules/src/soroban/parser.rs:395-416 | the same for braces |
| `SorobanParser.ExtractBetweenParentheses` | packages/rules/src/soroban/parser.rs:371-392 | the same for parentheses |
| `SorobanParser.BodyCloses` | packages/rules/src/soroban/parser.rs:400-409 | a balanced body is exactly one that starts after the first opening bracket and ends where the depth first drops below zero |
| `SorobanParser.BodyIsUnique` | packages/rules/src/soroban/parser.rs:395-416 | there is at most one such body |
| `SorobanParser.ParseField` | packages/rules/src/soroban/parser.rs:157-183 | visibility, name before the first colon, type after it with its own colons, or no field |
| `SorobanParser.FieldMeaning` | packages/rules/src/soroban/parser.rs:157-183 | a text with a colon is a field with the name before the first one and the type after it, public if and only if `pub ` stands in front |
| `SorobanParser.NoColonNoField` | packages/rules/src/soroban/parser.rs:157-183 | a text without a colon is no field |
| `SorobanParser.ParseStructFields` | packages/rules/src/soroban/parser.rs:135-154 | fails exactly when the braces never close, and otherwise parses the split of the unique body, numbering lines by position |
| `SorobanParser.ParseRendered` | packages/rules/src/soroban/parser.rs:157-183 | a rendered `pub name: type` field parses back to itself |
| `SorobanParser.ParseRenderedStruct` | packages/rules/src/soroban/parser.rs:135-154 | a rendered struct parses back to its fields, for all field lists whose types keep brackets and commas to themselves |
| `SorobanSignatures.ExtractParameters` | packages/rules/src/soroban/parser.rs:330-352 | fails exactly when the first parenthesis never closes, and otherwise parses the split of the unique text between the parentheses |
| `SorobanSignatures.ParseParam` | packages/rules/src/soroban/parser.rs:341-348 | name before the first colon and type after it, or no parameter |
| `SorobanSignatures.ParamMeaning` | packages/rules/src/soroban/parser.rs:341-348 | a text is a parameter if and only if it has a colon, with the name before and the type after the first one |
| `SorobanSignatures.ParseRenderedSignature` | packages/rules/src/soroban/parser.rs:330-352 | the parameters of a rendered signature parse back, whatever follows the closing parenthesis |
| `RateLimit.RunWithinLimits` | apps/api-service/src/transection/rate-limit.service.ts:37-105 | in every run of non-overlapping check-then-record pairs on a non-decreasing clock, every minute and every hour, wherever it ends, holds at most its limit of recorded transactions |
| `RateLimit.EveryWindowIsWithinLimits` | apps/api-service/src/transection/rate-limit.service.ts:37-105 | the same in milliseconds: no span of 60,000 and none of 3,600,000 holds more records than its limit |
| `RateLimit.DecidesExactly` | apps/api-service/src/transection/rate-limit.service.ts:37-96 | a check passes if and only if the last 60,000 and the last 3,600,000 milliseconds each hold fewer records than their limit, the shorter span being judged first |
| `RateLimit.RecordKeepsLimit` | apps/api-service/src/transection/rate-limit.service.ts:59-105 | recording after a check that saw less than the limit keeps every window within it |
| `RateLimit.RunRetryIsExact` | apps/api-service/src/transection/rate-limit.service.ts:59-93 | in such runs every rejection's retry time is in 1..60 or 1..3600 seconds, the limit that fired has cleared after it, and one second less is still rejected |
| `RateLimit.HourRetry` | apps/api-service/src/transection/rate-limit.service.ts:77-93 | after a rejection by the hour limit the whole check passes after exactly the retry time |
| `RateLimit.MinuteRetry` | apps/api-service/src/transection/rate-limit.service.ts:59-75 | after a rejection by the minute limit that limit has cleared after exactly the retry time; only the hour limit may then still reject |
| `RateLimit.FullUntilOldestLeaves` | apps/api-service/src/transection/rate-limit.service.ts:59-62 | an exactly full window stays full until its oldest entry leaves it, and no longer |
| `RateLimit.PrunedDecides` | apps/api-service/src/transection/rate-limit.service.ts:42-48 | a list pruned at an earlier cutoff decides every later check and status as the full history does |
| `RateLimit.StatusAgreesWithCheck` | apps/api-service/src/transection/rate-limit.service.ts:110-129 | the status allows exactly when a check would not throw, with the same counts |
| `RateLimitService.Limiter.Check` | apps/api-service/src/transection/rate-limit.service.ts:37-96 | the decision on the kept, pruned list is the one the merchant's full history gives; the list is pruned to the last hour |
| `RateLimitService.Limiter.Record` | apps/api-service/src/transection/rate-limit.service.ts:101-105 | appends the time to the merchant's list and history and touches no other merchant |
| `RateLimitService.Limiter.GetStatus` | apps/api-service/src/transection/rate-limit.service.ts:110-129 | the status of the full history, with nothing changed |
| `RateLimitService.Limiter.RecordTransaction` | apps/api-service/src/transection/transactions.service.ts:73-84 | check, save, record: every merchant's history stays within both limits in every window |
| `PropertyTokenSafety.ReplaySafety` | apps/rust/property-token/src/security.rs:23-55 | from instantiation, over every run: each sender's accepted nonces are 0,1,2,... without gaps, its stored nonce is their number, no tx_id is accepted twice across all senders, and the processed ids are exactly the accepted ones |
| `PropertyTokenSafety.NoncesHaveNoGaps` | apps/rust/property-token/src/security.rs:32-42 | the same for nonces from any store |
| `PropertyTokenSafety.TxIdsAreAcceptedOnce` | apps/rust/property-token/src/security.rs:46-53 | the same for transaction ids from any store |
| `PropertyTokenSafety.AcceptedBeforeExpiry` | apps/rust/property-token/src/security.rs:24-30 | no message of any run is accepted after its expiry |
| `PropertyTokenSafety.NoAuthorizationTwice` | apps/rust/property-token/src/security.rs:32-42 | whatever happens in between, an accepted authorization is rejected when its sender presents it again |
| `PropertyTokenSafety.StepReplay` | apps/rust/property-token/src/security.rs:23-55 | what one step does to nonces and ids: nothing unless it is an accepted authenticated message, which uses up its own |
| `PropertyTokenSafety.FundsAreConserved` | apps/rust/property-token/src/lib.rs:224-287 | over every run: treasury plus outflows is the first treasury plus deposits, each fee balance plus what was withdrawn is its first reading, and the emitted transfers of each denomination add up to exactly these debits |
| `PropertyTokenSafety.StepFunds` | apps/rust/property-token/src/lib.rs:224-287 | each step emits at most one transfer, of the amount of its one debit |
| `PropertyTokenSafety.FundsNeedAuthority` | apps/rust/property-token/src/security.rs:58-75 | balances change, and transfers go out, only by a fund message of the admin or of a role holder |
| `PropertyTokenSafety.AuthorityNeedsAdmin` | apps/rust/property-token/src/lib.rs:290-428 | admin and roles change only by a configuration or cleanup message of the stored admin |
| `PropertyTokenSafety.MigrationMeaning` | apps/rust/property-token/src/lib.rs:104-135 | a migration succeeds exactly for the current version over an older or missing one, not twice, keeps the treasury reading, and repairs the version and treasury self-checks |
| `PropertyTokenSafety.CleanupIsInvisible` | apps/rust/property-token/src/lib.rs:388-428 | from any state cleanup keeps every authorization decision and every fee reading, and is idempotent |
| `PropertyTokenSafety.SelfCheckAfterCleanup` | apps/rust/property-token/src/lib.rs:436-513 | after cleanup the self-check is ok if and only if the admin is non-empty, the version current and the treasury set |
| `PropertyTokenSafety.RunsStaySound` | apps/rust/property-token/src/lib.rs:321-371 | no run from instantiation stores a false role or loses version, treasury or admin |
| `PropertyTokenSafety.BatchMeaning` | apps/rust/property-token/src/lib.rs:174-208 | a batch fails if and only if some update's key is neither stored before nor set earlier in the batch; otherwise each key ends with its last item or as it was |
| `PropertyTokenSafety.SingleIsBatchOfOne` | apps/rust/property-token/src/lib.rs:139-208 | setting or updating one token is a batch of one item |
| `PropertyTokenSafety.BatchInParts` | apps/rust/property-token/src/lib.rs:183-206 | a batch is its prefix followed by its rest |
| `PropertyTokenSafety.MutationsAreOneByOne` | apps/rust/property-token/src/lib.rs:307-372 | judging all role updates against the stored roles and then applying them is performing them one at a time, with the same first error |
| `PropertyTokenSafety.UpdateConfigIsOneByOne` | apps/rust/property-token/src/lib.rs:290-379 | the same for the whole handler: same error and no change, or the same roles |
| `PropertyTokenAcceptance.AcceptedExactly` | apps/rust/property-token/src/lib.rs:64-287 | an authenticated message succeeds if and only if its nonce is the stored one and below the u64 bound, it has not expired, its id was not processed, its sender is the admin or holds a true role if it moves funds, and the handler can do it (key stored, no dangling update, amount within the balance, no overflow) |
| `PropertyTokenAcceptance.AcceptedReplayCells` | apps/rust/property-token/src/security.rs:23-55 | an accepted message uses up its nonce and id and leaves admin, roles and version alone |
| `PropertyTokenAcceptance.AcceptedMetadata` | apps/rust/property-token/src/lib.rs:139-208 | the metadata after an accepted message: the last item for a key, every other key as it was |
| `PropertyTokenAcceptance.AcceptedFunds` | apps/rust/property-token/src/lib.rs:224-287 | the balances and transfers after an accepted message: one balance moved by its amount with the transfer to match, nothing else |
| `PropertyTokenAcceptance.MessageErrors` | apps/rust/property-token/src/security.rs:23-75 | which error a failing message gives: of the authority, then of the replay checks, then of its handler |
| `PropertyTokenAcceptance.ReplayErrors` | apps/rust/property-token/src/security.rs:23-55 | which replay error is given, each exactly under its condition |
| `PropertyTokenAcceptance.ConfigAcceptedExactly` | apps/rust/property-token/src/lib.rs:290-337 | a configuration message succeeds if and only if the admin sends it, the new admin is not blank, no role address is blank or named twice, and only stored roles are revoked |
| `PropertyTokenAcceptance.ConfigCells` | apps/rust/property-token/src/lib.rs:338-379 | after it: the trimmed new admin, each named role granted or removed, all others and all other cells as they were |
| `PropertyTokenAcceptance.CleanupExactly` | apps/rust/property-token/src/lib.rs:388-428 | cleanup succeeds if and only if the admin sends it, and drops exactly the zero balances and the false roles |
| `PropertyTokenAcceptance.FirstStore` | apps/rust/property-token/src/lib.rs:32-62 | the store after deployment |
| `PropertyTokenContract.Contract.Execute` | apps/rust/property-token/src/lib.rs:64-89 | a message as the runtime executes it: the specified store and transfers, or an error and no change at all |
| `PropertyTokenContract.Contract.Dispatch` | apps/rust/property-token/src/lib.rs:64-89 | the handlers writing cell by cell reach the specified store, or fail with the specified error |
| `PropertyTokenContract.Contract.CheckReplay` | apps/rust/property-token/src/security.rs:13-56 | expiry, nonce and id checks with the nonce saved before the id check |
| `PropertyTokenContract.Contract.RunBatch` | apps/rust/property-token/src/lib.rs:183-206 | the batch loop is the specified fold |
| `PropertyTokenContract.Contract.RunTreasury` | apps/rust/property-token/src/lib.rs:260-287 | deposit and the two outflows |
| `PropertyTokenContract.Contract.CollectMutations` | apps/rust/property-token/src/lib.rs:307-337 | the validation loop gives the specified mutations or first error and writes nothing |
| `PropertyTokenContract.Contract.RunUpdateConfig` | apps/rust/property-token/src/lib.rs:290-379 | all errors come before the first write |
| `PropertyTokenContract.Contract.RunCleanup` | apps/rust/property-token/src/lib.rs:388-428 | collecting keys and removing them one by one removes exactly the zero balances and the false roles |
| `PropertyTokenContract.Contract.RunMigrate` | apps/rust/property-token/src/lib.rs:104-135 | version checks, treasury initialisation and version bump, or an error and no change |
| `PropertyTokenContract.Contract.SelfCheck` | apps/rust/property-token/src/lib.rs:436-513 | ok if and only if all five checks pass, which is when no failure is listed |
| `ConfigRegistrySafety.StepKeepsAgreement` | examples/on_chain_config_registry.rs:125-202 | from a state whose key list names exactly the stored entries, an accepted operation keeps it so if and only if it does not write an entry over the stored batch snapshot, and is no batch that overwrites a listed entry under the reserved key or lists that key itself |
| `ConfigRegistrySafety.RunKeepsAgreement` | examples/on_chain_config_registry.rs:125-202 | list and store agree at every point of a run if and only if no step of it is such an operation |
| `ConfigRegistrySafety.SomeRunBreaks` | examples/on_chain_config_registry.rs:125-172 | two calls from deployment after which they disagree |
| `ConfigRegistrySafety.RunStaysRegular` | examples/on_chain_config_registry.rs:125-202 | in every run whatsoever the list has no repetition and names only stored keys, every stored key but the reserved one is listed and holds an entry, and every version is in 1..current |
| `ConfigRegistrySafety.AgreementAtReserved` | examples/on_chain_config_registry.rs:125-172 | in such states list and store agree if and only if they agree on the reserved key |
| `ConfigRegistrySafety.StepStaysIndexed` | examples/on_chain_config_registry.rs:125-202 | from a state whose reserved key is free of entries and listings, an accepted operation keeps it free, with list and store in agreement, if and only if it neither sets that key nor is a batch naming it before any snapshot is stored |
| `ConfigRegistrySafety.RunStaysIndexed` | examples/on_chain_config_registry.rs:125-202 | in every run that keeps that key free, the list is duplicate-free, lists exactly the stored configuration keys, and every version is in 1..current |
| `ConfigRegistrySafety.RunVersionsNeverDrop` | examples/on_chain_config_registry.rs:136-160 | over any run, a key's version never decreases while the key stays stored |
| `ConfigRegistrySafety.VersionsNeverDrop` | examples/on_chain_config_registry.rs:136-160 | the same for one operation, for the entry and for the current version |
| `ConfigRegistrySafety.OfficesNeedAdmin` | examples/on_chain_config_registry.rs:281-315 | admin, updater and emergency admin change only by initialisation, or by an operation the stored admin authorized |
| `ConfigRegistrySafety.EntriesNeedAuthority` | examples/on_chain_config_registry.rs:317-374 | for every key: what is read under it changes only by an authorized operation that names it or, for the key of the batch snapshot, by an authorized batch; an entry readable after a change names its writer |
| `ConfigRegistrySafety.BatchMeaning` | examples/on_chain_config_registry.rs:125-172 | a batch is rejected only by its authorization, its size or the version counter; otherwise each key ends with its last update under the new version and all others are untouched, but the key of the snapshot, which ends unreadable with the names of the batch even if the batch sets it |
| `ConfigRegistryAcceptance.AcceptedExactly` | examples/on_chain_config_registry.rs:75-202 | each operation succeeds if and only if its offices, authorizations, sizes and keys allow it, said in terms of the stored cells |
| `ConfigRegistryAcceptance.AcceptedCells` | examples/on_chain_config_registry.rs:75-122 | the storage after each accepted operation but a batch: which office, entry and listing changed, and nothing else |
| `ConfigRegistryAcceptance.BatchCells` | examples/on_chain_config_registry.rs:125-172 | the storage after a batch: the next version, each named key with its last payload and its writer, the snapshot under `version_snapshot`, all other keys as they were |
| `ConfigRegistryAcceptance.WriteErrors` | examples/on_chain_config_registry.rs:317-331 | which error a failing set or batch gives |
| `ConfigRegistrySafety.OneGetterSucceeds` | examples/on_chain_config_registry.rs:205-247 | a typed getter succeeds if and only if the stored entry has its type |
| `ConfigRegistrySafety.GetAfterSet` | examples/on_chain_config_registry.rs:92-122 | what a setter stored is what the getter of its type reads; all other getters report a type mismatch |
| `ConfigRegistry.Registry.Run` | examples/on_chain_config_registry.rs:75-122 | any operation gives the specified storage, or the specified error and no change |
| `ConfigRegistry.Registry.RunBatch` | examples/on_chain_config_registry.rs:125-172 | the batch loop, re-reading each entry to stamp it, never fails midway |
| `ConfigRegistry.Registry.RunDelete` | examples/on_chain_config_registry.rs:175-202 | removes the entry and filters the key list |
| `ConfigRegistry.Registry.PutEntry` | examples/on_chain_config_registry.rs:334-374 | stores the entry under the current version and lists a new key |
| `ApiKeysSafety.RunExtends` | apps/api-service/src/audit/services/api-key.repository.ts:80-109 | over every run no key is lost or changes identity, and its status rank ACTIVE < EXPIRED < ROTATED < REVOKED never decreases |
| `ApiKeysSafety.NeverValidatedAgain` | apps/api-service/src/audit/services/api-key.service.ts:150-177 | a key that has left ACTIVE is never validated again, whatever calls follow |
| `ApiKeysSafety.RetiredKeysStayOut` | apps/api-service/src/audit/services/api-key.service.ts:262-374 | a key rotated, revoked or expired by the job is never validated afterwards |
| `ApiKeysSafety.NewKeysValidate` | apps/api-service/src/audit/services/api-key.service.ts:105-177 | right after its creation or rotation under a fresh hash a key validates exactly until its expiry |
| `ApiKeysSafety.StaysActiveExactly` | apps/api-service/src/audit/services/api-key.service.ts:150-374 | an active key is active after a run if and only if no call of the run rotated or revoked it, or validated it or ran the expiry job past its expiry |
| `ApiKeysSafety.KeysValidateUntilExpiry` | apps/api-service/src/audit/services/api-key.service.ts:150-177 | a key neither rotated nor revoked validates exactly until its expiry, over every run of other calls up to then |
| `ApiKeysSafety.ValidationMeaning` | apps/api-service/src/audit/services/api-key.service.ts:150-177 | with distinct hashes, validation returns a key if and only if it has the hash, is active and has not expired |
| `ApiKeysSafety.ValidationEffect` | apps/api-service/src/audit/services/api-key.service.ts:150-177 | what a validation stores: a use of the first active key with the hash, or its expiry when it is overdue, or nothing |
| `ApiKeysSafety.NewKeyMeaning` | apps/api-service/src/audit/services/api-key.service.ts:105-145 | what a creation stores: active, unused, role user by default, expiring after the given or default number of days of 86,400,000 milliseconds |
| `ApiKeysSafety.RotationMeaning` | apps/api-service/src/audit/services/api-key.service.ts:262-323 | when a rotation is accepted, and the two rows it changes |
| `ApiKeysSafety.RevocationMeaning` | apps/api-service/src/audit/services/api-key.service.ts:328-354 | when a revocation is accepted, and the row it changes |
| `ApiKeysSafety.JobsMeaning` | apps/api-service/src/audit/services/api-key.service.ts:359-396 | which keys the two jobs change: overdue active ones, and rotated ones after the grace hours |
| `ApiKeysSafety.RefusalMeaning` | apps/api-service/src/audit/services/api-key.service.ts:262-354 | why a rotation or revocation fails |
| `ApiKeysSafety.RunKeepsForest` | apps/api-service/src/audit/services/api-key.service.ts:262-323 | in every reachable table each rotated-from link leads to an older key of the same merchant, name and role that is out of service |
| `ApiKeysSafety.ChainsStayWithTheMerchant` | apps/api-service/src/audit/services/api-key.service.ts:286-299 | every chain of links ends, at a key of the same merchant, name and role, and an active key has no successor |
| `ApiKeysSafety.RequestsAreValidations` | apps/api-service/src/audit/services/api-key.repository.ts:102-109 | over every run a key's request count grows by exactly its number of successful validations |
| `ApiKeysSafety.JobsAreIdempotent` | apps/api-service/src/audit/services/api-key.service.ts:359-396 | a second run of either job at the same time changes nothing and reports zero keys |
| `ApiKeys.ApiKeyService.CreateApiKey` | apps/api-service/src/audit/services/api-key.service.ts:105-145 | appends an active key with the requested or default expiry |
| `ApiKeys.ApiKeyService.ValidateApiKey` | apps/api-service/src/audit/services/api-key.service.ts:150-177 | counts a use, or marks an overdue key as expired and fails |
| `ApiKeys.ApiKeyService.RotateApiKey` | apps/api-service/src/audit/services/api-key.service.ts:262-323 | adds the successor and marks the old key rotated, or fails without change |
| `ApiKeys.ApiKeyService.RevokeApiKey` | apps/api-service/src/audit/services/api-key.service.ts:328-354 | marks the key revoked, or fails without change |
| `ApiKeys.ApiKeyService.ProcessExpiredKeys` | apps/api-service/src/audit/services/api-key.service.ts:359-374 | expires exactly the overdue active keys and counts them |
| `ApiKeys.ApiKeyService.CleanupRotatedKeys` | apps/api-service/src/audit/services/api-key.service.ts:379-396 | revokes exactly the rotated keys past the grace period and counts them |
| `ApiKeys.ApiKeyService.UpdateAll` | apps/api-service/src/audit/services/api-key.service.ts:359-396 | the loop over previously found ids changes exactly the selected keys |
| `ApiKeys.ApiKeyService.UpdateStatus` | apps/api-service/src/audit/services/api-key.repository.ts:80-86 | changes one key's status, or nothing for an unknown id |
| `ApiKeys.ApiKeyService.RecordUsage` | apps/api-service/src/audit/services/api-key.repository.ts:102-109 | counts one use and stamps the time |
| `GasAggregation.AggregateByInterval` | src/modules/price-volatility-analyzer/gas-data-aggregation.service.ts:117-157 | raw data is returned as it is; otherwise, with widths of 60,000, 300,000 and 3,600,000 milliseconds, each output starts at a multiple of the width and averages exactly the records within that width of it, the outputs stand in increasing order, and every record lies within exactly one |
| `GasAggregation.BucketIsGridPoint` | src/modules/price-volatility-analyzer/gas-data-aggregation.service.ts:123-127 | the start of a time's window is the one multiple of the width at most the width before it |
| `GasAggregation.AggregateIsUnique` | src/modules/price-volatility-analyzer/gas-data-aggregation.service.ts:117-157 | given records have only one aggregation |
| `GasAggregation.WindowsPartition` | src/modules/price-volatility-analyzer/gas-data-aggregation.service.ts:123-127 | the windows of an aggregation partition the records, as multisets |
| `GasAggregation.AggregationConserves` | src/modules/price-volatility-analyzer/gas-data-aggregation.service.ts:131-143 | for each of the four quantities, averages times window sizes add up to the total of the records, less a rounding loss below one unit per record |
| `GasAggregation.AverageBounds` | src/modules/price-volatility-analyzer/gas-data-aggregation.service.ts:132-143 | each floored average a of n records satisfies n*a <= sum < n*a + n |
| `GasAggregation.AveragesStayInside` | src/modules/price-volatility-analyzer/gas-data-aggregation.service.ts:131-153 | each averaged amount lies between the least and the greatest of its own window |
| `GasAggregation.AggregationIsIdempotent` | src/modules/price-volatility-analyzer/gas-data-aggregation.service.ts:117-157 | an aggregation is its own aggregation |
| `GasAggregation.ComputeEma` | src/modules/price-volatility-analyzer/volatility.engine.ts:138-146 | the loop computes the recursive definition, and 0 for no values |
| `GasAggregation.EmaMoves` | src/modules/price-volatility-analyzer/volatility.engine.ts:138-146 | the first value is the average, and each later one moves it by 2 / (period + 1) of its distance from it |
| `GasAggregation.EmaStaysInside` | src/modules/price-volatility-analyzer/volatility.engine.ts:138-146 | the average of every non-empty series lies between its least and greatest value if and only if the period is at least 1 |
| `SpikeRules.ClassifySeverity` | src/modules/gas-spike-alert/spike-classifier.service.ts:142-183 | the running maximum over the four readings is the highest severity among the threshold engine's results |
| `SpikeRules.Evaluate` | src/modules/gas-spike-alert/threshold-engine.service.ts:30-73 | the results of exactly the rules that fire, in rule order |
| `SpikeRules.TriggeredSpikeTypes` | src/modules/gas-spike-alert/spike-classifier.service.ts:188-213 | the spike types of the engine's results of at least the given severity, in order; at INFO, of all its results |
| `SpikeRules.SeverityMeaning` | src/modules/gas-spike-alert/threshold-engine.service.ts:79-87 | a snapshot has severity s if and only if some reading reaches a threshold of s and no reading reaches one of a higher severity, for arbitrary (also unordered) thresholds |
| `SpikeRules.ThresholdSource` | src/modules/gas-spike-alert/spike-classifier.service.ts:66-93 | a threshold is the chain's own setting, else the global one, else the default; an own setting without a value hides the global one |
| `SpikeRules.CapIsInvisible` | src/modules/gas-spike-alert/spike-classifier.service.ts:44-49 | metrics computed from the capped history are those of the unbounded one |
| `SpikeRules.VolatilityMeaning` | src/modules/gas-spike-alert/spike-classifier.service.ts:230-236 | the volatility index of non-negative fees is in 0..1, and 0 if and only if all fees are equal |
| `SpikeRules.MetricsMeaning` | src/modules/gas-spike-alert/spike-classifier.service.ts:97-134 | the metrics of a snapshot: means of both fees and relative spread of the base fees over the last ten points before it, and the two changes from the last point in percent |
| `SpikeRules.ResultMeaning` | src/modules/gas-spike-alert/threshold-engine.service.ts:30-73 | a rule's result: its reading, the highest severity whose threshold it reaches, and that threshold |
| `SpikeRules.DefaultsAre` | src/modules/gas-spike-alert/spike-classifier.service.ts:66-93 | the thresholds of a chain without settings |
| `GasMonitor.SpikeClassifier.AddSnapshot` | src/modules/gas-spike-alert/spike-classifier.service.ts:44-49 | the kept list is the last 100 snapshots of the chain; other chains are untouched |
| `GasMonitor.SpikeClassifier.EnrichSnapshot` | src/modules/gas-spike-alert/spike-classifier.service.ts:97-134 | the metrics of a snapshot are those of the chain's whole history |
| `GasMonitor.SpikeClassifier.ClearHistory` | src/modules/gas-spike-alert/spike-classifier.service.ts:55-57 | forgets one chain only |
| `GasMonitor.Monitor.ProcessChain` | src/modules/gas-spike-alert/gas-monitor.service.ts:121-164 | the whole new state of a step, exact alert or none included; when the snapshot is of the chain asked for, the alert's previous fees are those its percentage was computed from, and it names each spike type once |
| `GasMonitor.AlertMeaning` | src/modules/gas-spike-alert/gas-monitor.service.ts:121-164 | a step stores an alert under the chain asked for if and only if some rule fires; the alert carries the snapshot's data and metrics, exactly the rules that fire, and the highest severity any of them reaches |
| `GasMonitor.ComparesRightExactly` | src/modules/gas-spike-alert/gas-monitor.service.ts:138-145 | for all histories and snapshots, the snapshot an alert takes its two previous fees from is the one its percentages are computed from, if and only if the fetcher answers for the chain it was asked for |
| `GasMonitor.AlertsAreConsistentExactly` | src/modules/gas-spike-alert/gas-monitor.service.ts:121-164 | over all runs from an empty monitor and all settings, every stored alert's percentage is that of the step from its previous to its current fee, if and only if no chain is ever answered for by another |
| `GasMonitor.MismatchShows` | src/modules/gas-spike-alert/gas-monitor.service.ts:121-164 | for any two different chains, two answers already raise an alert whose percentage does not belong to its previous fee |
| `FailureAccounting.FailedTransactions.Track` | apps/api/src/services/failed-transaction.service.ts:18-46 | stores the transaction under its id and once in its wallet's list; every list stays in agreement with the store |
| `FailureAccounting.FailedTransactions.GetWalletFailures` | apps/api/src/services/failed-transaction.service.ts:51-59 | the wallet's list, restricted to the given chains unless that list is empty |
| `FailureAccounting.FailedTransactions.LatestFailure` | apps/api/src/services/transaction-analysis.service.ts:85-95 | the wallet's newest failure; the in-place sort keeps every list's multiset |
| `FailureAccounting.CalculateCostMetrics` | apps/api/src/services/failed-transaction.service.ts:180-249 | totals by category and by chain, the average, and the daily trend are those of the failures |
| `FailureAccounting.DailyTrend` | apps/api/src/services/failed-transaction.service.ts:216-238 | one entry per day with a failure, with its sum and count, in strictly increasing order of date |
| `FailureAccounting.WasteIsConserved` | apps/api/src/services/failed-transaction.service.ts:180-249 | the category totals, the chain totals and the trend add up to the total fee, the total fee and the last 30 days' fees |
| `FailureAccounting.TrendIsUnique` | apps/api/src/services/failed-transaction.service.ts:216-238 | given failures have one trend |
| `FailureAccounting.TrendMeaning` | apps/api/src/services/failed-transaction.service.ts:213-238 | each entry of the trend counts and sums the failures of one day of 86,400,000 milliseconds within the last 2,592,000,000 |
| `FailureAccounting.TimeframeMeaning` | apps/api/src/services/transaction-analysis.service.ts:147-157 | which failures a timeframe keeps |
| `FailureAccounting.CategorizeFailures` | apps/api/src/services/transaction-analysis.service.ts:159-167 | the count of each occurring category, in order of first appearance |
| `FailureAccounting.GetTopFailureCategory` | apps/api/src/services/transaction-analysis.service.ts:199-211 | the most frequent category, the earliest seen among equals, Unknown for none |
| `FailureAccounting.CalculateChainBreakdown` | apps/api/src/services/transaction-analysis.service.ts:169-197 | per chain with a failure its count, its fees and its most frequent category |
| `FailureAccounting.BreakdownAgreesWithCost` | apps/api/src/services/transaction-analysis.service.ts:23-80 | the chain breakdown adds up to at most the reported total, and to exactly it if and only if there is no timeframe or no failure outside it cost anything |
| `AnalyzerRegistry.Registry.Register` | libs/engine/core/analyzer-registry.ts:14-31 | a taken name is rejected without change; otherwise every language list is again the registered analyzers supporting it, in registration order |
| `AnalyzerRegistry.Registry.Unregister` | libs/engine/core/analyzer-registry.ts:33-57 | removes the analyzer of that name and keeps the lists as above, none of them empty; an unknown name changes nothing |
| `AnalyzerRegistry.Registry.DisposeAll` | libs/engine/core/analyzer-registry.ts:108-117 | empties registry and lists |
| `AnalyzerRegistry.Registry.SupportedLanguages` | libs/engine/core/analyzer-registry.ts:79-81 | a language is supported if and only if some registered analyzer names it, and if and only if its list of analyzers is not empty |
| `AnalyzerRegistry.InListFor` | libs/engine/core/analyzer-registry.ts:64-66 | an analyzer is in a language's list if and only if it is registered and supports the language |
| `ResultMerging.MergingIsAHomomorphism` | libs/engine/core/analyzer-registry.ts:199-238 | merging merged groups gives the findings, errors, file counts, times, severity summary and savings of merging all reports at once |
| `ResultMerging.RegroupingIsSafeExactlyFor` | libs/engine/core/analyzer-registry.ts:199-238 | reports from a pool may be grouped in any way if and only if each has a summary counting its own findings and does not claim negative savings |
| `ResultMerging.AnalyzersReportsMergeInAnyWay` | libs/engine/core/analyzer-registry.ts:199-238 | the reports analyzers make, merged in any nesting of merges of merged reports, give the findings, errors, counts, times, summary and savings of merging them all at once |
| `ResultMerging.ReportsAreSound` | libs/engine/core/analyzer-interface.ts:164-199 | every report an analyzer makes has those two properties |
| `ResultMerging.ReportsOfBatchesMerge` | libs/engine/core/analyzer-interface.ts:241-258 | the report on two batches of files is the merge of their reports if and only if the batches' summed savings do not have opposite signs |
| `ResultMerging.BesideAnEmptyGroup` | libs/engine/core/analyzer-registry.ts:214-234 | what merging does to a lone report next to an empty group: the summary is recounted and negative savings are dropped |
| `ResultMerging.MergedReport` | libs/engine/core/analyzer-registry.ts:214-237 | the merge of two or more reports: all findings in order, summed numbers, savings if positive, and a summary whose every number counts the findings of its own severity |
| `ResultMerging.MergedErrors` | libs/engine/core/analyzer-registry.ts:215-237 | all errors in order, and none if there are none |
| `ResultMerging.ReportMeaning` | libs/engine/core/analyzer-interface.ts:164-199 | an analyzer's report: its findings with their own summary and the sum of their savings, if positive |
| `RpcFailover.ProviderManager.CheckHealth` | apps/api/src/services/rpc-provider-manager.ts:45-68 | every provider's record is its old record after its own probes in order, and exactly the answering providers are marked healthy |
| `RpcFailover.ProbesAreCounted` | apps/api/src/services/rpc-provider-manager.ts:59-66 | success and error counts grow by exactly the number of probes of the provider, on one side only |
| `RpcFailover.LastProbeShows` | apps/api/src/services/rpc-provider-manager.ts:59-66 | the record shows answer, time and response time of the provider's last probe, the timeout standing for a missing answer |
| `RpcFailover.ProviderManager.Failover` | apps/api/src/services/rpc-provider-manager.ts:70-80 | true if and only if some provider is marked healthy; lands on the first healthy one in cyclic order after the current one, and leaves the index alone otherwise |
| `RpcFailover.ProviderManager.CyclicReaches` | apps/api/src/services/rpc-provider-manager.ts:72-73 | one round visits every position |
| `RpcFailover.ProviderManager.Fetch` | apps/api/src/services/cross-chain-gas.service.ts:131-154 | ends within as many attempts as there are providers; with a fixed set of answering providers it succeeds if and only if there is one, on the first or second attempt |

## Left out

- UnusedFieldSafety: macros other than `assert!`, closures, `if let`, `let ... else`, `loop`, `break`, casts, `?`, indexing, slice and or-patterns, impl blocks nested in a body or for a type that is no path, and code of constants and statics are not part of the modelled Rust; the program is one file.
- UnusedFieldSafety.ReportedFieldCanBeDeleted: an initializer that calls a function, even one without effects, or holds a block, a branch or another struct literal, is neither inert nor quiet.
- UnusedFieldSafety: references are evaluated as the value of their place, so aliasing is not captured; items of the same name in different modules share that name, the later one being meant, and a nested function hides an outer one of its name.
- RuleEngine: struct fields enter as a list of names; severity, line numbers and message texts of a violation are left out.
- CsvExport: times and totals of the metadata are given texts; printing numbers as text is modelled for integers (no exponent form); reading one transaction from the chain, resolving the block range and waiting for a full stream are left out.
- SorobanParser: texts are sequences of characters, as for ASCII, where the byte and character indices that `extract_between_braces` mixes agree; whitespace is ASCII whitespace; finding struct and impl blocks line by line and return types are left out.
- RateLimitService: calls of one merchant do not overlap and the clock does not run backwards; audit events and the suspicious-activity analysis are left out, as are the summaries and time series of past transactions, which group like `GasAggregation`.
- PropertyTokenContract: response attributes are left out; overflow of `u64` and `u128` is a rejected message.
- ConfigRegistry: events are left out; a host panic is an error that undoes the call; `get_version_keys` returns the current keys and is left out.
- ApiKeys: ids are positions in the table and hashes are given; expiry adds whole days of 24 hours, without daylight saving; a row's update time is the time of its last save; audit events and listings are left out.
- GasAggregation: timestamps are valid and amounts are natural numbers; storing records, standard deviation of price series and the rolling seven-day index are left out, the square root being a parameter where it is used (`SpikeRules`).
- GasMonitor: rounding and formatting of the alert's numbers, webhooks, the timer and the set of tracked chains are left out.
- FailureAccounting: the text heuristics that classify a failure are left out, the category is an input; ids are distinct; timestamps are UTC, so that their date part is the day number; amounts in other currencies are left out.
- AnalyzerRegistry: an analyzer's supported languages do not change while it is registered; its own initialisation and disposal are left out.
- ResultMerging: times and savings are integers; version labels are not compared.
- RpcFailover: the providers are given in priority order, which of them answer and how long they take are inputs; the ranking of chains by cost is left out.
- HTTP controllers, database queries, hashing and tokens, the regular-expression analyzers, tier pricing and mitigation advice are left out: they are plumbing or would only add easy members.
