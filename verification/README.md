# Eve: verified models of the platform's algorithmic cores

Most of the platform is wiring around a database. This project models the pieces that decide something by an
algorithm or a protocol, and proves what they are for. One module per piece:

| file | what it models |
|---|---|
| `Sse.dfy` | the incremental Server-Sent-Events parser of the chat client |
| `Glob.dfy` | the translation of wildcard patterns into regular-expression source text |
| `Scopes.dfy` | path normalisation, the pattern matchers and the scope branches of the access service |
| `Grants.dfy` | the grant loop, `can` and `explain` |
| `Migrate.dfy` | the tenant migration runner as a restartable protocol with many runners |
| `Der.dfy` | the JWK to DER/PEM encoder, with a DER reader that inverts it |
| `Placement.dfy` | the placement protocol of the agent runtime |
| `Cost.dfy` | cost allocation, grouping and rounding |
| `Receipts.dfy` | the cached recomputation of receipts |
| `Redaction.dfy` | log redaction over cyclic and shared value graphs |
| `AccessRequests.dfy` | submitting, approving and rejecting access requests |
| `Like.dfy` | substring search through an escaped `LIKE` pattern |
| `Attachments.dfy` | distinct, safe file names for staged attachments |
| `Messages.dfy` | message merging in the chat provider |
| `StableSort.dfy`, `Text.dfy` | stable sorting and JavaScript string helpers used by several models |

`dafny verify dfyconfig.toml` checks the whole project.

## How the code is represented

- Loops that the source writes as loops are methods with loops, proved equal to a function of the inputs; objects and
  tables that the source updates in place are classes. The lemmas about runs, round trips and invariants are about
  those functions.
- SQL tables are maps. A transaction, a single statement and a `resolvePlacement` call are atomic steps. Unique and
  check constraints are those of `packages/db/migrations`. `submitRequest` makes two statements without a transaction and
  is one step here: the unique index on the fingerprints of pending requests lets its insert through exactly when an
  atomic submission at that moment would insert (`AccessRequests.LateInsertIsASubmit`), so the tables come out the same.
- Time, process environment, generated identifiers, SHA digests, JSON parsing, base64, `redactString`, lower-casing,
  locale comparison and the pricing functions are parameters. Every statement holds for all of them; where something is
  assumed of one, it is a `requires` (for example that locale comparison is a total preorder, that a digest is not
  empty, or that case folding leaves `\`, `%` and `_` alone).
- Money is an exact real; an amount written with `toFixed(4)` is an integer number of ten-thousandths.
- Strings are sequences of Unicode characters where JavaScript has UTF-16 code units. For the regular expressions in
  question both readings accept the same texts, since stars range over whole runs.

## Where the code does less than one may expect

Each of these is kept as it is in the model, stated as a lemma with its exact condition, and shown at a concrete
input.

- The scope that built-in roles carry lists the pattern `*`. It normalises to `/*` and reaches a single path segment,
  so an owner without other grants is refused on every path with a second slash (`Grants.BuiltInRolesReachOneSegment`;
  `Grants.OwnerIsRefusedBelowTheTop`: `/docs/a`).
- With cost rows but no positive estimate, a bill is neither allocated nor reported as overhead: it disappears
  (`Cost.NothingIsLost` gives the exact condition for conservation; `Cost.BillCanVanish`: one row of 0, a bill of 100).
- The DER encoder has two-byte lengths at most; a key whose outermost content reaches 65536 bytes cannot be read back
  (`Der.KeyRoundTrip`; `Der.LongKeysAreLost`: a modulus of 65536 bytes). Superfluous leading zeros of a key are passed
  through (`Der.IntegersAreMinimalUnlessPadded`; `Der.PaddingIsKept`: the bytes 0, 1). The PEM text has a blank line
  before its footer exactly when the base64 text fills its last line (`Der.WrapEndsInBreak`;
  `Der.FullLineIsFollowedByBlank`: a modulus of 19 bytes).
- A submitted request cannot always be approved. `AccessRequests.ApprovalSucceedsExactly` gives the condition on the
  tables before the call: the organisation can be reused or created, the user can be reused or created, and the
  reviewer exists. An empty organisation slug passes the validation of `submitRequest`
  (`AccessRequests.EmptySlugIsSubmitted`) and fails the check of the table; a slug held by a deleted organisation is not
  found by the lookup and refused by the unique index (`AccessRequests.DeletedOrgBlocksSlug`: `acme`); a slug held by an
  organisation with another name is a conflict. Such requests are approved in no run
  (`AccessRequests.BlockedSlugIsNeverApproved`). A taken organisation name or address can block an approval as well.
- A lone `*` as identifier pattern admits line terminators, which `*` inside a longer pattern does not
  (`Scopes.IdentifierPatternMeaning`; `Scopes.LoneStarIsWider`: `a` and a line feed).
- The SSE reader drops leading blanks of every data line, where the format drops one space, and trims names and ids.
  Events without such blanks arrive as they were sent; of events whose data is kept as text, only those do
  (`Sse.RoundTripIsExact`; `Sse.IndentIsLost`: an indented line). JSON data may be indented without loss.
- A comment is visible where nothing else is in its block: leaving it out changes the event exactly when the rest of the
  block is blank (`Sse.CommentsAreInvisibleExactly`). A keep-alive of comment lines reaches the caller as an empty
  `message` (`Sse.KeepAlivesAreDelivered`; `Sse.PingIsDelivered`: `: ping`).
- An object that the log redaction first meets at its last level is expanded with every value `[Truncated]`, and marked
  `[Circular]` everywhere else, however shallow (`Redaction.FirstMetAtTheLimit`; `Redaction.ShallowObjectIsLost`: an
  object directly below the root). An object under a sensitive key is still shown where another key leads to it
  (`Redaction.SharedSecretsAreShown`).
- A review that comes between the look and the update of `rejectRequest` leaves the tables alone and makes the handler
  fail on the missing row (`AccessRequests.Database.RejectRequest`).

## Model

| member | source | states |
|---|---|---|
| Sse.SeparatorAtMeaning | packages/chat/src/sse.ts:18-21 | a match of the separator expression is exactly one of its four texts |
| Sse.SearchIs | packages/chat/src/sse.ts:18-25 | the search returns the leftmost boundary, and -1 only when there is none |
| Sse.BoundaryIsStable | packages/chat/src/sse.ts:16-25 | a leftmost boundary of a prefix stays leftmost, with the same separator, under every extension |
| Sse.FramesExtend | packages/chat/src/sse.ts:16-26 | parsing a text and then more text is parsing the concatenation |
| Sse.ChunkingIsIrrelevant | packages/chat/src/sse.ts:13-27 | every way of cutting a text into chunks gives the blocks of the whole text, and no boundary is left in the buffer between chunks |
| Sse.FramingIsUnique | packages/chat/src/sse.ts:18-26 | blocks without an inner boundary, each followed by a separator, and a boundary-free tail: the text has one such decomposition and the parser finds it |
| Sse.EventMeaning | packages/chat/src/sse.ts:33-57 | line by line: the last event and id lines count, an empty id is none, the contents of all data lines are joined, and the data is the parsed value exactly when the text is not empty and parses |
| Sse.ParseSseEvent | packages/chat/src/sse.ts:33-57 | the line loop computes the meaning of a block: last event and id field, all data fields in order, comments skipped, blank blocks dropped |
| Sse.CutBlocks | packages/chat/src/sse.ts:18-26 | the inner loop turns every complete block of the buffer into an event and keeps the unread tail |
| Sse.ParseSseStream | packages/chat/src/sse.ts:7-31 | for every list of chunks the events are those of the concatenated text |
| Sse.CommentsChangeNoField | packages/chat/src/sse.ts:39-44 | a comment line anywhere in a block changes no field |
| Sse.CommentsAreInvisibleExactly | packages/chat/src/sse.ts:33-44 | leaving out a comment line leaves the event as it is if and only if the rest of the block is not blank |
| Sse.CommentBlocksAreMessages | packages/chat/src/sse.ts:33-57 | a block of comments only is delivered as an empty `message` |
| Sse.KeepAlivesAreDelivered | packages/chat/src/sse.ts:7-57 | the same for a stream of comment lines, with either line ending and wherever it is cut |
| Sse.PingIsDelivered | packages/chat/src/sse.ts:33-57 | the keep-alive `: ping` gives one empty `message` |
| Sse.RoundTrip | packages/chat/src/sse.ts:7-57 | events written with LF or CRLF line ends and cut anywhere are read back, with trimmed names and ids and without the leading blanks of data lines, and nothing is left over |
| Sse.RoundTripIsExact | packages/chat/src/sse.ts:40-43 | for every JSON parser, what was sent arrives when no field has blanks that the reader drops; where data stays text, only then |
| Sse.IndentIsLost | packages/chat/src/sse.ts:43 | an indented data line arrives without its indentation |
| Glob.WildcardPathToRegExpSource | apps/api/src/auth/access.service.ts:1046-1062 | the look-ahead loop emits the source text of the pattern's tokens |
| Glob.IdentifierSourceIsTokenwise | apps/api/src/auth/access.service.ts:1039-1042 | splitting at stars, escaping and joining with `.*` is the character-by-character translation |
| Glob.ReadOfSource | apps/api/src/auth/access.service.ts:1046-1066 | a regular-expression reader reads the emitted source back as the tokens' expression, so escaping leaves no stray operator |
| Glob.StarIsRun | apps/api/src/auth/access.service.ts:1052-1055 | a starred atom matches exactly the runs of characters the atom accepts |
| Glob.PathPatternKeepsMeaning | apps/api/src/auth/access.service.ts:1030-1031 | for every pattern and text the compiled expression accepts exactly what the direct glob matcher covers |
| Glob.IdentifierPatternKeepsMeaning | apps/api/src/auth/access.service.ts:1034-1044 | the same for identifier patterns |
| Glob.PathPatternOfParts | apps/api/src/auth/access.service.ts:1046-1066 | a path pattern written in two parts accepts exactly the texts with a part for each, as long as no `**` is cut |
| Glob.SmallestPathPatterns | apps/api/src/auth/access.service.ts:1046-1066 | `*` accepts any run without a slash, `**` any run without a line terminator, any other character itself |
| Glob.IdentifierPatternOfParts | apps/api/src/auth/access.service.ts:1034-1044 | the same composition for identifier patterns |
| Glob.SmallestIdentifierPatterns | apps/api/src/auth/access.service.ts:1034-1044 | `*` accepts any run without a line terminator, any other character itself |
| Scopes.NormalizeKeepsSegments | apps/api/src/auth/access.service.ts:1006-1014 | normalisation keeps the segments between slashes and a trailing slash |
| Scopes.NormalizeIsIdempotent | apps/api/src/auth/access.service.ts:1006-1014 | normalising twice is normalising once; its fixed points are the trimmed texts with a leading slash and no doubled slash |
| Scopes.PathPatternMeaning | apps/api/src/auth/access.service.ts:1016-1032 | the path matcher without regular expressions: equality or folder prefix for literal patterns, the glob otherwise |
| Scopes.IdentifierPatternMeaning | apps/api/src/auth/access.service.ts:1034-1044 | the identifier matcher without regular expressions, with its special case for the lone star |
| Scopes.LoneStarIsWider | apps/api/src/auth/access.service.ts:1034-1044 | `*` admits a value with a line feed that `a*` refuses |
| Scopes.LiteralPatternMeaning | apps/api/src/auth/access.service.ts:1020-1028 | a pattern without wildcard matches itself and what lies below it, never a mere longer name |
| Scopes.LiteralPatternsFormAnOrder | apps/api/src/auth/access.service.ts:1020-1028 | matching by wildcard-free patterns is reflexive, transitive, and antisymmetric up to normalisation |
| Scopes.LiteralPatternsAreClosedUnderDescendants | apps/api/src/auth/access.service.ts:1020-1028 | what a wildcard-free pattern matches includes everything below it |
| Scopes.StarCoversOneSegment | apps/api/src/auth/access.service.ts:1016-1062 | the pattern `*` covers exactly the paths with no second slash |
| Scopes.PrefixScopeMeaning | apps/api/src/auth/access.service.ts:787-860 | a prefix scope decides by reach alone: read needs either list, everything else the allow list |
| Scopes.DbScopeMeaning | apps/api/src/auth/access.service.ts:862-934 | a database scope admits a resource exactly by schema pattern, or by table pattern when there is a table part |
| Scopes.IdentifierPartsAre | apps/api/src/auth/access.service.ts:902-904 | the schema is what stands before the first dot, the table everything after it, both trimmed |
| Scopes.ScopeEvaluationMeaning | apps/api/src/auth/access.service.ts:755-787 | each permission prefix is decided by its own field of the scope; without a resource, by that field not being empty; other permissions need no scope |
| Scopes.WritableIsReadable | apps/api/src/auth/access.service.ts:823-845 | what is writable or administrable under a prefix scope is readable under it |
| Scopes.LiteralScopesGrantSubtrees | apps/api/src/auth/access.service.ts:819-853 | a prefix scope without wildcards that admits a path admits its whole subtree for the same action |
| Scopes.SchemaAdmitsItsTables | apps/api/src/auth/access.service.ts:893-927 | a database scope that admits a schema admits every table in it |
| Grants.EvaluatePermission | apps/api/src/auth/access.service.ts:677-753 | allowed iff some grant has the permission and passes its scope; source is the first such grant; scopeMatched equals allowed; every explained grant is exact |
| Grants.PermittedMeaning | apps/api/src/auth/access.service.ts:691-733 | access holds if and only if some grant lists the permission and the field of its scope that belongs to the permission admits the resource |
| Grants.Can | apps/api/src/auth/access.service.ts:82-135 | the decision, its source and both scope flags of `can`, also for a principal that does not exist |
| Grants.Explain | apps/api/src/auth/access.service.ts:140-194 | the decision of `explain`, its scope flags recomputed from the explained grants, and the kind of reason: a denied scope is blamed exactly when the permission is held |
| Grants.CanAndExplainAgree | apps/api/src/auth/access.service.ts:119-191 | on the same data both questions give the same decision and the same scope flags |
| Grants.MoreGrantsNeverRevoke | apps/api/src/auth/access.service.ts:691-733 | adding or permuting grants never revokes access |
| Grants.BuiltInRolesReachOneSegment | apps/api/src/auth/access.service.ts:666-671 | whoever holds a permission through built-in roles alone has access to every database and mount, but only to single-segment paths |
| Grants.OwnerIsRefusedBelowTheTop | apps/api/src/auth/access.service.ts:666-671 | an owner may read `/docs` and not `/docs/a` |
| Migrate.RecordedNamesFormAPrefix | packages/migrate/src/runner.ts:154-235 | for every interleaving of runners, failures and crashes from an empty table, the recorded names are a prefix of the list and no migration's SQL commits twice |
| Migrate.StepKeepsPrefix | packages/migrate/src/runner.ts:177-229 | a runner that records a name does so exactly at the end of the recorded prefix |
| Migrate.RunnersAreSound | packages/migrate/src/runner.ts:166-229 | from any table: what a runner has passed is recorded with its file's checksum, and its results follow the list |
| Migrate.ReturnedRunsAreComplete | packages/migrate/src/runner.ts:177-231 | when a run returns, results follow the sorted list and every checksum in the table is its file's, whatever the other runners did |
| Migrate.RerunsChangeNothing | packages/migrate/src/runner.ts:181-195 | from a complete table no interleaving of runs changes the database, fails, or reports anything as applied |
| Migrate.ChangedFilesStopTheRun | packages/migrate/src/runner.ts:181-188 | a run that started with a recorded file whose checksum changed never returns and never passes that file |
| Migrate.ChangedFileThrows | packages/migrate/src/runner.ts:177-222 | on its own such a run ends in an error and commits only migrations sorted before that file |
| Migrate.AloneIsAPlay | packages/migrate/src/runner.ts:154-235 | the run of the imperative method is one of the runs of the protocol |
| Migrate.RecordedMeansCommitted | packages/migrate/src/runner.ts:166-220 | unless the table was empty at the start and some SQL reported existing objects, over every run exactly the names with committed SQL are added |
| Migrate.CommitsNeedSuccess | packages/migrate/src/runner.ts:197-204 | over every run no SQL is committed that did not succeed |
| Migrate.EmptyTableIsBaselined | packages/migrate/src/runner.ts:205-220 | the first run over a database with all objects records every file and commits nothing |
| Migrate.FailuresHaveReasons | packages/migrate/src/runner.ts:181-222 | over every run a runner fails for the file it stopped at: changed, failing SQL, or recorded by somebody else meanwhile |
| Migrate.ValidNameIs | packages/migrate/src/runner.ts:83-95 | a valid name is fourteen digits, an underscore, a description and `.sql` |
| Migrate.NormalizeMigrations | packages/migrate/src/runner.ts:81-97 | the stable sort by name, whose names are in order, or the first name in that order that does not fit the format |
| Migrate.FreshRunReturns | packages/migrate/src/runner.ts:154-235 | from any table, a run whose SQL succeeds returns if and only if no recorded file has changed, and then the whole list is recorded |
| Migrate.RestartFinishes | packages/migrate/src/runner.ts:154-235 | after any interleaving of runners, failures and crashes from an empty table, a fresh run whose SQL succeeds returns and completes the table |
| Migrate.TenantDatabase.ApplyMigrations | packages/migrate/src/runner.ts:154-235 | the loop ends in the database state and with the results or the error of the lone runner |
| Der.TlvRoundTrip | packages/auth/src/index.ts:119-132 | an element is read back with its content and what follows it exactly when its content is shorter than 65536 bytes |
| Der.SignedOfUnsigned | packages/auth/src/index.ts:116-117 | the sign byte makes the integer read back as the unsigned value of the bytes |
| Der.KeyRoundTrip | packages/auth/src/index.ts:111-146 | reading the encoded key consumes every byte and gives the values of n and e, exactly when the outermost content stays below 65536 bytes |
| Der.LongKeysAreLost | packages/auth/src/index.ts:119-123 | a modulus of 65536 bytes cannot be read back |
| Der.LengthsAreShortest | packages/auth/src/index.ts:119-123 | every length below 65536 is in the shortest definite form |
| Der.IntegersAreMinimalUnlessPadded | packages/auth/src/index.ts:116-117 | integers are minimal exactly when the key carries no superfluous leading zero |
| Der.PaddingIsKept | packages/auth/src/index.ts:116-117 | the bytes 0, 1 are encoded with their superfluous zero |
| Der.AlgorithmIsRsaEncryption | packages/auth/src/index.ts:139-143 | the fixed bytes decode to the object identifier 1.2.840.113549.1.1.1 with NULL parameters |
| Der.WrapLosesNothing | packages/auth/src/index.ts:148-151 | deleting the line breaks of the PEM body gives back the base64 text |
| Der.WrapBreaksEvery64 | packages/auth/src/index.ts:150 | the body has a line feed after every 64 characters and nowhere else |
| Der.WrapEndsInBreak | packages/auth/src/index.ts:150 | the body ends in a break of its own exactly when its length is a positive multiple of 64 |
| Der.FullLineIsFollowedByBlank | packages/auth/src/index.ts:148-151 | the PEM text of a modulus of 19 bytes, whose base64 has 64 characters, has a blank line before its footer |
| Der.PemRoundTrip | packages/auth/src/index.ts:111-154 | a PEM reader with any base64 decoder that inverts the encoder recovers n and e |
| Placement.SelectionIgnoresOrder | apps/agent-runtime/src/runtime/runtime.service.ts:342-348 | the shard target depends on which pods are healthy, not on the order they are listed in |
| Placement.TargetRank | apps/agent-runtime/src/runtime/runtime.service.ts:342-348 | the shard target has as many healthy pods before it, in name order, as the hash of the agent leaves as remainder |
| Placement.StringLeqIs | apps/agent-runtime/src/runtime/runtime.service.ts:343 | name order is lexicographic |
| Placement.HealthIs | apps/agent-runtime/src/runtime/runtime.service.ts:335-340 | a pod is healthy as long as its heartbeat is at most the time to live old |
| Placement.HealthyNamesAreTheSet | apps/agent-runtime/src/runtime/runtime.service.ts:331-340 | filtering a listing gives each pod of the organisation with a recent heartbeat, once |
| Placement.Tables.ListByOrg | packages/db/src/queries/agent-runtime.ts:26-32 | the query contract: every pod row of the organisation, once |
| Placement.RuntimeService.ResolvePlacement | apps/agent-runtime/src/runtime/runtime.service.ts:102-150 | one call is one step of the protocol on the shared tables, and records the organisation; without agent or organisation nothing changes |
| Placement.CallAcceptsExactly | apps/agent-runtime/src/runtime/runtime.service.ts:125-149 | a call accepts if and only if nobody is healthy, the caller is the target or the holder, or the holder is not healthy; otherwise it redirects to the target |
| Placement.CallWritesExactly | apps/agent-runtime/src/runtime/runtime.service.ts:125-149 | a redirect and a holder that stays write nothing; every other accept writes the caller, with the agent as shard key unless nobody is healthy |
| Placement.AnswersAreHonest | apps/agent-runtime/src/runtime/runtime.service.ts:128-149 | each accept leaves the placement on the acceptor; each redirect moves nothing and names another healthy pod, whose own call is accepted next or at any later time while the same pods are healthy |
| Placement.OwnershipSettles | apps/agent-runtime/src/runtime/runtime.service.ts:102-150 | with a fixed healthy set the owner changes at most twice over any run, at most once from a healthy owner or none |
| Placement.TargetKeepsThePlacement | apps/agent-runtime/src/runtime/runtime.service.ts:133-149 | once the shard target owns the placement, no other pod ever accepts |
| Placement.TargetWins | apps/agent-runtime/src/runtime/runtime.service.ts:133-137 | after the shard target has called once, it owns the placement at the end of every run |
| Cost.AllocationIsExact | apps/api/src/billing/app-cost.service.ts:94-135 | each environment is charged its clamped estimate, or of a bill the part that its estimate is of all estimates and shared cost; the overhead likewise |
| Cost.AllocateAppCosts | apps/api/src/billing/app-cost.service.ts:94-135 | the two loops compute that allocation, for repeated environments by the last row |
| Cost.NothingIsLost | apps/api/src/billing/app-cost.service.ts:94-135 | shares and overhead add up to the estimates without a bill, and to the bill exactly under the stated condition |
| Cost.BillCanVanish | apps/api/src/billing/app-cost.service.ts:94-135 | with one environment at 0, a bill of 100 is charged to nobody |
| Cost.SharesAreProportional | apps/api/src/billing/app-cost.service.ts:125-128 | shares keep the ratios of the clamped estimates |
| Cost.RoundingError | apps/api/src/billing/app-cost.service.ts:338-340 | rounding to four decimals moves an amount by at most 0.00005 |
| Cost.TiesGoAwayFromZero | apps/api/src/billing/app-cost.service.ts:338-340 | halfway between two amounts the one farther from zero is taken |
| Cost.EnvRowsAre | apps/api/src/billing/app-cost.service.ts:186-190 | the allocation runs over all rows, with their own ids and amounts |
| Cost.ScopedRowsAre | apps/api/src/billing/app-cost.service.ts:192 | the report of one organisation is about exactly its own rows, in order |
| Cost.AppIsItsRows | apps/api/src/billing/app-cost.service.ts:224-262 | the record of a project: its own rows in order with their rounded estimate and charge, its own spend and attempts, and the sum as total |
| Cost.GroupEnvironments | apps/api/src/billing/app-cost.service.ts:202-242 | each project gets exactly its own environments in order; the rounded total is within half a unit per environment |
| Cost.AddSpend | apps/api/src/billing/app-cost.service.ts:244-253 | each project gets its own spend; cloud amounts stay; the rounded total is within half a unit per project |
| Cost.TotalApps | apps/api/src/billing/app-cost.service.ts:255-262 | totals per app are exact sums of rounded amounts, and add up to the cloud total |
| Cost.GetAppCosts | apps/api/src/billing/app-cost.service.ts:160-300 | the whole report: one exact record per project with rows or spend; app cloud costs sum exactly to the total; the three rounding bounds |
| Cost.AdminReportIsTheBill | apps/api/src/billing/app-cost.service.ts:186-190 | attributed, unattributed and overhead parts are the bill exactly under the stated condition, and without a bill always the clamped estimates and shared cost |
| Cost.AdminReport | apps/api/src/billing/app-cost.service.ts:271-298 | with or without a bill, the reported cloud cost and overhead are what is due up to half a unit per environment and one for the overhead |
| Receipts.CountsAddUp | apps/api/src/billing/receipts-admin.service.ts:269-278 | updated, skipped and failed rows are the scanned rows, and only a real run writes |
| Receipts.OutcomeMeaning | apps/api/src/billing/receipts-admin.service.ts:148-260 | a row is skipped if it has a receipt and none is forced or it has not ended, and updated with the receipt assembled from its own billing, card, rate, defaults and logs |
| Receipts.FailureMeaning | apps/api/src/billing/receipts-admin.service.ts:157-266 | a row fails with the error of the first call that throws |
| Receipts.ErrorsAre | apps/api/src/billing/receipts-admin.service.ts:261-266 | the errors are those of the failing rows, in order, each under its attempt |
| Receipts.WritesAre | apps/api/src/billing/receipts-admin.service.ts:253-260 | the updated rows are counted and, outside a dry run, their receipts written in order |
| Receipts.Recompute | apps/api/src/billing/receipts-admin.service.ts:139-279 | the cached loop reports and writes what fresh lookups for every row would, and asks the database for exactly the needed keys that have no answer yet |
| Receipts.AnswersAreReadOnce | apps/api/src/billing/receipts-admin.service.ts:140-142 | of the keys the loop needs, one with an answer, absence included, is asked for once, one that throws each time, and `usd` never |
| Receipts.Attempt | apps/api/src/billing/receipts-admin.service.ts:157-268 | one row: the fresh outcome, its write, and caches that hold exactly the answers so far |
| Receipts.LookUpFx | apps/api/src/billing/receipts-admin.service.ts:187-200 | the cached exchange rate is the fresh one; a known absent rate causes no new lookup, and US dollars none at all |
| Receipts.LookUpBilling | apps/api/src/billing/receipts-admin.service.ts:159-168 | the cached billing configuration is the fresh one; a failed lookup is not cached, an answer is not asked for again |
| Receipts.LookUpManifest | apps/api/src/billing/receipts-admin.service.ts:202-209 | the cached manifest defaults are the fresh ones; known absent defaults cause no new lookup |
| Redaction.RedactValueInto | packages/shared/src/redaction.ts:37-76 | the recursive walk with its shared set computes the specified tree and set, and ends on every graph |
| Redaction.RedactEntriesInto | packages/shared/src/redaction.ts:68-73 | the loop over the entries of an object computes the specified entries and set |
| Redaction.NoObjectTwice | packages/shared/src/redaction.ts:62-66 | no object is expanded twice in a log entry |
| Redaction.EachObjectOnce | packages/shared/src/redaction.ts:62-75 | the objects expanded are exactly those newly seen, each once |
| Redaction.LogEntriesAreSound | packages/shared/src/redaction.ts:37-80 | at most seven nested containers, all keys of every expanded object, and only `[REDACTED]` under sensitive keys at every level |
| Redaction.LogEntriesMirrorTheirValue | packages/shared/src/redaction.ts:37-80 | up to the depth limit and sensitive keys the tree shows the value; a `[Circular]` mark stands for an object the same entry expands in exactly one place |
| Redaction.FirstMetAtTheLimit | packages/shared/src/redaction.ts:37-76 | an object first met at the last level is expanded without its values, and every later occurrence is only marked |
| Redaction.ShallowObjectIsLost | packages/shared/src/redaction.ts:37-76 | an object directly below the root loses its text when a chain leads to it first |
| Redaction.LogsDoNotDependOnSecrets | packages/shared/src/redaction.ts:68-73 | what is reached through sensitive keys only, with everything below it, may differ in any way without influence on the output |
| Redaction.SecretObjectsAreHidden | packages/shared/src/redaction.ts:68-73 | an object under `password` may change altogether |
| Redaction.SharedSecretsAreShown | packages/shared/src/redaction.ts:62-75 | an object under `password` that another key leads to is shown there |
| AccessRequests.DerivedSlugsAreValid | apps/api/src/auth/auth.access-requests.controller.ts:323-332 | every derived slug has 2 to 12 characters, a letter first, letters and digits only |
| AccessRequests.DerivedSlugIs | apps/api/src/auth/auth.access-requests.controller.ts:323-332 | the letters and digits of the lower-cased name, in order, cut to twelve, after `org` where they are too few or start with a digit |
| AccessRequests.SubmissionIs | apps/api/src/auth/auth.access-requests.controller.ts:93-146 | every answer of a submission: refused, the pending request with the fingerprint, or a new request with the fields of the body |
| AccessRequests.UnreadableKeysAreRefused | apps/api/src/auth/auth.access-requests.controller.ts:93-118 | a key without a fingerprint is refused with its own error, after the check of the body |
| AccessRequests.RejectionIs | apps/api/src/auth/auth.access-requests.controller.ts:298-319 | a rejection records status, reviewer and notes and changes nothing else |
| AccessRequests.OrgAfterApproval | apps/api/src/auth/auth.access-requests.controller.ts:213-230 | the live organisation with the slug is taken, otherwise exactly one new one with requested name and slug is made |
| AccessRequests.UserAfterApproval | apps/api/src/auth/auth.access-requests.controller.ts:234-266 | the owner of the key is taken, with the requested address where it is another and free, otherwise exactly one new user and key are made |
| AccessRequests.RoleAfterApproval | apps/api/src/auth/auth.access-requests.controller.ts:268-271 | the user becomes admin, except that an owner stays owner; no other membership changes |
| AccessRequests.NotesAfterApproval | apps/api/src/auth/auth.access-requests.controller.ts:273-277 | the notes are the reviewer's, and which of organisation and key were there before |
| AccessRequests.CombinedNotesAre | apps/api/src/auth/auth.access-requests.controller.ts:334-342 | blank notes are dropped, the others trimmed and joined in order |
| AccessRequests.ApprovalProblems | apps/api/src/auth/auth.access-requests.controller.ts:179-292 | which error a failed approval gives |
| AccessRequests.ApprovalProvisions | apps/api/src/auth/auth.access-requests.controller.ts:189-284 | the recorded user owns the key and holds admin or owner in the recorded live organisation with the requested slug and name |
| AccessRequests.ApprovalIsAtomicAndIdempotent | apps/api/src/auth/auth.access-requests.controller.ts:190-211 | a failed approval changes nothing; approving again in any way changes nothing and gives the same answer |
| AccessRequests.RunsKeepInv | apps/api/src/auth/auth.access-requests.controller.ts:93-319 | over every run slugs, names, addresses and keys stay unique, approved requests stay provisioned, no role is lowered, reviewed requests never change |
| AccessRequests.NoOwnerIsMade | apps/api/src/auth/auth.access-requests.controller.ts:268-271 | over every run, whoever is owner at the end was owner at the start |
| AccessRequests.NoOwnerIsDemoted | apps/api/src/auth/auth.access-requests.controller.ts:268-271 | an owner stays owner over every run |
| AccessRequests.ApprovalSucceedsExactly | apps/api/src/auth/auth.access-requests.controller.ts:179-284 | an approval succeeds if and only if, in the tables before it, the organisation can be reused or created, the user can be reused or created, and the reviewer exists |
| AccessRequests.BlockedSlugIsNeverApproved | apps/api/src/auth/auth.access-requests.controller.ts:213-230 | a request with the empty slug, or a slug held by a deleted or differently named organisation, is approved in no run |
| AccessRequests.DeletedOrgBlocksSlug | packages/db/src/queries/orgs.ts:45-51 | a request for a valid slug that a deleted organisation holds cannot be approved |
| AccessRequests.EmptySlugCannotBeApproved | apps/api/src/auth/auth.access-requests.controller.ts:213-230 | the slugs of pending requests that fail the check of the table are exactly the empty ones, and approving those requests fails |
| AccessRequests.EmptySlugIsSubmitted | apps/api/src/auth/auth.access-requests.controller.ts:125-142 | a request with the empty slug is accepted |
| AccessRequests.Database.ApproveRequest | apps/api/src/auth/auth.access-requests.controller.ts:179-292 | the step-by-step body with rollback is the atomic approval, and keeps the invariant |
| AccessRequests.Database.ApprovalBody | apps/api/src/auth/auth.access-requests.controller.ts:190-284 | the transaction body: same answer as the atomic approval, and same tables when it succeeds |
| AccessRequests.Database.SubmitRequest | apps/api/src/auth/auth.access-requests.controller.ts:93-146 | submission answers a pending request with the same fingerprint, or validates and creates |
| AccessRequests.LateInsertIsASubmit | packages/db/migrations/00043_access_requests.sql:24-25 | whatever the look of a submission saw, its insert changes the tables as an atomic submission at that moment would |
| AccessRequests.Database.RejectRequest | apps/api/src/auth/auth.access-requests.controller.ts:298-319 | exactly a request pending at the look and at the update is rejected by an existing reviewer, and nothing else changes, whatever happens in between |
| Like.SequentialIsSimultaneous | apps/api/src/agent-memory/agent-memory.service.ts:22-24 | the three replaces in a row are one simultaneous escape of the three special characters |
| Like.EscapedLikeIsSubstring | apps/api/src/agent-memory/agent-memory.service.ts:449-463 | `%` + escaped query + `%` matches a text exactly when the query occurs in it |
| Like.EventsAreFoundBySubstring | apps/api/src/agent-memory/agent-memory.service.ts:457-464 | an event is selected exactly when the query occurs, up to case, in its type or payload text |
| Attachments.SanitizedIsSafe | packages/shared/src/lib/sanitize-filename.ts:2-7 | a sanitised name has no separator, control character or doubled dot, and at most 255 characters |
| Attachments.SanitizedIs | packages/shared/src/lib/sanitize-filename.ts:2-7 | unsafe characters become underscores, of doubled dots only dots are dropped, everything else stays up to 255 characters |
| Attachments.SafeNameIs | apps/agent-runtime/src/invoke/invoke.service.ts:564-569 | a file is named after its name, without one after its id, and without both `attachment` |
| Attachments.SafeNamesStay | packages/shared/src/lib/sanitize-filename.ts:2-7 | a safe name of at most 255 characters is not changed |
| Attachments.CandidateIs | apps/agent-runtime/src/invoke/invoke.service.ts:569-576 | the suffix goes before the extension, which is kept, or to the end of a name without one, in decimal without leading zeros |
| Attachments.CandidatesDiffer | apps/agent-runtime/src/invoke/invoke.service.ts:569-576 | the numbered candidates of a name are pairwise distinct, with or without extension |
| Attachments.CollisionsAreBounded | apps/agent-runtime/src/invoke/invoke.service.ts:569-577 | the inner loop runs at most once per name in use |
| Attachments.StageAttachments | apps/agent-runtime/src/invoke/invoke.service.ts:564-578 | the loop ends for every list of files; names are distinct, safe, and each the first free candidate |
| Messages.MergeMessages | packages/chat-react/src/provider.tsx:119-123 | the loops compute the merge: map insertion order, then the stable sort |
| Messages.RunsKeepTheLatest | packages/chat-react/src/provider.tsx:119-123 | after any run of merges: one entry per delivered id, in its last version, in time order |
| Messages.NothingIsLost | packages/chat-react/src/provider.tsx:119-123 | every delivered id is still in the list, in its last version |
| Messages.TiesAreInArrivalOrder | packages/chat-react/src/provider.tsx:119-123 | messages with equal times stand in the order of their first delivery; a new version takes the place of the old one |
| Messages.MergeTwiceIsMergeOnce | packages/chat-react/src/provider.tsx:119-123 | merging the same batch again changes nothing, not even the order of equal times |
| Messages.BatchingIsIrrelevant | packages/chat-react/src/provider.tsx:119-123 | when versions keep their time, any run of merges is the single merge of everything delivered |
| StableSort.TiesKeepTheirOrder | packages/chat-react/src/provider.tsx:122 | elements with equal keys keep whatever order they had |
| StableSort.SortIsTheStableSort | packages/chat-react/src/provider.tsx:122 | sortedness and the order within equal keys determine the result of a stable sort |

## Left out

- Controllers, modules, React state, the command line and OpenAPI: wiring without a hard property.
- Process spawning, kubectl, git and harness streaming: they depend on input and output outside the repository's code.
- RSA, HMAC, SHA, base64, `TextDecoder`, JSON and `ssh-keygen`: parameters of the models.
- Sse.ParseSseStream: the transport's own failures and the cancellation of the reader are not modelled.
- Migrate.RecordedNamesFormAPrefix: a migration file that commits by itself inside its transaction is not modelled.
- Migrate.NormalizeMigrations: reading migrations from a directory, which sorts by code units, is not modelled.
- Scopes: the reason texts of scope evaluations are not modelled, only their decisions.
- Grants.Can: collecting grants from memberships, tokens and bindings is not modelled; their list is an input.
- Grants.Explain: the reason texts and the role, permission and scope fields copied into explained grants are not modelled.
- Cost.GetAppCosts: display order, names, confidence, staleness, the method and bill summary, cluster figures and the organisation list of the report are not modelled; one spend row per project is assumed, as the query groups them.
- Cost.NothingIsLost: one cost row per environment is assumed.
- Placement.Tables.ListByOrg: the order of the rows is left open, because the choice does not depend on it (`Placement.SelectionIgnoresOrder`).
- Placement.RuntimeService.ResolvePlacement: the drain status of pods plays no part in routing and none here; parsing the environment variables is not modelled.
- Receipts.Recompute: the system defaults and resource classes read once before the loop are part of the pricing parameter.
- Redaction.LogEntriesAreSound: the text redaction and the expression for sensitive keys are parameters.
- Like.EventsAreFoundBySubstring: folding that changes the length of a text is not modelled; the organisation filter, ordering and limits of the result rows neither.
- Attachments.StageAttachments: downloads and the index file are not modelled; a suffix may lengthen a name beyond 255 characters.
- Der.KeyRoundTrip: the module-level cache of fetched keys is not modelled.
- AccessRequests.BlockedSlugIsNeverApproved: handlers elsewhere that restore, rename or delete organisations are not modelled.
