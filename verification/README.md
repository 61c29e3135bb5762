# Verification of the provider layer

This project models the parts of `packages/ai` whose correctness depends on order: which
asynchronous step runs first, where a chunk ends, which message follows which. The rest of
the package is data and transport.

## What is modelled

**Concurrent lifecycles.** `PromiseQueue` is the promise-tail queue that the credential
stores, the catalog store and the registry share. `CatalogRegistry` is the refresh protocol
of `ProviderRegistry` for one provider id, and `Authentication` is one provider's login,
logout and resolve over its credential store. Both are transition systems: one step is the
code between two awaits, or the moment at which an asynchronous store operation takes
effect, and a run is any interleaving of enabled steps. The proofs are inductive invariants
over all runs. `ProviderRegistry.Registry` and `ProviderAuthentication.Authenticator` are
the mutable objects themselves; their methods are proved to do to one id what the transition
system's functions say, and nothing to other ids. What a run can always be continued to is in
`CatalogRegistryContinuations` and `AuthenticationReads`; what refreshes publish, what the
objects report and what the store tasks write is in `CatalogRegistryContents` and
`AuthenticationStates`.

Three runs are given in which the code does not do what one would expect, each for every
stored catalog or key:

- a restore that reads the store between a superseded write and its rollback installs the
  rejected catalog (`DirtyReadBreaksAgreement`); the read is outside the publication chain,
  and any clean run that comes to such a read can go wrong there (`DirtyReadCanDisagree`);
- a refresh called while its provider was registered, and awaiting its authentication check
  while the provider is unregistered, begins anyway and brings a catalog into memory for an
  id that is no longer registered (`StaleBeginRevivesCatalog`); over a stored catalog that
  is possible exactly while such a refresh is waiting (`UnregisteredGetsCatalogExactly`), and
  a late begin is the only way an unregistered id ever gets one (`UnregisteredHasNoCatalog`);
- with the in-memory credential store, whose reads are not queued, a resolve begun between a
  logout and its delete reports `authenticated` after the logout has finished
  (`StaleResolveAfterLogout`); `GoesStaleExactly` says from which states that can happen, and
  with the file store's queued reads it cannot (`QueuedResolveFindsACredential`).

**A schema compiler.** `StrictSchema` is the strict conversion of tool schemas.
`StrictSchemaProofs.Accepts` is an independent validator; soundness, completeness and the
effect of converting twice are stated against it. Soundness is false of some union variants
that carry a `required` keyword (`VariantWithRequiredBreaksSoundness`), and holds exactly
when each union still has a variant that takes the names left after the nulls are dropped;
completeness holds exactly when every unwrapped optional property really accepts null and
each union has a variant that takes all declared names.

**A history compiler.** `ToolNames` and `ToolCallIds` are the two renamings, `History`
prepares a request's messages, `WireMessages` regroups them for Anthropic Messages and
Bedrock. `HistoryTheorems` says exactly which histories are accepted; `WirePairing` composes
both stages.

**Incremental parsers.** `AwsEventStream` keeps a growing, compacting buffer over an array
and is proved against a one-shot parse; `Crc32` is the checksum, bit by bit. `Sse` keeps a
line buffer and is proved against the line-by-line algorithm of section 9.2.6 of the WHATWG
HTML standard, with the code's own choices: a bare carriage return does not end a line, and
the end of input ends the last line and dispatches the last event.

**Stream decoders.** `StreamTrace` says which traces of canonical events are well formed and
what that means event by event, and has the normalizer. `OpenAiChat`, `MistralStream` and
`BedrockStream` are three decoders with their accumulators. `OpenAiChatText` says of what the
provider sends when the emitted fragments of a call are the text that is parsed, and
`ClosedStreams` passes each decoder through the normalizer. `OpenAiChatContents`,
`MistralContents` and `BedrockContents` give the whole output of each decoder as a function of
what arrives. `GoogleCallIds` is the id search
of a fourth.

**Smaller pieces.** `Redaction`, `Release` and `DevicePolling`.

## How to read it

Functions give the meaning of each piece of code; methods and classes are the loops and
objects, each with an `ensures` that equates it with the function; the theorems are lemmas
about the functions. The modules named `...Contents`, `...States`, `...Shape`, `...Lines` and
`...Errors`, and the lemmas named `...Exactly`, say in numbers and over the inputs what those
functions compute. Strings are sequences of Unicode scalar values. The text decoder, JSON,
SHA-256 and base64 are function parameters, with only what is stated about them assumed
(64 hexadecimal digits for the digest; that decoding a stream piece by piece gives the text
of the whole). `dafny verify dfyconfig.toml` checks everything.

## Model

| member | source | states |
|---|---|---|
| PromiseQueue.SerializedInCallOrder | packages/ai/src/credentials.ts:144-151 | over every run of the promise-tail queue at most one task runs, and whatever was queued before a started task is finished |
| PromiseQueue.SomeTaskCanMove | packages/ai/src/catalog-store.ts:374-386 | an unfinished task never waits for ever: some task at or before it can start or finish |
| CatalogRegistryProofs.StepKeepsInv | packages/ai/src/registry.ts:482-687 | every step of the refresh protocol keeps the invariant tying operations, publications, their queue and generations together |
| CatalogRegistryRuns.SupersededNeverInstalls | packages/ai/src/registry.ts:630-687 | after a newer refresh, a disable or an unregister, no later step installs a catalog of an older generation, even if the id is registered again |
| CatalogRegistryRuns.CatalogGenerationNeverDecreases | packages/ai/src/registry.ts:558-663 | while a provider stays registered its in-memory catalog neither disappears nor goes back to an older catalog generation |
| CatalogRegistryRuns.UnregisteredHasNoCatalog | packages/ai/src/registry.ts:228-237 | throughout a run an unregistered id has neither a catalog nor a live refresh, if and only if every refresh begins while its provider is registered |
| CatalogRegistryContents.NotModifiedKeepsTheCatalog | packages/ai/src/registry.ts:558-612 | over runs: a not-modified result publishes the catalog in memory with its models, generation and time of update, and only a new time of check and source; without a catalog, or for a superseded refresh, nothing |
| CatalogRegistryContents.UpdateIsPublished | packages/ai/src/registry.ts:558-612 | over runs: an update publishes exactly its models and source, under the generation after that of the catalog in memory |
| CatalogRegistryContents.RestorePublishesTheNewer | packages/ai/src/registry.ts:614-629 | a restore publishes what it read, or the catalog in memory if that has a larger generation |
| CatalogRegistryContents.OnlyValidIsPublished | packages/ai/src/registry.ts:558-629 | a catalog that does not validate is not published and fails its operation; one whose signal has fired ends it as superseded |
| CatalogRegistryContents.CatalogsAreGiven | packages/ai/src/registry.ts:482-663 | every catalog in memory, in the store, in a publication or in a result has the models the store held at the start or an earlier update sent |
| CatalogRegistryContents.ReportIsHonest | packages/ai/src/registry.ts:482-556 | an operation reports a refreshed catalog exactly when its own publication was accepted, a supersession only when its signal has fired, a failure only when it has not, and gives up its controller |
| CatalogRegistryContents.PublishedMeansInstalled | packages/ai/src/registry.ts:630-663 | a publication counts as accepted only if an earlier step put its catalog into memory, and as failed only if its write or its rollback failed |
| CatalogRegistryContents.ChecksAreWaiting | packages/ai/src/registry.ts:400-425 | the refreshes that await their check are the calls made, less those that have begun or been given up |
| CatalogRegistryContents.FirstPublicationCanMove | packages/ai/src/registry.ts:630-663 | in every reachable state the first unfinished publication can take its next step, so none waits for ever |
| CatalogRegistryCoherence.MemoryAgreesWithStore | packages/ai/src/registry.ts:614-663 | in every clean run, whenever no publication is running, the in-memory catalog is absent or equals the stored one |
| CatalogRegistryCoherence.RollbackRestoresTheStore | packages/ai/src/registry.ts:641-656 | a superseded publication that wrote puts back exactly what the store held before, and nothing touched the store in between |
| CatalogRegistryWitnesses.DirtyReadBreaksAgreement | packages/ai/src/registry.ts:614-629 | the store read outside the publication chain, landing between a rejected write and its rollback, leaves memory and store in disagreement |
| CatalogRegistryContinuations.DirtyReadCanDisagree | packages/ai/src/registry.ts:614-656 | in any clean run, whenever the newest refresh is about to read a written but unaccepted catalog that is not older than memory and not what the rollback puts back, the run can go on, clean but for that read, until memory and store disagree with nothing running |
| CatalogRegistryWitnesses.FailedRollbackBreaksAgreement | packages/ai/src/registry.ts:641-656 | a rollback that fails leaves the rejected catalog in the store |
| CatalogRegistryContinuations.FailedRollbackAgreesExactly | packages/ai/src/registry.ts:641-656 | a rollback that fails after any clean run leaves memory and store in agreement if and only if memory is absent or holds the very catalog that should have been taken back |
| CatalogRegistryWitnesses.StaleBeginRevivesCatalog | packages/ai/src/registry.ts:400-425 | a refresh called while its id was registered, and still awaiting its authentication check when the id is unregistered or the registry disposed, begins and brings the stored catalog into memory |
| CatalogRegistryContinuations.StaleBeginCanRevive | packages/ai/src/registry.ts:400-425 | from every reachable state in which the id is unregistered, a refresh called before still awaits its check and the store holds a catalog, the run can go on, without a registration, until that catalog or the newer one in memory is in memory |
| CatalogRegistryContinuations.UnregisteredGetsCatalogExactly | packages/ai/src/registry.ts:400-425 | an unregistered id without catalog and live refresh, over a stored catalog, can get a catalog into memory before it is registered again if and only if a refresh called earlier still awaits its check |
| ProviderRegistry.Registry.Register | packages/ai/src/registry.ts:216-237 | registration succeeds exactly for a fresh id on a live registry, and touches no other id |
| ProviderRegistry.Registry.UnregisterEntry | packages/ai/src/registry.ts:230-237 | the unregister closure acts only while its own registration is current; it supersedes, forgets and clears |
| ProviderRegistry.Registry.SetProviderEnabled | packages/ai/src/registry.ts:251-257 | disabling supersedes the running refresh |
| ProviderRegistry.Registry.StartRefresh | packages/ai/src/registry.ts:665-681 | a refresh takes the next generation and aborts the one before |
| ProviderRegistry.Registry.EndRefresh | packages/ai/src/registry.ts:683-687 | a finished refresh removes only its own controller |
| ProviderRegistry.Registry.ResumePublication | packages/ai/src/registry.ts:643-657 | after its write a publication installs exactly if its generation is still current and not aborted |
| ProviderRegistry.Registry.DisposeAll | packages/ai/src/registry.ts:466-472 | disposal supersedes every running refresh and clears every id |
| ProviderRegistry.MergeCatalog | packages/ai/src/registry.ts:731-742 | the last catalog entry of an id wins over the provider's own, own positions are kept, new ids follow in the order in which they first occur, no id occurs twice |
| AuthenticationProofs.StepKeepsInv | packages/ai/src/auth.ts:298-405 | every step of the authentication protocol keeps the invariant tying operations, queued tasks and the store together |
| AuthenticationRuns.LogoutIsNotUndone | packages/ai/src/auth.ts:325-403 | after a logout's delete, anything the store ever holds descends from a login begun after that logout |
| AuthenticationStates.CurrentIsLastReport | packages/ai/src/auth.ts:298-405 | the state of the object is always what the last reporting step reported: the authorizing or unsupported method, the login's method, the state before an aborted login, `logged_out`, the failed refresh, or the source resolved |
| AuthenticationStates.LogoutReportsLoggedOut | packages/ai/src/auth.ts:397-403 | a finished logout reports `logged_out`, and that stays until a login begins, a resolve publishes or a refresh fails |
| AuthenticationStates.NotAuthenticatedUntilLogin | packages/ai/src/auth.ts:298-403 | over queued reads: from the end of the newest logout until a login begins, the object is never `authenticated` by way of a stored credential |
| AuthenticationStates.LoginWritesItsCredential | packages/ai/src/auth.ts:363-369 | a login's write stores exactly its credential if the login was the newest operation when the write began, and else nothing |
| AuthenticationStates.RefreshStoresTheToken | packages/ai/src/auth.ts:521-540 | the token the provider returned is what is stored in place of the old one, and what the refresh answers |
| AuthenticationStates.ReadAnswersTheStore | packages/ai/src/credentials.ts:153-165 | a queued read, and a refresh that is not due, answer with what the store held when they began |
| AuthenticationStates.OperationsProceed | packages/ai/src/auth.ts:325-403 | what each step of a login or logout makes of the operation and of the queue |
| AuthenticationStates.FirstTaskCanMove | packages/ai/src/credentials.ts:144-165 | in every reachable state the first unfinished store task can take its next step, and a refresh answers only with a token |
| AuthenticationStates.RefreshIsDue | packages/ai/src/auth.ts:517-519 | a token is refreshed when it expires within the time asked for, but at least within five minutes |
| AuthenticationRuns.LoginFindsItsCredential | packages/ai/src/auth.ts:325-381 | a login that publishes `authenticated` finds its own credential, or a refresh of it, in the store |
| AuthenticationRuns.ResolveFindsACredential | packages/ai/src/auth.ts:298-324 | a resolve that publishes `authenticated` from a stored credential does so while the store holds one, if it read through the queue, or while no delete was pending, or refreshed what it read |
| AuthenticationRuns.QueuedResolveFindsACredential | packages/ai/src/auth.ts:298-324 | over a store with queued reads every resolve that publishes a stored credential finds one |
| AuthenticationReads.ExposedCanGoStale | packages/ai/src/credentials.ts:153-165 | from every reachable state with unqueued reads, a pending delete and a stored credential that is not about to expire, a resolve begun now can go on, with no further login or logout begun, to publish `authenticated` over the empty store after the logout has reported |
| AuthenticationReads.GoesStaleExactly | packages/ai/src/credentials.ts:153-165 | a resolve begun now can go stale if and only if reads are unqueued, a delete is pending, and the store holds a credential that is not about to expire when the resolve looks at it |
| AuthenticationRuns.OneRefreshPerBurst | packages/ai/src/auth.ts:508-548 | once a refreshed token is stored that no caller finds expiring, no queued task refreshes again and all answer with that token |
| AuthenticationRuns.BurstAuthorizesWaitingResolves | packages/ai/src/auth.ts:508-548 | every resolve waiting in such a burst, the one whose task did the refresh included, is authorized with that one token, unless its own task failed |
| ProviderAuthentication.StaleResolveAfterLogout | packages/ai/src/credentials.ts:153-165 | with unqueued reads a resolve can report `authenticated` after a finished logout |
| ProviderAuthentication.Authenticator.StartLogin | packages/ai/src/auth.ts:325-330 | a login is an operation never issued before, newer than all others, and none of those is the newest from then on; it reports the method asked for, or that it cannot be used, unless it is aborted at once |
| ProviderAuthentication.Authenticator.AnswerStore | packages/ai/src/auth.ts:365-368 | of all operations ever issued only the newest has its credential written; any other leaves the store as it is |
| ProviderAuthentication.Authenticator.CompleteLogin | packages/ai/src/auth.ts:370-380 | an issued operation publishes `authenticated` if and only if none has been issued after it, and otherwise leaves the state alone |
| ProviderAuthentication.Authenticator.AbandonLogin | packages/ai/src/auth.ts:381-388 | a failed login overtaken by any later operation leaves the state alone; the newest one restores what it replaced or asks for a new login |
| ProviderAuthentication.Authenticator.StartLogout | packages/ai/src/auth.ts:397-399 | a logout is a new operation, none issued before is the newest from then on, and the state stays until the delete is done |
| ProviderAuthentication.Authenticator.FinishLogout | packages/ai/src/auth.ts:400-403 | a logout whose delete succeeded and that is not aborted reports `logged_out`; any other changes nothing |
| ProviderAuthentication.Authenticator.FinishResolve | packages/ai/src/auth.ts:298-318 | a resolve publishes its source if and only if no operation has been issued since it began |
| ProviderAuthentication.Authenticator.FailRefresh | packages/ai/src/auth.ts:318-323 | a failed refresh asks for a new login unless it was aborted |
| ProviderAuthentication.OvertakenLogin | packages/ai/src/auth.ts:325-403 | a login overtaken by a logout writes no credential, does not publish, and its failure changes nothing |
| StrictSchemaProofs.StrictIsSound | packages/ai/src/request-preparation.ts:470-542 | what the strict schema accepts, the original accepts after nulls at wrapped optional members are dropped at every depth, if and only if each union still has a variant that takes the names that are left |
| StrictSchemaProofs.UnrequiredNullsFit | packages/ai/src/request-preparation.ts:488-500 | when no union variant requires a wrapped optional property of its node, that holds of every value |
| StrictSchemaShape.ConvertibleExactly | packages/ai/src/request-preparation.ts:479-534 | conversion succeeds if and only if every schema inside meets the demands, keyword by keyword |
| StrictSchemaShape.AllowsNullExactly | packages/ai/src/request-preparation.ts:470-477 | a schema allows null if and only if it or a union variant at some depth names null as type, constant or listed value |
| StrictSchemaShape.StrictAsksForAll | packages/ai/src/request-preparation.ts:511-534 | a converted object schema asks for every declared member and allows no other |
| StrictSchemaProofs.StrictIsComplete | packages/ai/src/request-preparation.ts:470-542 | an accepted value without undeclared members is accepted strictly after absent optionals are filled with null, if and only if every filled member that stays unwrapped accepts null and each union has a variant that takes all declared names |
| StrictSchemaTwice.SecondConversion | packages/ai/src/request-preparation.ts:458-534 | converting the result again succeeds exactly when no wrapped optional property was an object or array schema, and then changes nothing |
| StrictSchemaTwice.PruneUndoesFill | packages/ai/src/request-preparation.ts:479-534 | dropping the filled-in nulls gives the original value back |
| StrictSchemaTwice.VariantWithRequiredBreaksSoundness | packages/ai/src/request-preparation.ts:488-500 | with `required` inside a union variant, conversion changes what is accepted |
| StrictSchemaTwice.UnwrappedNullBreaksCompleteness | packages/ai/src/request-preparation.ts:470-477 | a property that seems to allow null but does not makes absent members unacceptable |
| StrictSchemaTwice.MakeStrictNode | packages/ai/src/request-preparation.ts:479-534 | the recursive rewriting fails exactly on schemas that are not convertible and otherwise yields the strict schema |
| Crc32.ComputeCrc | packages/ai/src/aws-event-stream.ts:8-15 | the bit loop computes the checksum |
| Crc32.Residue | packages/ai/src/aws-event-stream.ts:8-15 | any bytes followed by their checksum, lowest byte first, leave 0xdebb20e3 in a register of ones |
| Crc32.ChecksumOfZero | packages/ai/src/aws-event-stream.ts:8-15 | the checksum of a zero byte is 0xd202ef8d |
| Crc32.StepInjective | packages/ai/src/aws-event-stream.ts:11-12 | one bit step never maps two registers to one |
| Crc32.RegisterInjective | packages/ai/src/aws-event-stream.ts:8-15 | the same bytes keep different registers different |
| Crc32.BurstChangesCrc | packages/ai/src/aws-event-stream.ts:8-15 | byte strings that differ only inside a window of at most four bytes have different checksums |
| AwsEventStream.Decoder.Reserve | packages/ai/src/aws-event-stream.ts:54-61 | making room keeps the pending bytes, and the buffer stays within max(65536, twice the bytes received) |
| AwsEventStream.Decoder.Receive | packages/ai/src/aws-event-stream.ts:49-86 | one chunk yields what parsing pending bytes and chunk yields, leaves the rest pending, and keeps the buffer bound |
| AwsEventStream.Decoder.FindEventType | packages/ai/src/aws-event-stream.ts:17-38 | the offset loop finds the event type, or fails as the header list demands |
| AwsEventStream.DecodeStream | packages/ai/src/aws-event-stream.ts:41-89 | the decoder over a chunk sequence is the chunk-wise specification |
| AwsEventStreamProofs.ParseAppend | packages/ai/src/aws-event-stream.ts:62-87 | parsing more bytes continues where parsing the first ones stopped |
| AwsEventStreamProofs.FreshDecoderRefinesOneShot | packages/ai/src/aws-event-stream.ts:41-89 | for every chunking inside the two byte limits: the same messages and the same failure as one parse of all bytes |
| AwsEventStreamProofs.LimitsOnlyCutShort | packages/ai/src/aws-event-stream.ts:49-53 | even when a limit stops it, the decoder yields a prefix of the messages of the whole byte string |
| AwsEventStreamProofs.DecodeUndoesEncode | packages/ai/src/aws-event-stream.ts:17-89 | decoding an encoded message list returns what the messages mean, and nothing is left over |
| AwsEventStreamErrors.FirstFrameMeans | packages/ai/src/aws-event-stream.ts:62-84 | the first frame of a byte string, with big-endian lengths: when it is left for later, which of the lengths, checksums, headers and payload fails it and in which order, and what it yields |
| AwsEventStreamErrors.HeaderListMeans | packages/ai/src/aws-event-stream.ts:17-38 | after headers that do not name the event: which error a bad header gives, and that the first one with either name gives its value |
| AwsEventStreamErrors.LimitsAre | packages/ai/src/aws-event-stream.ts:49-53 | 64 MiB in all and 16 MiB pending are taken, in this order of tests |
| AwsEventStreamProofs.AlteredFrameIsNotYielded | packages/ai/src/aws-event-stream.ts:66-84 | a yielded frame altered in one to four neighbouring bytes on one side of a checksum boundary is never yielded, whatever follows it |
| AwsEventStreamProofs.OneChangedByteIsNotYielded | packages/ai/src/aws-event-stream.ts:66-84 | a yielded frame with any one byte changed is never yielded |
| AwsEventStreamProofs.AlteredFrameIsNotYieldedInChunks | packages/ai/src/aws-event-stream.ts:41-89 | the same for every chunking |
| AwsEventStreamProofs.MessagesBeforeAlteredFrame | packages/ai/src/aws-event-stream.ts:41-89 | an altered frame after any encoded message list: exactly the messages of the list are yielded, whatever follows |
| AwsEventStreamProofs.MessagesBeforeAlteredFrameInChunks | packages/ai/src/aws-event-stream.ts:41-89 | the same for every chunking inside the limits; beyond them a prefix of those messages |
| Sse.Decoder.ProcessField | packages/ai/src/sse.ts:57-68 | the running byte count is the size of the joined data, so the limits are those of the event |
| Sse.Decoder.DrainLines | packages/ai/src/sse.ts:37-72 | draining the buffer does what the standard does with its complete lines and keeps the rest |
| Sse.Decoder.Receive | packages/ai/src/sse.ts:74-80 | the order of the total, pending-line and line checks on one chunk |
| Sse.DecodeStream | packages/ai/src/sse.ts:22-84 | the decoder over a chunk sequence is the chunk-wise specification |
| SseProofs.DrainAppend | packages/ai/src/sse.ts:37-72 | draining more text continues where draining the first part stopped |
| SseProofs.ChunkingDoesNotMatter | packages/ai/src/sse.ts:22-84 | success, events and kind of failure of every chunking within the total limit are those of the line-by-line reference |
| SseProofs.ChunksContinue | packages/ai/src/sse.ts:74-83 | beyond the total limit the events are still a prefix of the reference's |
| SseProofs.SucceedsExactly | packages/ai/src/sse.ts:22-84 | any stream decodes without failure if and only if its bytes keep to the total limit and the line-by-line reference does not fail |
| SseLines.FieldLine | packages/ai/src/sse.ts:56-69 | a field line, with or without a colon and a space after it: an event name, a data line, or nothing; with the limits in numbers |
| SseLines.BlankLine | packages/ai/src/sse.ts:44-50 | a blank line dispatches the pending event if it has data lines and starts a new one |
| SseLines.CarriageReturnIsCut | packages/ai/src/sse.ts:40-42 | one carriage return before the line feed does not belong to the line |
| SseLines.OneChunk | packages/ai/src/sse.ts:74-80 | the limits of 16 MiB in all and 1 MiB pending come before the lines of a chunk |
| SseRoundTrip.PrintedFramesDecode | packages/ai/src/sse.ts:37-72 | decoding printed events returns them with one carriage return cut from each line end |
| SseRoundTrip.DecodeUndoesPrint | packages/ai/src/sse.ts:22-84 | for every chunking of printed events decoding succeeds, and returns them if and only if no line of theirs ends in a carriage return |
| ToolNames.RenderedNameObeysRule | packages/ai/src/dialect.ts:119-129 | a rendered name is within the length and alphabet of the dialect |
| ToolNames.SanitizeExactly | packages/ai/src/dialect.ts:119-129 | each longest run of characters that are not allowed becomes one underscore, and the rest stays |
| ToolNames.RenderExactly | packages/ai/src/dialect.ts:119-129 | the name sent is the override or the canonical name, sanitized and cut if there is a rule; there is none exactly when nothing is left |
| ToolNames.FreezeRoster | packages/ai/src/dialect.ts:145-181 | the roster is the declarations in order; freezing fails exactly when names clash on either side or one renders to nothing, and the error names declarations of which that is true |
| ToolNames.ReverseUndoesVisible | packages/ai/src/openai-chat.ts:686-688 | a name sent out comes back canonical if and only if the tool is declared, or goes by its own name and no declared tool has that name |
| ToolNames.UndeclaredToolTakesAnotherName | packages/ai/src/request-preparation.ts:1040-1040 | a call to a tool no longer declared can go out under a declared tool's name |
| ToolCallIds.NormalizedToolCallId | packages/ai/src/request-preparation.ts:399-412 | the search loop finds the first free candidate |
| ToolCallIds.NormalizedIsFree | packages/ai/src/request-preparation.ts:395-412 | a wire id is unused and obeys the dialect's rule; there is none only when a thousand candidates are taken |
| ToolCallIds.NormalizedExactly | packages/ai/src/request-preparation.ts:399-412 | an id that obeys the rule and is free is kept; otherwise the first free of a thousand candidates is taken |
| ToolCallIds.CandidateExactly | packages/ai/src/request-preparation.ts:403-410 | the candidates: nine digits of a digest for Mistral, call_ and fifty-nine elsewhere, of the id or of the id, a colon and a number |
| ToolCallIds.MatchesExactly | packages/ai/src/request-preparation.ts:395-397 | the two id rules by length and characters |
| History.Tables.AddCall | packages/ai/src/request-preparation.ts:1028-1062 | one call's checks in order, and its entries in the three tables |
| History.Tables.AddMessage | packages/ai/src/request-preparation.ts:986-1102 | one message's checks in order, and what it leaves pending |
| History.PrepareHistory | packages/ai/src/request-preparation.ts:972-1105 | the loop over messages is the specification |
| HistoryProofs.DebtIsPaidAtOnce | packages/ai/src/request-preparation.ts:1074-1088 | open calls are settled exactly when the next messages answer them, one each |
| HistoryProofs.SettledMeansTurns | packages/ai/src/request-preparation.ts:972-1105 | the pending table accepts exactly the histories in which n calls are followed at once by their n results in some order |
| HistoryTheorems.AcceptsExactly | packages/ai/src/request-preparation.ts:972-1105 | preparation succeeds only on well-paired histories with distinct call ids and valid messages, and on all of those unless it runs out of wire ids |
| HistoryTheorems.PreparedHistory | packages/ai/src/request-preparation.ts:972-1105 | the output is the history message by message under a one-to-one table of rule-abiding wire ids, the same for calls and results; its wire ids are distinct and well paired |
| HistoryContents.SentExactly | packages/ai/src/request-preparation.ts:972-1105 | what is sent of each message: its sanitized content in order, each call with its wire id, the provider's tool name and its own input, each result with its call's wire id and its own error flag |
| HistoryContents.RefusalIsJustified | packages/ai/src/request-preparation.ts:986-1088 | what each refusal of a message says about it is true; emptiness comes first, then open calls |
| HistoryContents.FirstRefusalCounts | packages/ai/src/request-preparation.ts:972-1105 | a refused history is refused for its first refused message |
| HistoryTheorems.AcceptsExactlyUpToAThousandCalls | packages/ai/src/request-preparation.ts:399-412 | with at most a thousand calls and digests that differ, preparation accepts exactly the acceptable histories |
| HistoryTheorems.PortableIdsAreKept | packages/ai/src/request-preparation.ts:399-401 | when the ids obey the rule already, preparation accepts exactly the acceptable histories and keeps every id |
| WireMessages.EncodeMessages | packages/ai/src/anthropic-messages.ts:232-270 | the index loop that regroups runs of results is the specification |
| WirePairing.NothingIsLost | packages/ai/src/bedrock-converse-stream.ts:265-294 | encoding fails exactly when some message cannot be rendered; otherwise all blocks come out in order under their roles |
| WireContents.SentExactly | packages/ai/src/anthropic-messages.ts:186-270 | encoding fails exactly when content is refused or nothing is left of an assistant message; otherwise the blocks sent are, message by message, a user's content, an assistant's content and then its calls, or one result |
| WireContents.GroupedExactly | packages/ai/src/anthropic-messages.ts:254-267 | each message is one of its own, except that a result joins the result before it |
| WirePairing.EncodingKeepsPairs | packages/ai/src/anthropic-messages.ts:232-270 | a well-paired history renders to a message list in which one user message answers exactly the calls before it |
| WirePairing.PreparedAndEncoded | packages/ai/src/bedrock-converse-stream.ts:265-294 | preparation and encoding together: well-paired message list, distinct rule-abiding ids, each answered once |
| WirePairing.CachePointKeepsPairs | packages/ai/src/bedrock-converse-stream.ts:296-310 | the cache point appended to the last user message leaves pairing intact |
| WireContents.CachePointExactly | packages/ai/src/bedrock-converse-stream.ts:296-310 | the cache point is one more block at the end of the last user message, and nothing else changes |
| StreamTrace.EachIndexIsOneBlock | packages/ai/src/stream.ts:10-17 | in a well-formed trace the events of a content index are one text block, one thinking block, or one call with a start, fragments and at most one end under one id and name |
| StreamTrace.CompletionEndsCalls | packages/ai/src/stream.ts:10-17 | in a well-formed trace that completes, every started call has exactly one end |
| StreamTrace.NormalizeModelStream | packages/ai/src/stream.ts:18-45 | the normalizing loop is the specification |
| StreamTrace.ExactlyOneTerminal | packages/ai/src/stream.ts:18-45 | whatever the provider stream does, exactly one terminal event is passed on, last, after a prefix of the stream |
| StreamTrace.OwnTerminalIsKept | packages/ai/src/stream.ts:24-29 | the stream's own terminal event is passed on, and nothing after it |
| StreamTrace.NormalizedExactly | packages/ai/src/stream.ts:18-63 | what is passed on, event by event, and which terminal event is put in place of a missing one, saying whether anything came before it |
| StreamTrace.NormalizingKeepsTrace | packages/ai/src/stream.ts:18-63 | closing a stream keeps its trace well formed |
| ClosedStreams.ChatIsClosed | packages/ai/src/openai-chat.ts:712-956 | for every frame sequence, what is passed on of the Chat decoder is a well-formed trace of its own events with exactly one terminal event, last, and on completion every started call has exactly one end |
| ClosedStreams.MistralIsClosed | packages/ai/src/mistral-conversations.ts:382-649 | the same of the Mistral decoder |
| ClosedStreams.BedrockIsClosed | packages/ai/src/bedrock-converse-stream.ts:642-928 | the same of the Bedrock decoder |
| OpenAiChat.Decoder.ReadToolDelta | packages/ai/src/openai-chat.ts:863-913 | one tool call delta: what is merged, emitted and remembered |
| OpenAiChat.Decoder.Take | packages/ai/src/openai-chat.ts:776-915 | one frame, with its checks and early ends in order |
| OpenAiChat.Decoder.Close | packages/ai/src/openai-chat.ts:918-956 | the calls end in ascending tool index, up to the first that is wrong |
| OpenAiChat.SortedAscends | packages/ai/src/openai-chat.ts:923-923 | accumulated calls are completed by ascending tool index |
| OpenAiChat.DecodeStream | packages/ai/src/openai-chat.ts:712-956 | the decoder over a frame sequence is the specification |
| OpenAiChatProofs.ChatTrace | packages/ai/src/openai-chat.ts:712-956 | for every frame sequence the trace is well formed, and every ended call has the id, input and fragments of one accumulated tool |
| OpenAiChatContents.DecodesExactly | packages/ai/src/openai-chat.ts:712-956 | the whole output as a function of the frames: every text and thought under its content index in order, the ends of the calls by ascending tool index with ids, names and inputs, and the terminal event or error that the frames call for |
| OpenAiChatContents.AnswerIsContents | packages/ai/src/openai-chat.ts:839-857 | the answer's text is the contents of the frames taken up, and its thinking their first non-empty reasoning fields |
| OpenAiChatProofs.FragmentsSpellText | packages/ai/src/openai-chat.ts:884-913 | a call's fragments spell the parsed text if and only if it did not turn custom after other characters had been emitted |
| OpenAiChatText.FragmentsSpellExactly | packages/ai/src/openai-chat.ts:776-955 | for every frame sequence, each ended call is that of one tool index, its input is parsed from what the provider sent under that index, and its fragments spell that text if and only if arguments sent before the first custom input, if the call had been named by then, are how the custom text begins |
| OpenAiChatText.FragmentsSpellInput | packages/ai/src/openai-chat.ts:776-955 | when no tool index mixes function and custom input, the fragments of every ended call spell exactly the text its input is parsed from |
| OpenAiChatProofs.MixedInputBreaksFragments | packages/ai/src/openai-chat.ts:884-913 | a mixed call whose fragments differ from the parsed text |
| MistralStream.Decoder.TakeItem | packages/ai/src/mistral-conversations.ts:482-524 | one content item: a change between text and thinking takes a new content index |
| MistralStream.Decoder.TakeFragment | packages/ai/src/mistral-conversations.ts:531-590 | one tool call delta: a call without an id gets the fallback, and starts as soon as it has a name |
| MistralStream.Decoder.Close | packages/ai/src/mistral-conversations.ts:593-648 | the calls end in ascending tool index, and what the finish reason then means |
| MistralStream.DecodeStream | packages/ai/src/mistral-conversations.ts:382-649 | the decoder over a frame sequence is the specification |
| MistralStreamProofs.MistralTrace | packages/ai/src/mistral-conversations.ts:382-649 | for every frame sequence the trace is well formed, and every ended call has the input its fragments parse to, or the empty object if it has none |
| MistralContents.DecodesExactly | packages/ai/src/mistral-conversations.ts:382-649 | the whole output as a function of the frames, with a new content index whenever the kind changes or tool calls came between |
| BedrockStream.Decoder.Take | packages/ai/src/bedrock-converse-stream.ts:675-887 | one event, with its checks and early ends in order |
| BedrockStream.Decoder.Close | packages/ai/src/bedrock-converse-stream.ts:890-927 | the blocks still open are closed by ascending provider index |
| BedrockStream.Ascending | packages/ai/src/bedrock-converse-stream.ts:895-895 | the order of closing: strictly ascending, and exactly the indexes still open |
| BedrockStream.DecodeStream | packages/ai/src/bedrock-converse-stream.ts:642-928 | the decoder over an event sequence is the specification |
| BedrockStreamProofs.BedrockTrace | packages/ai/src/bedrock-converse-stream.ts:642-928 | for every event sequence the trace is well formed and every ended call has the input its fragments spell |
| BedrockContents.DecodesExactly | packages/ai/src/bedrock-converse-stream.ts:642-928 | the whole output, event by event, as a function of what has been sent to each block since it was opened; and the terminal event or error that follows |
| GoogleCallIds.NextFree | packages/ai/src/google-shared.ts:718-727 | the id search terminates, because the used set is finite and the counter grows, at the first free number |
| GoogleCallIds.AssignCallId | packages/ai/src/google-shared.ts:718-728 | the search loop is the specification |
| GoogleCallIds.AssignExactly | packages/ai/src/google-shared.ts:718-728 | a new given id is kept; any other call gets google_call_ and the first free number after the last one given out |
| GoogleCallIds.CallIdsAreDistinct | packages/ai/src/google-shared.ts:718-728 | all call ids of a stream differ, whatever ids the provider omits or repeats; a new given id is kept |
| Redaction.SafeProviderMessage | packages/ai/src/diagnostics.ts:10-17 | the loop over the secrets, longest first, is the specification |
| Redaction.FirstOccurrenceIsReplaced | packages/ai/src/diagnostics.ts:15-15 | the first occurrence of a secret becomes the mark and the text after it is treated alike |
| Redaction.OrderIsStable | packages/ai/src/diagnostics.ts:12-14 | secrets of one length are replaced in the order in which they are given |
| Redaction.ShownIsBounded | packages/ai/src/diagnostics.ts:16-16 | the first two thousand characters are shown |
| Redaction.RedactionIsComplete | packages/ai/src/diagnostics.ts:10-17 | if no secret contains the mark, lies in it, has a start that ends it or an end that begins it, the bounded output contains no secret, whatever the message |
| Redaction.HarmlessSecretIsHidden | packages/ai/src/diagnostics.ts:10-17 | such a secret is hidden whatever the other secrets are |
| Redaction.HiddenExactly | packages/ai/src/diagnostics.ts:10-17 | a secret of at most 1990 characters, with brackets or without, is hidden in every message and any company of other secrets if and only if it neither contains the mark, nor lies in it, nor overlaps its edges |
| Redaction.CompleteExactly | packages/ai/src/diagnostics.ts:10-17 | for secrets without brackets, redaction is complete if and only if none occurs in the mark's word |
| Redaction.OtherTextIsKept | packages/ai/src/diagnostics.ts:10-17 | a message without secrets is only bounded |
| Redaction.BracketSecretIsAssembled | packages/ai/src/diagnostics.ts:15-15 | a secret with a bracket can be put together by the replacement of another |
| Release.CompareIsTotalOrder | scripts/release.ts:159-167 | version comparison is a total order |
| Release.CompareExactly | scripts/release.ts:159-167 | versions compare by major, minor and patch number, then alpha, beta, rc and stable, then by serial |
| Release.NextIsAbove | scripts/release.ts:169-212 | the next version is strictly above every tag of its series |
| Release.TargetExactly | scripts/release.ts:169-195 | the patch is the largest one under way, or the one after the largest stable one, or zero |
| Release.NextExactly | scripts/release.ts:196-212 | the serial follows the largest of the same patch and channel, and starts at one |
| Release.RefusedExactly | scripts/release.ts:196-204 | a release is refused exactly when a prerelease of a higher channel exists for its patch |
| Release.ReleasesIncrease | scripts/release.ts:169-212 | every sequence of releases is strictly increasing, so no version is reused |
| DevicePolling.PollDevice | packages/ai/src/oauth-auth.ts:140-172 | the polls made are those that are due: an interval after the start or the last answer, at least a second apart, before the deadline, fewer than its seconds; the first deciding answer is the outcome, and without one polling ends only by an abort or because the next poll is not due before the deadline |

## Left out

- Locks between processes and stale-lock removal in the two file stores: a single process is modelled, whose store operations take effect at one moment.
- `check()` of the authentication object: it publishes without comparing generations, so it is not part of the state claims.
- Network, retries, OAuth endpoints and cloud credential chains.
- Validation of entry shapes, options and keys of messages: a content item or call input is valid or not, as a parameter says. The list of sanitizations and the removal of signatures and continuations are not modelled.
- StrictSchemaTwice.MakeStrictNode: works on values, because the source rewrites a deep clone that nothing else refers to; the rewriting order inside a node is kept, aliasing is not an issue.
- StrictSchemaProofs.Accepts: schema-valued `additionalProperties` and the other keywords of JSON Schema; numbers are integers. The soundness and completeness theorems leave out union variants with an `additionalProperties` other than `false`.
- Redaction.HiddenExactly: secrets of more than 1990 characters, which the bound on the output may cut off before the secret is complete.
- `strictSchema`'s own last check, that the root is an object schema, and the fallback to a non-strict tool in `prepareTools`.
- AwsEventStreamProofs.AlteredFrameIsNotYielded: a window that straddles a checksum boundary is not covered, because there data and checksum change together.
- Sse: bytes are decoded outside the model; a chunk is its size and the text the decoder returns for it.
- HistoryTheorems.AcceptsExactly: whether a history of more than a thousand calls, or one whose digests collide, exhausts the candidates is left open, because it depends on the digest.
- Adapters' content blocks in WireMessages: rendering of content is a parameter that may refuse a message; only calls and results are concrete.
- MistralStream.DecodeStream: the fallback id, nine digits of a digest, is a parameter that is never empty.
- Usage, cost, response metadata, retryability and categories of error events in the decoders, and errors from malformed usage objects.
- The Anthropic Messages and Google stream decoders: their proofs would repeat those of the three decoders modelled; of the Google one only the call ids are here. `decodeResponsesStream` and the gateway decoder make no promise of this kind.
- ToolNames: descriptions, schemas and the fingerprint of the frozen roster. The name rule's character class is a predicate; lengths count characters, not UTF-16 code units.
- Release: the text form of versions; a tag is a parsed version.
- DevicePolling.PollDevice: a sleep that rejects because the caller aborts during it; the abort is seen at the next poll.
- Thinking budgets, request fitting, prompt cache placement, image generation, provider definitions and catalogs.
