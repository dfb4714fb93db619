# goci-connect in Dafny

A verified model of the login machinery of goci-connect: the provider registry, the OAuth 2.0
provider, its bounded HTTP transport and user loaders, the one-time session store and handlers of the
`net/http` example, the fake provider of `testkit`, and the text algorithms they rest on. `dafny verify
dfyconfig.toml` checks the project.

## How it is modelled

* **Code that updates state** is a class or a method with the source's loops: `Manager`, `SessionStore`,
  `Application`, `BoundedReadCloser`, `Query`, `ParsedURL` and the fake `Provider` keep the source's
  fields, and each method's contract states the new state. Where more than one call matters, the
  contract equates the method with a function, and the lemmas are about that function.
* **Concurrency.** `Login` interleaves any number of requests and registrations. Atomic are only the
  locked sections; clock readings, random draws, provider calls and lookups are steps of their own.
  `Issuance` interleaves the single reads of concurrent `Begin` calls from one random source, with one
  lock per provider, `EndToEnd` puts both together with the checks of `Complete`, and `Refinement`
  compares two such machines.
* **The environment** is arbitrary: a body hands over its bytes in any chunks and may report its end
  with or after the last of them; a context is cancelled before any observation and never revives;
  clock readings and random bytes are whatever a schedule says; callers of the fake provider write to
  everything they can reach.
* **Text.** A string is the sequence of its bytes, one character below 256 each, as Go holds it.
* **Aliasing.** `Cloning` keeps slices, maps and byte buffers as heap objects. A predicate such as
  `UserHolds(user, cells, value)` says that a user holds a value and is made of those cells only;
  ghost parameters carry cells and value.

## What the code does that its documentation does not say

* An authorization endpoint with a `#` after its host passes `New`, but everything `AuthCodeURL` appends then belongs
  to the fragment, which `parsed.Query()` does not see (`OAuth.NumberSignIsAccepted`, `OAuth.NumberSignLosesProtocol`).
* A GitLab base URL whose path has a character that should have been escaped, such as a quotation mark,
  makes `EscapedPath` ignore `RawPath`: an encoded slash passes the segment check, and the two trimmed
  path fields disagree. The printed URL is right all the same (`GitLab.UncheckedRawPath`,
  `GitLab.TrimmingIsPrinted`).
* For a response above the limit, a declared length and a chunked body give different categories when
  the status is not a success or the context is cancelled (`Transport.DeclaredLengthVerdict`).
* The too-large error of the bounded reader is not sticky (`Transport.TooLargeIsNotSticky`).
* A copy of a category sentinel, an `As` method that stores an error it does not wrap, and `&Error{}`
  each make `ErrorCodeOf` report a code that no sentinel confirms (`Errors.CopiedSentinelEscapes`,
  `Errors.StoredErrorEscapes`, `Errors.ZeroErrorEscapes`). `loadUser` adds that category to the first two.
* An `.env` line longer than 65535 bytes fails the whole file (`EnvironmentFiles.ParseOfFile`). The line
  `export = 1` fails it too, although `export=1` declares a variable (`EnvironmentFiles.UnexportedExport`).
* Sweeping is shown to be invisible for clocks that do not go back and identifiers that do not repeat.
  Neither condition can be dropped, though not every schedule that breaks one is affected
  (`RefinementLimits`).
* Two providers given the same `Config.Random` hold different locks, so on a source with short reads the
  bytes of a state or verifier may have gaps; no byte serves two of them (`Issuance.InterruptedDraw`,
  `Issuance.TokensAreIndependent`).

## Model

| member | source | states |
|---|---|---|
| `Login.StepKeepsInv` | examples/nethttp/app.go:83-141 | every step of any begin or callback request (lookup, Begin, clock reading, random draw, locked section) and every registration keeps the protocol invariant, and registry and history only grow |
| `Login.CompletedCallsAreBound` | examples/nethttp/app.go:83-141 | in every interleaving, a session passed to Complete was returned by Begin of that same provider instance, stored by a create for the same trimmed name under the identifier in the cookie, and was unexpired at consume's clock reading |
| `Login.EachInsertionCompletesOnce` | examples/nethttp/session_store.go:77-94 | two callbacks that reach Complete never do so with the same stored session |
| `Login.InsertionsAreAccountedFor` | examples/nethttp/session_store.go:52-102 | in every interleaving, per identifier and in total, inserted = live + consumed + swept; consumes never find an identifier more often than creates returned it |
| `Login.EntriesAreNotOverwritten` | examples/nethttp/session_store.go:61-72 | a live entry keeps its value under every step except a consume of its identifier or a create whose reading its expiry has reached, even if the random source repeats identifiers |
| `Login.LocksRunsInserted` | examples/nethttp/session_store.go:61-72 | the program's locked section of create leaves the map that the SessionStore class leaves, under the trimmed name and the reading's expiry, and records an insertion exactly when the class inserts |
| `EndToEnd.ExchangeMatchesURL` | oauth2provider/provider.go:28-86 | in every interleaving, whatever the other providers are, a callback that makes an OAuth provider exchange a code does so with a session its own Begin returned: the state is the one sent, or none was, and the verifier is the one whose challenge was sent |
| `EndToEnd.ForeignStateIsRejected` | oauth2provider/provider.go:74-76 | in every interleaving, any state other than the one that provider sent never reaches the exchange, even with a live session's cookie |
| `EndToEnd.StateOfAnotherLogin` | oauth2provider/provider.go:33-86 | a callback that brings the state issued to another login, of the same provider or another, reaches the exchange if and only if it is otherwise in order and the 32 bytes gathered for the two states are the same, although they come from different positions if the random source is one |
| `EndToEnd.SessionsAreNotConfused` | oauth2provider/provider.go:67-86 | in every interleaving, a session passed to Complete reaches the exchange with the state of another begin request only if the random source repeated all 32 bytes |
| `EndToEnd.IssuedWereReturned` | examples/nethttp/app.go:90-95 | every session in the history of a run was returned by a Begin step to some begin request |
| `Refinement.EachStep` | examples/nethttp/session_store.go:52-102 | the simulation between the sweeping store and one that never sweeps survives every step with an advancing clock and fresh identifiers, although create sweeps with a reading taken before the lock |
| `Refinement.SweepingIsInvisible` | examples/nethttp/session_store.go:53-62 | on every schedule with nondecreasing clock readings and identifiers drawn once, both stores complete the same logins with the same sessions; only "expired" may become "not found" |
| `RefinementLimits.RepeatedIdentifierIsVisible` | examples/nethttp/session_store.go:57-63 | without distinct identifiers the refinement fails: a concrete schedule logs a request in on one store and refuses it as expired on the other |
| `RefinementLimits.BackwardClockIsVisible` | examples/nethttp/session_store.go:53-62 | without a nondecreasing clock the refinement fails: a concrete schedule where a sweep has removed an entry that is live again |
| `Sessions.SessionStore.RemoveExpired` | examples/nethttp/session_store.go:96-102 | the deleting loop leaves exactly the entries that expire after the reading, unchanged |
| `Sessions.SessionStore.Create` | examples/nethttp/session_store.go:52-75 | the identifier is the first token of the random stream, of at most four in a row, that no live entry has; the tokens before it all collided with live entries; the sweep plus that one entry is the new map, and on an error nothing was added |
| `Sessions.SessionStore.Consume` | examples/nethttp/session_store.go:77-94 | whatever the answer, the entry is gone; not found, expired from the expiry on and provider mismatch are each given in exactly their case, expiry before the name, and only after the removal |
| `Sessions.InsertedIsTakenOnce` | examples/nethttp/session_store.go:52-94 | an inserted session is found by the first consume, which succeeds if and only if it comes before the expiry and names the same provider, and is found by nobody afterwards |
| `App.Application.HandleBegin` | examples/nethttp/app.go:83-114 | 404 and 502 leave store and random source alone; otherwise a redirect whose cookie is the identifier under which exactly the session Begin returned is stored, or 500 without an entry added, which takes a failing random source or four consecutive tokens of it that are all live identifiers |
| `App.Application.HandleCallback` | examples/nethttp/app.go:116-162 | 404 and a missing cookie leave the store alone; otherwise the cookie is cleared and its entry used up before anything else is judged; Complete is only asked about a session the store admits |
| `App.Application.Login` | examples/nethttp/app.go:83-162 | an undisturbed login gets Complete's verdict on the very session Begin issued, before the expiry only, and a replay of the cookie is refused |
| `App.RejectionsAreNotGatewayFailures` | examples/nethttp/app.go:144-152 | a callback that Complete rejects before the exchange yields 403 if it reports an error and 400 otherwise, never 502 |
| `App.StatusesByOffer` | examples/nethttp/app.go:142-161 | for any error of Complete the sentinels its nodes offer decide: a denial gives 403, else an invalid request or state 400, everything else 502; a user gives 200 |
| `App.StatusesByCategory` | examples/nethttp/app.go:142-153 | so the status of an error of one category follows from that category |
| `App.RefusalsByEntry` | examples/nethttp/app.go:129-137 | a session consume refuses gives 400, as expired exactly when its entry is there and expired |
| `Registry.ApplyKeepsWellFormed` | manager.go:29-68 | registering a provider or an alias keeps canonical names and aliases disjoint, trimmed and nonempty and every alias on a canonical name, and removes nothing |
| `Registry.ResolutionIsPermanent` | manager.go:71-85 | in every reachable registry, a name that resolves to a provider resolves to the same one after any further registrations |
| `Registry.Manager.Register` | manager.go:29-46 | the map update and each error agree with the registry function the invariants are about |
| `Registry.Manager.RegisterAlias` | manager.go:50-68 | the same for aliases, with the error of the first check that fails |
| `Registry.Manager.Provider` | manager.go:71-85 | canonical names first, then aliases; otherwise a not-found error with the trimmed name; the next four rows say which names those are |
| `Registry.ProvidedIsFound` | manager.go:29-85 | after a registration without an error every name that trims to the reported one finds that provider, and every other name finds what it found before |
| `Registry.AliasIsFound` | manager.go:50-85 | after an alias without an error every name that trims to it finds what its target finds, and every other name finds what it found before |
| `Registry.ChangeSucceeds` | manager.go:29-68 | a change succeeds if and only if its provider is there and its names are nonblank, the new name resolves to nothing yet and an alias names a canonical name; the first of these that fails gives its category and changes nothing |
| `Registry.ReachedNames` | manager.go:29-85 | in every reachable registry a name resolves if and only if an earlier successful change added its trimmed form |
| `Registry.Manager.Names` | manager.go:89-98 | the canonical names and no others, strictly ascending, whatever order the map is visited in |
| `Sorting.AscendingIsUnique` | manager.go:89-98 | there is only one strictly ascending list of a set of names, so Names has one possible answer |
| `Sorting.LessMeans` | manager.go:96 | the order is the lexicographic one over bytes: up to some place two names agree, and there one ends or has the smaller byte |
| `Text.TrimSpaceTakesWhite` | manager.go:130-132 | the text is white space runes, what TrimSpace returns, and white space runes: nothing else is taken |
| `Text.TrimSpaceIsTrimmed` | manager.go:130-132 | and the result has no white space rune at either end |
| `Text.SpacesInUnicode` | manager.go:130-132 | the white space runes by their code points |
| `Transport.BoundedReadCloser.Read` | oauth2provider/transport.go:41-64 | one read of any buffer from any body: bytes pass in order within the allowance, delivered + remaining stays the limit, the too-large error means that one byte more was there and is gone, any other error is the body's own |
| `Transport.Drain` | oauth2provider/transport.go:41-64 | for any chunking and any nonempty buffers, reading to the first error delivers the first min(limit, n) bytes and ends too large exactly when n > limit, otherwise in the body's own end |
| `Transport.TooLargeIsNotSticky` | oauth2provider/transport.go:45-52 | after the too-large error on a body of limit + 1 bytes, the next read delivers nothing and reports the body's own end, if anything |
| `Transport.ReadAll` | oauth2provider/transport.go:102 | with one more than the bounded reader's limit the LimitReader never truncates, so io.ReadAll sees what draining the bounded reader gives |
| `Transport.RoundTrip` | oauth2provider/transport.go:20-34 | a declared length above the limit closes the body unread; otherwise the body is wrapped with the full allowance and untouched |
| `Transport.ResponseLimit` | oauth2provider/config.go:97-103 | New accepts exactly the limits for which limit + 1 fits an int64, with 1 MiB for zero |
| `Transport.Fetcher.GetJSON` | oauth2provider/transport.go:77-119 | the result and the number of looks at the context for every reply, over any chunking; the length test after ReadAll is dead code |
| `Transport.SuccessIsTheWholeBody` | oauth2provider/transport.go:99-118 | GetJSON succeeds if and only if the reply is a success that ends properly, fits and decodes, and then returns the entire body |
| `Transport.FailuresByReply` | oauth2provider/transport.go:77-119 | the category of every reply that is not handed over: declared length before status, status before body, size before a broken body, that before decoding; a cancellation turns a missing response into a transport error |
| `Transport.DeclaredLengthVerdict` | oauth2provider/transport.go:25-33 | rejecting by an exact Content-Length agrees with draining; GetJSON's category with a declared and an unknown length agrees for every body that fits, and for a larger one exactly when the status is a success and the context live |
| `Cloning.CloneTable` | model.go:223-243 | the clone of a map of slices is nil for nil and otherwise has the same keys and contents in new cells only |
| `Cloning.CloneRequest` | model.go:19-23 | same scopes and parameters, nil and empty told apart, in new cells only |
| `Cloning.CloneToken` | model.go:158-162 | same scopes and metadata in new cells only |
| `Cloning.CloneUser` | model.go:194-198 | same token and raw document in new cells only |
| `Cloning.RequestHasValue` | model.go:12-16 | every request holds some value in some cells, so the contracts over values exclude no caller |
| `Cloning.UserHasValue` | model.go:148-191 | the same for users and their tokens |
| `Cloning.RequestValueIsUnique` | model.go:12-16 | what a request holds is determined by the heap alone, so the value a clone is proved to hold is the only one |
| `FakeProvider.NewProvider` | testkit/provider.go:72-88 | a new provider shares no cell with its configuration and holds its values; blank names become the default |
| `FakeProvider.Provider.Begin` | testkit/provider.go:99-105 | the log grows by the request as it stood, in cells of the provider's own; results and the other logs are untouched |
| `FakeProvider.Provider.Complete` | testkit/provider.go:108-114 | the configured user comes back in new cells, the call is logged |
| `FakeProvider.Provider.ConfigureComplete` | testkit/provider.go:142-146 | later results hold the user as it stood at this call |
| `FakeProvider.Provider.BeginCalls` | testkit/provider.go:188-196 | a new slice of clones that hold exactly the log |
| `FakeProvider.Provider.ResetCalls` | testkit/provider.go:223-230 | all four logs are empty and nothing else has changed |
| `FakeProviderRuns.Run` | testkit/provider.go:99-230 | for any calls, by callers that between any two of them write anything to all they ever passed in or got back: no cell of the provider is ever reachable for them, its state is what the arguments at call time make it, each result is what it then held, and the objects handed over by the last call hold that result |
| `FakeProviderRuns.Step` | testkit/provider.go:99-230 | the same for one call after any meddling: the user, token, slice or counts handed over are new and hold the recorded result |
| `FakeProviderRuns.CallersSeeValues` | testkit/provider.go:108-220 | reading any of the four logs gives the arguments since the last reset as they stood when the calls were made, and Complete gives the user as it stood when last configured |
| `FakeProviderRuns.LogsSinceReset` | testkit/provider.go:223-230 | after any events the four logs are the arguments of the calls since the last reset, in order |
| `AuthorizationQuery.InvalidAuthorizationParameters` | oauth2provider/config.go:228-238 | the early-returning loop answers whether some key is blank or protected in any letter case, whatever the map order |
| `AuthorizationQuery.RefusedKeys` | oauth2provider/config.go:228-247 | an ASCII key is refused if and only if it is white space or spells one of the thirteen names in any letter case |
| `AuthorizationQuery.OtherLetters` | oauth2provider/config.go:240-247 | writing a k as the Kelvin sign or an i as the capital I with a dot does not get a name past the check |
| `AuthorizationQuery.Query.Apply` | oauth2provider/provider.go:205-212 | applying a layer gives each key it names exactly its values and leaves the rest, whatever order the map is visited in |
| `OAuth.QueryByLayers` | oauth2provider/provider.go:49-61 | a protected key is in Begin's query exactly as the protocol set it; any other key has the whole value list of the last layer naming it |
| `OAuth.RequiredParameters` | oauth2provider/provider.go:28-61 | without a number sign in the endpoint: response_type code, client_id, redirect_uri if and only if configured, the scopes of the request or else the defaults joined by spaces, state if and only if it is not disabled, code_challenge and code_challenge_method S256 if and only if PKCE is on, each with that one value, and no other protected key |
| `OAuth.DrawnFits` | oauth2provider/provider.go:28-47 | a drawn session has a state unless it is disabled, and a verifier if and only if PKCE is on |
| `OAuth.NumberSignLosesProtocol` | oauth2provider/config.go:207-213 | an accepted endpoint with a number sign loses every protocol parameter to the fragment: client_id is in the query if and only if there is none |
| `OAuth.NumberSignIsAccepted` | oauth2provider/config.go:207-213 | an endpoint with a number sign and no question mark before it passes the parameter checks of New |
| `OAuth.NumberSignExample` | oauth2provider/config.go:89 | https://host/authorize#x is such an endpoint |
| `OAuth.QueryReadsBack` | oauth2provider/provider.go:55-61 | parsing the encoded query gives the query that was built |
| `OAuth.SentQueryReadsBack` | oauth2provider/provider.go:28-61 | what RequiredParameters says holds of the query a server parses from the URL |
| `UrlQuery.ParseOfEncoded` | oauth2provider/provider.go:55-61 | parsing any encoding of byte-string values gives the same values, less the keys without values |
| `UrlQuery.EncodingIsUnique` | oauth2provider/provider.go:61 | there is one encoding of a query, so the URL does not depend on map order |
| `UrlQuery.EscapedByte` | oauth2provider/provider.go:61 | which bytes stand for themselves, and that a space is a plus sign and any other byte two upper case hexadecimal digits |
| `UrlQuery.UnescapeFails` | oauth2provider/provider.go:55-59 | unescaping fails if and only if two hexadecimal digits do not follow some percent sign |
| `UrlQuery.SegmentMeans` | oauth2provider/provider.go:55-59 | which pair a segment of a query stands for, and when it is dropped |
| `UrlQuery.PairsBySegment` | oauth2provider/provider.go:55-59 | the segments between ampersands are taken one by one, in order |
| `OAuth.Provider.Begin` | oauth2provider/provider.go:20-64 | cancelled contexts and bad parameters are refused before anything is drawn; a session never lacks a value it needs; the query is the layered one, and its text parses to the parameters `OAuth.RequiredParameters` lists; a random source that does not fail means success |
| `OAuth.BeginThenComplete` | oauth2provider/provider.go:67-86 | a session from Begin reaches the exchange if and only if the callback has no error, a nonblank code and, unless disabled, the same state; the verifier sent is the one whose challenge was in the URL |
| `Issuance.TokensAreIndependent` | oauth2provider/provider.go:33-47 | over every interleaving of Begin calls of any providers on one random source, each Read a step that hands over any number of bytes: a token encodes 32 bytes gathered in ascending order, any two tokens gather theirs from disjoint positions of the stream, one per call and purpose, and are equal exactly when the bytes are |
| `Issuance.StepKeepsInv` | oauth2provider/provider.go:164-172 | every start, lock, Read and failure keeps each buffer equal to the bytes its draw took from the source, and a draw never reads again once another draw of its provider has read |
| `Issuance.WindowIffUndisturbed` | oauth2provider/provider.go:164-172 | a token encodes one contiguous window of the stream if and only if nobody but its own provider took a byte between its first and its last |
| `Issuance.AloneDrawsWindows` | oauth2provider/provider.go:166-168 | so it does if one provider has the source to itself |
| `Issuance.WholeReadsDrawWindows` | oauth2provider/provider.go:168 | and if the source hands over all it is asked for |
| `Issuance.InterruptedDraw` | oauth2provider/provider.go:166-168 | two providers with their own locks on one source that hands over 16 bytes at a time: a token whose bytes have a gap |
| `Random.TokenShape` | oauth2provider/provider.go:164-172 | a token has 43 characters of the verifier alphabet, and equal tokens mean equal bytes |
| `Base64Url.DecodeEncode` | oauth2provider/provider.go:171 | the unpadded URL-safe encoding of any bytes decodes to those bytes |
| `Base64Url.EncodingByDigits` | oauth2provider/provider.go:171 | every three bytes are a number of four digits to the base 64, each written by the character of the alphabet in its place |
| `UserLoading.Provider.LoadUser` | oauth2provider/provider.go:123-149 | the loader's outcome and every look at the context decide the result as specified; the user has the provider's name and the token it was loaded with |
| `UserLoading.Provider.Complete` | oauth2provider/provider.go:67-91 | each rejection in its order, without an exchange; otherwise code and verifier are sent and the user is loaded with the token of the exchange: access token, refresh token, type and expiry as the response names them, and its scopes as `Scopes.ExtractedIsGiven` says |
| `UserLoading.Provider.Refresh` | oauth2provider/provider.go:102-121 | succeeds if and only if enabled, with a nonblank token, a successful exchange and a context live at the last look, and then with the token of the response, field by field |
| `UserLoading.RejectionsByCallback` | oauth2provider/provider.go:67-82 | over callback and session alone: denied, invalid request for a blank code, state validation for a missing or different state, invalid request for a missing verifier, in that order, and otherwise the verifier that goes to the exchange |
| `UserLoading.FailedExchange` | oauth2provider/provider.go:180-196 | the category of a failed exchange or refresh: cancellation first, then an oversized response, then a network error, otherwise the operation's own; only cancellation and network errors keep a cause |
| `UserLoading.NormalizedSays` | oauth2provider/provider.go:214-251 | a normalized token has each field of the response under its own name, and its scopes |
| `UserLoading.UserIsHandedOn` | oauth2provider/provider.go:123-149 | a user loaded is the loader's in every field but provider and token; every error names the provider and the operation |
| `UserLoading.CancellationDecides` | oauth2provider/provider.go:123-149 | loading succeeds exactly when the last look finds the context live and the loader succeeded; a cancellation any look could see ends in a transport error with the context's cause |
| `UserLoading.SwallowedFailureIsNotCancellation` | providers/github/user.go:51-70 | GitHub's swallowed e-mail failure gives a user without e-mail only on a context live at the end, otherwise the transport error |
| `UserLoading.LoaderErrorsAreTransparent` | oauth2provider/provider.go:133-142 | on a live context a loader's error keeps its code, and keeps exactly the sentinels it matched if and only if the code is unknown or some node of the error offers it, as in every error without storing As methods and copied sentinels |
| `UserLoading.MappedUsersComeFromValidDocuments` | oauth2provider/loader.go:51-65 | the mapped loader gives a user if and only if the context is live and the whole reply fits, is valid JSON and is accepted by the mapper |
| `UserLoading.MappedUserIsHandedOn` | oauth2provider/loader.go:51-65 | the mapper's user comes back with the document as its raw data unless the mapper gave some; its refusal is a decoding error with the refusal as cause |
| `GitHubUser.LoadUser` | providers/github/user.go:32-61 | the user, the fallback to the e-mail endpoint and each failure, for all replies and cancellations; the next rows say what user that is |
| `GitHubUser.LoadedUser` | providers/github/user.go:32-61 | id, nickname, name, avatar and raw document are the account's by field; the e-mail endpoint decides if and only if the account shows no address and the scopes are unknown or hold user or user:email, and then by the list it returns; a list that does not come leaves the address empty |
| `GitHubUser.UnreadableAccountFails` | providers/github/user.go:33-49 | an account that does not decode, or whose number has no digits or anything but digits, is a decoding error |
| `GitHubUser.UintsAreAccepted` | providers/github/user.go:41-44 | the decimal text of a number is accepted if and only if it fits 64 bits |
| `GitHubUser.ScanEmails` | providers/github/user.go:72-82 | the two loops together answer with the trimmed address of the first primary, verified and nonblank entry, if there is one, otherwise of the first verified and nonblank one, otherwise with none |
| `GitHubUser.PickEmailIsChosen` | providers/github/user.go:72-82 | the same of the function the rest of the loader is stated with, over the list alone |
| `GitHubUser.FirstUsableMeans` | providers/github/user.go:72-82 | an address is found if and only if some entry qualifies, and it is the first such, trimmed |
| `Errors.ReportedCodeMatchesSentinel` | errors.go:144-160 | errors.Is confirms the code ErrorCodeOf reports, if the code has a sentinel, for every error without As methods that store something and without copied sentinels; in general if and only if a node decided the code or another node offers it; without a sentinel never |
| `Errors.ReportedByFirstNode` | errors.go:144-154 | the reported code is that of the first package error in the order a chain is walked, whatever stands before it, and only without one that of the first category error |
| `Errors.NewErrorKeepsCodes` | errors.go:82-117 | an error made with one of the thirteen codes with a sentinel reports it and matches its sentinel; any other code becomes unknown and matches nothing |
| `Errors.CopiedSentinelEscapes` | errors.go:149-152 | a copied sentinel reports its code and matches nothing |
| `Errors.StoredErrorEscapes` | errors.go:145-148 | an As method that stores a package error it does not wrap makes a code reported that nothing matches |
| `Errors.ZeroErrorEscapes` | errors.go:73-78 | the zero value of Error reports the empty code, which no sentinel has |
| `Errors.RewrapKeepsMatches` | oauth2provider/provider.go:138-141 | re-wrapping any error keeps its code exactly if that is a valid one, keeps every sentinel matched and adds at most that of the code, and hides no foreign error |
| `Errors.RewrapIsTransparent` | oauth2provider/provider.go:138-141 | re-wrapping an error built by NewError keeps its code, and changes nothing errors.Is matches if and only if the code is unknown or offered beneath, as in every error without storing As methods and copied sentinels |
| `Scopes.SplitKeepsContent` | oauth2provider/provider.go:253-261 | the scopes in order are the input without its separators |
| `Scopes.SplitOfSpread` | oauth2provider/provider.go:253-261 | splitting finds exactly the scopes a string was put together from, whatever separators surround them |
| `Scopes.SplitOfJoin` | oauth2provider/provider.go:253-261 | splitting a list joined with a space, a comma or any other separators gives the list back |
| `Scopes.CollectStrings` | oauth2provider/provider.go:230-237 | the accumulating loop keeps the string entries in order and drops the others |
| `Scopes.ExtractedIsGiven` | oauth2provider/provider.go:224-251 | over the scope field alone: unknown exactly for a missing field, a nil list or raw JSON of neither form; text is its scopes with separators around them; a list is its strings in order among other entries |
| `Scopes.ScopesByName` | oauth2provider/provider.go:253-261 | space, comma, tab, carriage return and newline each separate scopes |
| `Environment.ParseEnvironment` | examples/nethttp/env.go:40-66 | the loop over lines agrees with the recursive definition of the file format, errors and their line numbers included; `EnvironmentFiles` says what that comes to |
| `Environment.ValidEnvironmentKey` | examples/nethttp/env.go:89-99 | the early-returning loop accepts exactly the keys with a valid first and only valid further characters |
| `Environment.KeyByName` | examples/nethttp/env.go:89-107 | a key is valid if and only if it is nonempty, made of underscores, letters and digits and starts with no digit |
| `Environment.ParsedKeysAreValid` | examples/nethttp/env.go:53-60 | every key of a successful parse is valid |
| `Environment.ParseOfRender` | examples/nethttp/env.go:40-107 | the lines KEY='value' of valid keys and newline-free values parse to the last value of each key, and fail if and only if a line is longer than the scanner takes |
| `Environment.LastWinsMeans` | examples/nethttp/env.go:60 | the parsed map has the last value of each key and no other keys |
| `EnvironmentFiles.ParseOfFile` | examples/nethttp/env.go:40-87 | any file of blank lines, comments and declarations, with white space around key, value and equals sign and with or without "export", parses to the last value of each key and nothing else, and fails if and only if a line has 65536 bytes or more |
| `EnvironmentFiles.DeclaredLine` | examples/nethttp/env.go:44-86 | a declaration assigns its value as written if no quote starts it, without its quotes if they are single, as strconv.Unquote reads it if they are double; a broken quotation is a bad value |
| `EnvironmentFiles.FinalNewline` | examples/nethttp/env.go:43 | a missing newline at the end of the file makes no difference |
| `EnvironmentFiles.FailsAtLine` | examples/nethttp/env.go:53-56 | after any lines in order, a line that is no declaration fails the file with its own number |
| `EnvironmentFiles.FailsAtValue` | examples/nethttp/env.go:57-60 | a declaration with broken quotes fails the file with its own number and key |
| `EnvironmentFiles.NoEqualsSign` | examples/nethttp/env.go:52-56 | a line without an equals sign that is neither blank nor a comment is no declaration |
| `EnvironmentFiles.InvalidKey` | examples/nethttp/env.go:49-56 | nor is one whose text before the first equals sign is no valid key when trimmed |
| `EnvironmentFiles.InvalidExportedKey` | examples/nethttp/env.go:49-56 | nor one whose text between "export " and the first equals sign is none |
| `EnvironmentFiles.UnexportedExport` | examples/nethttp/env.go:49-56 | so a variable named export is refused when a space comes before its equals sign |
| `GitLab.ParsedURL.Normalize` | providers/gitlab/gitlab.go:87-100 | accepted if and only if the scheme is https, there is a host, there are no user, opaque part, query or fragment, and every segment is good; then both path fields are trimmed and no other field changes |
| `GitLab.DecodingCommutesWithTrimming` | providers/gitlab/gitlab.go:98-99 | percent-decoding commutes with trimming trailing slashes if and only if the trimmed text does not end in an encoded slash |
| `GitLab.AcceptedRawPathStaysInStep` | providers/gitlab/gitlab.go:91-99 | if the segment check read RawPath and accepted it, the trimmed RawPath decodes to the trimmed Path |
| `GitLab.TrimmingIsPrinted` | providers/gitlab/gitlab.go:91-100 | for every accepted path, printing the trimmed fields gives the printed path trimmed |
| `GitLab.NormalizedIsFixed` | providers/gitlab/gitlab.go:82-101 | a normalized path is parsed, accepted and printed unchanged by normalizing again |
| `GitLab.IgnoredRawPathIsUnchecked` | providers/gitlab/gitlab.go:91-96 | when net/url ignores RawPath, the segment check accepts exactly by the decoded path's segments, in which an encoded slash separates |
| `GitLab.UncheckedRawPath` | providers/gitlab/gitlab.go:91-99 | such an accepted path, for every byte the URL parser passes on that should have been escaped: its trimmed RawPath does not decode to its trimmed Path |
| `GitLab.EncodedByteByName` | providers/gitlab/gitlab.go:91 | which bytes of a path stand for themselves when it is printed, and how all others are written |
| `GitLab.DecodedFails` | providers/gitlab/gitlab.go:92 | a segment does not decode if and only if two hexadecimal digits do not follow some percent sign |
| `GitLabEndpoints.EndpointReadsBack` | providers/gitlab/gitlab.go:62-80 | the segments of a joined path are the nonempty base segments in order, then the suffix's: dot-segment removal pops nothing |
| `GitLabEndpoints.EndpointsOfBase` | providers/gitlab/gitlab.go:67-75 | the same for the three endpoint suffixes |
| `GitLabEndpoints.SuffixText` | providers/gitlab/gitlab.go:67-75 | the suffixes are the texts the source joins |

## Left out

- Network input and output: sockets, TLS, redirects, request headers and the HTTP client; a response is a status, a declared length and a chunked body.
- golang.org/x/oauth2: the token exchange and refresh are oracles that answer with a token or an error; AuthCodeURL is modelled by the keys it sets and how it appends them.
- SHA-256: the S256 transformation is a parameter.
- encoding/json: whether a document decodes, and to what, is a parameter, for raw JSON too, as is what a raw scope value decodes to.
- strconv.Unquote: a parameter of the .env parser.
- net/url beyond paths and queries: scheme, user information, host and fragment of a base URL are fields the parser has filled in; the authorization URL is kept as its raw query.
- The remaining checks of New: the shapes of the HTTP and redirect URLs, the sensitive endpoint parameters and the choice between loader and mapper are conditions on single strings or options.
- Text.TrimSpace: recognises the white space of Unicode in valid UTF-8; how Go reads malformed UTF-8 at the ends of a string is not modelled.
- AuthorizationQuery.ToLower: models the letters whose lower case is ASCII, which is all that comparing with the protected keys needs.
- Times: integers of nanoseconds, without the saturation of time.Time and the monotonic clock reading.
- Nil maps: read as empty ones in the registry and in url.Values; Cloning tells them apart.
- Cloning: a slice is a whole array, so capacity beyond the length and slices of one array that overlap are not modelled; the string fields of a token or a user are one list.
- Metadata of a token: only in Cloning, since the OAuth provider never sets it.
- Reflection: a nil provider behind an interface is an option value.
- HTML pages, cookie attributes, security headers, logging, the index page and the redacted String, GoString and Format methods: presentation.
- The Google, Discord and GitLab user mappings and the provider constructors: copies of fields.
- Environment variables, signals and shutdown of the example: operating system.
- Timing of the constant-time comparison: modelled as equality.
- Deadlock freedom and data races: the locks are taken as given; a locked section is one step.
- A nil *categoryError stored in an error: ErrorCodeOf dereferences it when it is the first category of a chain without a package error.
- Random sources that are not safe for concurrent use: shared by several providers, their reads would race; a Read is taken to be one step.
- Foreign errors: what their Is, As and Unwrap methods answer is data of the error; methods that answer differently from call to call are not modelled.
- GitLabEndpoints.EndpointKeepsBase: states the joined path as text; that url.JoinPath parses it again is covered by EndpointReadsBack, which shows that it is printed as joined.
