# Web Bot Auth: a verified model

The repository verifies HTTP requests that automated agents sign under the Web Bot Auth profile. An
Envoy module parses the signature fields, asks a resolver process for the agent's key, checks the
signature and admits or refuses the request. The resolver fetches key directories, key sets and
client metadata documents over HTTPS, caches them, and protects itself with permits, circuits and
admission limits.

This project models the logic of three components and proves what holds of them for all inputs, all
runs or all interleavings:

1. **Identifiers** (`PercentEncoding`, `DotSegments`, `NormalPath`, `Discovery`). The two in-place
   string loops refine a token specification and a segment-stack specification. Percent
   normalisation is a canonical form that keeps the decoded bytes. Two URLs have one identifier
   exactly when the same segments survive. Idempotence holds exactly when no literal `%` captures
   digits, so on every well-formed path; a counterexample shows the rest.
2. **The resolver** (`Fetch`, `Resource`, `Representations`, `Circuits`, `Origins`, `Controls`,
   `Loads`, `LoadLaws`, `Loader`, `SequentialLoads`, `Machine`, `MachineSafety`, `MachineLoads`,
   `MachinePacing`, `MachineReads`, `MachineBackoff`, `Interleavings`). The stateful classes `WorkControls`,
   `CacheStore` and `ResourceLoader` refine functions on the entry of one key, for loads that end
   (`LoadOnce`) and for loads that the resolution timeout cuts off at any point (`CutEntry`);
   `LoadLaws` says what these answer and leave in terms of what is stored and of error kinds.
   `SequentialLoads` is about all runs of such loads, with the stores' expiry. `Machine` is a state
   machine over every interleaving of requests, refreshes, cancellations, store losses and clock
   ticks; one inductive invariant gives the safety theorems, and every load of the sequential model,
   cut off or not, is a run of it. That the circuit keeps the failures of a
   streak apart holds in every interleaving. That loads read monotonically holds when requests for
   the key do not overlap. That a fetch also waits for the backoff needs, beyond that, that no
   outcome is lost and that no load is cut off between counting a failure and storing its outcome;
   `SequentialLoads.EarlyFetchIff` is the exact condition, and `Interleavings` has a run for each of
   the two ways in which concurrency and timeouts break it.
3. **The module** (`Wire`, `Policy`, `Fields`, `Request`, `Candidate`, `Verify`, `Filter`,
   `FilterRuns`). Loops over field values refine declarative specifications; the filter is a class
   whose two callbacks refine functions on a snapshot of filter and stream; the theorems are about one
   headers callback and any callout callbacks after it.

`EndToEnd` puts module and resolver together.

Conventions: instants are natural numbers of milliseconds of one clock that does not run backwards;
wall clock readings are arbitrary integers. Strings are sequences of characters, one per byte. Foreign
libraries are records of functions passed in, so every theorem holds for every such library; the
few assumptions about them are named predicates (`Machine.Honest`, `Candidate.SignsLookedUp`,
`EndToEnd.Shared`) or types (`Fields.SfString`, the printable strings of section 3.3.3 of RFC 9651).

Verify everything with `dafny verify dfyconfig.toml`.

## Model

| member | source | states |
|---|---|---|
| `PercentEncoding.NormalizePercentEncoding` | crates/protocol/src/lib.rs:152-177 | The loop terminates and computes `PercentNormal`, for every string. |
| `PercentEncoding.NormalIsRenderedCanonical` | crates/protocol/src/lib.rs:152-177 | Normalising is tokenising, making every token canonical (unreserved escape to literal, hex in upper case) and rendering. |
| `PercentEncoding.TokensOfRender` | crates/protocol/src/lib.rs:152-177 | Round trip: rendered tokens without a literal `%` tokenise back to themselves. |
| `PercentEncoding.PercentNormalIsCanonical` | crates/protocol/src/lib.rs:152-177 | For well-formed strings the normal forms are equal exactly when the canonical token sequences are (sections 6.2.2.1 and 6.2.2.2 of RFC 3986). |
| `PercentEncoding.PercentNormalKeepsMeaning` | crates/protocol/src/lib.rs:152-177 | On well-formed strings percent-decoding the normal form gives the bytes that decoding the input gives. |
| `PercentEncoding.EscapesExact` | crates/protocol/src/lib.rs:159-171 | In a well-formed string the normal form writes a byte as an escape exactly when the input did and the byte is no ASCII letter, digit, `-`, `.`, `_` or `~`. |
| `PercentEncoding.PlainIsResolved` | crates/protocol/src/lib.rs:159-171 | A string whose decoded bytes are all of those is normalised to exactly these bytes. |
| `PercentEncoding.HexDigitsExact` | crates/protocol/src/lib.rs:218-232 | A digit's value is its place among the sixteen, and it is written back in upper case. |
| `PercentEncoding.FixedPoint` | crates/protocol/src/lib.rs:152-177 | A string is its own normal form exactly when all its triplets are canonical. |
| `PercentEncoding.PercentNormalIdempotentIff` | crates/protocol/src/lib.rs:152-177 | A second pass changes nothing exactly when no literal `%` of the input captures two digits of a triplet that needs normalising. |
| `PercentEncoding.PercentNormalIdempotent` | crates/protocol/src/lib.rs:152-177 | The pass is idempotent on every string whose `%` signs all start triplets. |
| `PercentEncoding.PercentNormalNotIdempotent` | crates/protocol/src/lib.rs:152-177 | The string `%%34%31` becomes `%41`, which a second pass changes. |
| `PercentEncoding.HexValue` | crates/protocol/src/lib.rs:218-225 | Exactly the hexadecimal digits of either case have a value, and it is below 16. |
| `DotSegments.RemoveLastPathSegment` | crates/protocol/src/lib.rs:210-216 | Cutting the output text before its last slash, or emptying it, gives the text of the segment stack without its last segment. |
| `DotSegments.RemoveDotSegments` | crates/protocol/src/lib.rs:179-208 | The loop over the rewritten input terminates and computes, for every path, the specification: segments folded over a stack, where `.` skips, `..` pops and a trailing dot segment leaves an empty one (section 5.2.4 of RFC 3986). |
| `DotSegments.DotSegmentsRemoved` | crates/protocol/src/lib.rs:179-208 | For every absolute path the result is absolute, no longer, without dot segments, and unchanged exactly when there was none. |
| `DotSegments.RemoveDotsIdempotent` | crates/protocol/src/lib.rs:179-208 | Removing dot segments from an absolute path is idempotent. |
| `DotSegments.SegmentsOfSlashed` | crates/protocol/src/lib.rs:179-208 | Round trip: joining segments with slashes and splitting gives the segments. |
| `NormalPath.NormalizePath` | crates/protocol/src/lib.rs:148-150 | The composition of both loops computes `NormalForm`. |
| `NormalPath.SegmentsOfPercentNormal` | crates/protocol/src/lib.rs:148-177 | The percent pass works segment by segment: it neither makes nor removes a slash, and no triplet reaches over one. |
| `NormalPath.NormalFormSegments` | crates/protocol/src/lib.rs:148-216 | The normal form of an absolute path is its surviving segments, joined; it is absolute, no longer and without dot segments. |
| `NormalPath.SameNormalForm` | crates/protocol/src/lib.rs:148-216 | Two absolute paths have one normal form exactly when the same normalised segments survive. |
| `NormalPath.DotsByBytes` | crates/protocol/src/lib.rs:148-208 | A well-formed segment acts as `.` or `..` exactly when it decodes to the bytes 46 or 46 46. |
| `NormalPath.SurvivorsByBytes` | crates/protocol/src/lib.rs:148-216 | The normal form of a well-formed absolute path is what is left when segments that decode to dots skip and pop. |
| `NormalPath.NormalFormIdempotentIff` | crates/protocol/src/lib.rs:148-216 | Normalising twice equals normalising once exactly when no literal `%` in a surviving segment captures digits. |
| `NormalPath.NormalFormIdempotent` | crates/protocol/src/lib.rs:148-216 | Idempotence on every absolute path whose `%` signs all start triplets. |
| `NormalPath.NormalFormNotIdempotent` | crates/protocol/src/lib.rs:148-216 | The path `/%%34%31` becomes `/%41`, which a second normalisation changes. |
| `Discovery.FetchOf` | crates/protocol/src/lib.rs:113-138 | An accepted agent URL is at most 2048 bytes and is fetched without fragment; for directory discovery the fetched URL is always a directory URL. |
| `Discovery.FetchIff` | crates/protocol/src/lib.rs:113-137 | A URL is accepted exactly under the conditions on length, scheme, host, user information and origin, and is fetched unchanged but for fragment and well-known path. |
| `Discovery.TargetIff` | crates/protocol/src/lib.rs:113-146 | The identifier is the fetched URL without query and fragment, its path in normal form. |
| `Discovery.ParseDiscoveryTarget` | crates/protocol/src/lib.rs:113-146 | The URL is updated step by step into the fetch URL and identifier that `TargetOf` gives, or is refused with the same error. |
| `Discovery.IdentifierIdempotent` | crates/protocol/src/lib.rs:137-146 | The identifier of an identifier URL is that URL, for well-formed absolute paths. |
| `Discovery.SameIdentifierUrl` | crates/protocol/src/lib.rs:137-146 | Two URLs have one identifier URL exactly when they agree in everything but query and fragment, up to the segments that survive. |
| `Resource.CollectKeys` | crates/resolver/src/resource.rs:91-121 | Succeeds exactly when every Ed25519 entry is usable and, in a directory, has no `kid` or its thumbprint as `kid`; keeps exactly the Ed25519 keys. |
| `Resource.ParseResource` | crates/resolver/src/resource.rs:51-89 | Every resource parsed for a key fits it: the kind matches, keys are valid, directory entries keep the `kid` rule, and metadata has exactly one of inline keys and key set URL, without fragment. |
| `Resource.ParseJwksIff` | crates/resolver/src/resource.rs:51-61 | A key set parses exactly when it is a bounded set whose Ed25519 keys are usable, by the directory rule where that applies; it gives those keys in order. |
| `Resource.ParseCimdIff` | crates/resolver/src/resource.rs:62-89 | A metadata document parses exactly when its `client_id` is the URL fetched and it has either usable inline keys or a bounded key set URL; it gives those. |
| `Resource.SelectKeyInDirectory` | crates/resolver/src/service.rs:175-180 | In a directory a key is selected exactly when some entry has the requested thumbprint, and the key has it. |
| `Resource.SelectKeyIff` | crates/resolver/src/service.rs:175-180 | In any key set the selected key has the thumbprint exactly when some entry has it and the first entry that claims the identifier as `kid`, if any, has it. |
| `Resource.SelectFirst` | crates/resolver/src/service.rs:175-180 | The first entry with the identifier as `kid` is selected, and without one the first with it as thumbprint. |
| `Resource.KidHidesThumbprint` | crates/resolver/src/service.rs:175-180 | Outside directories a foreign `kid` can hide the key with the requested thumbprint, for any two keys of different thumbprints. |
| `Representations.DefaultFreshnessKeepsWindow` | crates/resolver/src/cache.rs:234-289 | The default of 300 seconds freshness never changes the stale window read from the headers. |
| `Representations.DefaultFreshnessIff` | crates/resolver/src/cache.rs:234-265 | Five minutes are added exactly where no `no-store`, no readable freshness and no valid `Expires` is given. |
| `Representations.StaleWindowExact` | crates/resolver/src/cache.rs:267-289 | Without `must-revalidate` the first readable `stale-if-error` gives the window, at most a day. |
| `Representations.BuiltIff` | crates/resolver/src/cache.rs:155-211 | When a response gives a representation, and whose resource it has. |
| `Representations.FromResponse` | crates/resolver/src/cache.rs:155-211 | A built representation fits its key and has windows of at most a day if the previous one did, through full and 304 responses. |
| `Representations.ChainServing` | crates/resolver/src/cache.rs:36-57 | After any chain the last response's own policy decides freshness, under a day of age, and the representation may be served stale exactly until that policy's time to live, at most a day, and the latest window are over. |
| `Representations.ChainWindow` | crates/resolver/src/cache.rs:163-210 | After a 200 and any chain of 304s the resource is the 200's and the stale window is the latest that any response gave, at most a day (section 4 of RFC 5861, section 4.3.4 of RFC 9111). |
| `Representations.NeverStaleIff` | crates/resolver/src/cache.rs:50-57 | A representation can never be served stale exactly when no response of its chain gave a window. |
| `Representations.MustRevalidateKeepsEarlierWindow` | crates/resolver/src/cache.rs:173-174 | A 304 with `must-revalidate` keeps an earlier stale window open, against docs/architecture.md line 97. |
| `Circuits.StreakState` | crates/resolver/src/controls.rs:206-235 | Over every failure history the failure count, the open count (failures beyond the second) and the open period are as the history says, under 32-bit saturation. |
| `Circuits.Backoff` | crates/resolver/src/controls.rs:213-222 | Every backoff is at least the exponential one, at least 5 s and at most 300 s, whatever the server's hint. |
| `Circuits.BackoffExact` | crates/resolver/src/controls.rs:213-222 | The backoff is 5, 10, 20, 40, 80, 160, then 300 s, or for every failure the server's hint, up to 300 s, where that is longer. |
| `Circuits.CircuitGapExact` | crates/resolver/src/controls.rs:223-231 | The open period is none for two failures, then 30, 60, 120, 240, then 300 s. |
| `Circuits.OpenFor` | crates/resolver/src/controls.rs:223-229 | Every open period lies between 30 s and 300 s. |
| `Circuits.StreakDuration` | crates/resolver/src/controls.rs:206-235 | Failures spaced by backoff and open period: the (7+j)-th comes at least 465+300j seconds after the first. |
| `Circuits.CircuitDuration` | crates/resolver/src/controls.rs:223-229 | Failures spaced by the open period alone: the (7+j)-th comes at least 450+300j seconds after the first. |
| `Circuits.BackoffOutlastsCircuit` | crates/resolver/src/controls.rs:213-229 | The backoff is longer than the open period exactly for the first two failures of a streak and for longer server hints. |
| `Origins.SeenBounded` | crates/resolver/src/controls.rs:256-269 | The new-origin map never exceeds the smaller of the two limits, in whatever order the clock was read. |
| `Origins.AdmitsIff` | crates/resolver/src/controls.rs:256-269 | An origin is admitted exactly when it was seen in the last minute or fewer origins than both limits were. |
| `Origins.AdmittedPerMinute` | crates/resolver/src/controls.rs:256-269 | While no reading forgets what it should not, every rolling minute admits at most that many distinct origins. |
| `Origins.LockOrderNeverForgets` | crates/resolver/src/controls.rs:256-269 | Clock readings in lock order never forget. |
| `Origins.ForgettingBreaksBound` | crates/resolver/src/controls.rs:256-269 | Whenever readings forget, two origins asked for at these very readings exceed a bound of one. |
| `Origins.BoundIff` | crates/resolver/src/controls.rs:256-269 | For given readings the per-minute bound holds for all origins and all limits if and only if the readings never forget. |
| `Origins.OutOfOrderBreaksBound` | crates/resolver/src/controls.rs:256-269 | The readings 0, 60000, 59999, the last taken before the lock and used after it, break the bound. |
| `Controls.WorkControls.CheckCircuit` | crates/resolver/src/controls.rs:188-195 | Refuses exactly when the circuit, expiry considered, is open, and marks it as used. |
| `Controls.WorkControls.Success` | crates/resolver/src/controls.rs:197-204 | Resets the circuit and reports a transition exactly when there was something to reset. |
| `Controls.WorkControls.FailureBackoff` | crates/resolver/src/controls.rs:206-235 | Updates the circuit's fields to `AfterFailure` and gives its backoff; opens from the third failure on. |
| `Controls.WorkControls.CircuitRemaining` | crates/resolver/src/controls.rs:237-244 | Gives what is left of the open period, or 50 ms. |
| `Controls.WorkControls.BeginFetch` | crates/resolver/src/controls.rs:246-283 | Takes one permit exactly when it succeeds; every refusal gives it back; the new-origin map changes as `AfterAsk` says and only past the global limiter. |
| `Loader.CacheStore.Publish` | crates/resolver/src/cache.rs:144-152 | A storable representation replaces the key's entry whole, any other removes it; other keys are untouched. |
| `Loader.ResourceLoader.RefreshInner` | crates/resolver/src/loader.rs:94-154 | Gives `RefreshResult`, publishes successes only, and every path returns its permit. |
| `Loader.ResourceLoader.Refresh` | crates/resolver/src/loader.rs:51-92 | Result, circuit and validity are those of `Concluded`. |
| `Loader.ResourceLoader.Load` | crates/resolver/src/cache.rs:85-119 | A load that runs alone refines `LoadOnce` on its key's entry, leaves all other keys as they were and holds no permit at the end. |
| `Loader.ResourceLoader.CutOffLoad` | crates/resolver/src/service.rs:68-73 | A load that the resolution timeout drops leaves `CutEntry` for its key, all other keys as they were, and no permit taken. |
| `Fetch.ClassesExact` | crates/resolver/src/fetch.rs:83-112 | The failure classes by error kind and status, and which errors allow a stale answer. |
| `LoadLaws.FreshIsAnswered` | crates/resolver/src/cache.rs:92-100 | A stored representation that is fresh and under a day old is answered without a refresh and without any change. |
| `LoadLaws.RefreshedIff` | crates/resolver/src/cache.rs:92-118 | A load refreshes exactly when nothing fresh is stored and no outcome, kept for 300 s, holds. |
| `LoadLaws.FallbackIff` | crates/resolver/src/cache.rs:121-142 | After a passing failure or an open circuit the stored representation is answered if and only if its stale window is open; successes and other errors are answered as they are. |
| `LoadLaws.ErrorMeansNothingStale` | crates/resolver/src/cache.rs:121-142 | A load ends in a passing failure or an open circuit only where nothing stored could be answered stale. |
| `LoadLaws.RefreshExact` | crates/resolver/src/loader.rs:94-154 | A circuit open and used in the last 600 s fails the refresh at once; otherwise its attempt decides. |
| `LoadLaws.SettledExact` | crates/resolver/src/loader.rs:58-91 | Successes close the circuit and change the stored representation, passing failures count one more and open it from the third on, nothing else touches either. |
| `LoadLaws.ValidityExact` | crates/resolver/src/loader.rs:58-91 | Outcomes hold 50 ms after a stored success, not at all after an unstorable one, for backoff or longer hint after a passing failure, and 50 ms after other errors. |
| `LoadLaws.OpenOutcomeHolds` | crates/resolver/src/controls.rs:237-244 | Where the circuit was open the outcome holds for the rest of the open period. |
| `LoadLaws.ClosedOutcomeIsShort` | crates/resolver/src/controls.rs:237-244 | Where the circuit is no longer open by then, the outcome holds for 50 ms. |
| `SequentialLoads.NoFetchInOpenPeriod` | crates/resolver/src/controls.rs:188-235 | In every run of one-at-a-time loads, cut off anywhere or not, whatever the stores lose, no fetch starts in the open period of the streak's last failure. |
| `SequentialLoads.StreaksAreSlow` | crates/resolver/src/controls.rs:206-235 | In every such run the (7+j)-th transient failure of a streak comes at least 450+300j seconds after the first. |
| `SequentialLoads.ExpiryKeepsDecisions` | crates/resolver/src/cache.rs:74-83 | In every such run the 300 s refresh life time never drops a valid outcome and the 600 s idle expiry never drops an open circuit. |
| `SequentialLoads.RunIsPaced` | crates/resolver/src/loader.rs:51-99 | The pacing invariant holds after every such run that loses no outcome and cuts no load off between counting a transient failure and storing its outcome. |
| `SequentialLoads.NoEarlyFetch` | crates/resolver/src/controls.rs:188-244 | In every run of that kind no fetch starts before the exponential backoff, the server's hint up to 300 s, and the open period of the streak's last failure have passed. |
| `SequentialLoads.PacedStreaksAreSlow` | crates/resolver/src/cache.rs:102-118 | In every run of that kind the (7+j)-th transient failure of a streak comes at least 465+300j seconds after the first. |
| `SequentialLoads.EarlyFetchIff` | crates/resolver/src/loader.rs:51-92 | After any run at all, a load that fetches inside the last failure's gap can follow if and only if the backoff is neither over nor held by an outcome, and the failure is one of the first two or came with a hint longer than the open period. |
| `SequentialLoads.CutLeavesUnheld` | crates/resolver/src/service.rs:68-73 | A load cut off between counting a transient failure and storing its outcome always leaves the backoff unheld. |
| `SequentialLoads.AnswersAreLatest` | crates/resolver/src/cache.rs:85-153 | In every run of one-at-a-time loads, cut off anywhere or not, whatever the stores lose, an answer is the last representation published, and without a refresh of its own only if storable. |
| `SequentialLoads.ReadsAreMonotonic` | crates/resolver/src/cache.rs:85-153 | In every such run the refresh number of answers never decreases, and equal numbers mean the same representation. |
| `SequentialLoads.UnstorableEndsReads` | crates/resolver/src/loader.rs:66-70 | Once a success that must not be stored was published, by a load that ended or was cut off, no later load answers with it or anything before it. |
| `MachineSafety.AlwaysInv` | crates/resolver/src/service.rs:68-158 | The invariant (sound data, numbering, leaders, permits, circuits, routing, justified answers) holds after every sequence of steps. |
| `MachineSafety.PermitsAlwaysConserved` | crates/resolver/src/controls.rs:246-283 | In every interleaving free outbound permits plus those of refreshes in flight make the limit, every refresh in flight has a live leader that waits for it, and handler permits are conserved. |
| `MachineSafety.NoFetchWhileOpen` | crates/resolver/src/loader.rs:94-137 | In every interleaving no refresh past its circuit check, fetching or about to, has an open circuit. |
| `MachineSafety.StoredAlwaysFits` | crates/resolver/src/cache.rs:144-211 | In every reachable state each stored representation is storable, fits its key's kind and rules, and has bounded windows. |
| `MachineSafety.ServedAlwaysJustified` | crates/resolver/src/cache.rs:93-142 | In every interleaving an answer is fresh and under 24 h old, or is the result of the completed refresh consulted, or that very refresh failed as Transient or CircuitOpen and the stale window, at most 48 h, is open. |
| `MachineSafety.NeverMismatched` | crates/resolver/src/service.rs:102-157 | The kind-mismatch and missing-URI branches are never taken. |
| `MachineSafety.AnswersAlwaysCorrect` | crates/resolver/src/service.rs:81-100 | Every positive answer names the identifier of its request; for directory discovery a resolved key has the requested thumbprint. |
| `MachineSafety.DirectoryAnswersExact` | crates/resolver/src/service.rs:81-116 | In every interleaving a directory request that ends with a resource is answered with a key exactly when some entry has the thumbprint. |
| `MachineSafety.HonestTarget` | crates/resolver/src/service.rs:161-173 | A request that passes validation has a target, and for directory discovery it is a directory URL. |
| `MachineSafety.ValidIff` | crates/resolver/src/service.rs:161-173 | A request is valid exactly when its key id has 1 to 512 bytes and its URL is accepted. |
| `MachineSafety.AtOnceExact` | crates/resolver/src/service.rs:68-88 | Which requests are answered without a load, and how. |
| `MachineSafety.AcceptExact` | crates/resolver/src/service.rs:102-133 | Every other request loads a metadata document for CIMD discovery and a key set otherwise, at its fetch URL. |
| `MachineSafety.ConcludeExact` | crates/resolver/src/service.rs:89-157 | A load is followed by an answer from the keys of its resource, or by a load of the key set that it names. |
| `MachineSafety.FailureExact` | crates/resolver/src/service.rs:68-100 | A failed load ends its request with its error, a request cut off ends in a timeout. |
| `MachineLoads.MachineRunsLoadOnce` | crates/resolver/src/cache.rs:85-119 | From every state in which a load begins alone, for every visit, the machine has a run that ends with the answer and the entry of `LoadOnce`. |
| `MachineLoads.MachineRunsCutOff` | crates/resolver/src/service.rs:68-73 | The same for a load cancelled after any of its effects: it leaves `CutEntry` and gives back what it held. |
| `MachineLoads.LookUpExact` | crates/resolver/src/cache.rs:92-100 | A load that begins answers what is stored and fresh, or remembers exactly what is stored. |
| `MachineLoads.LoadsEndInErrorOnlyWithoutStale` | crates/resolver/src/cache.rs:121-142 | In every interleaving a load keeps what it found, and ends in a passing failure or an open circuit only where that could not be answered stale. |
| `MachinePacing.FetchesAfterOpenPeriod` | crates/resolver/src/controls.rs:188-235 | In every interleaving, with any cancellations and losses, a refresh past its circuit check runs only after the open period of the key's last counted failure. |
| `MachinePacing.StreaksAlwaysSlow` | crates/resolver/src/controls.rs:206-235 | In every interleaving the (7+j)-th transient failure of a streak is counted at least 450+300j seconds after the first. |
| `MachineReads.LoadsReadMonotonically` | crates/resolver/src/cache.rs:85-153 | In every run in which requests for a key do not overlap, whatever is interleaved on other keys, cancelled or lost, its loads answer in the order of refreshes and never ahead of the last published. |
| `MachineBackoff.FetchesAfterGap` | crates/resolver/src/loader.rs:51-99 | In every such run that forgets no backoff, a refresh past its circuit check runs only after the exponential backoff, the hint up to 300 s and the open period of the last counted failure. |
| `MachineBackoff.KeptStreaksAreSlow` | crates/resolver/src/controls.rs:206-235 | In every run of that kind the (7+j)-th failure is counted at least 465+300j seconds after the first. |
| `Interleavings.BackoffNeedsSequence` | crates/resolver/src/cache.rs:102-118 | For every loadable request and transient error, three handlers suffice for a run without losses or cancellations in which a load removes a newer outcome and a fetch starts inside its backoff. |
| `Interleavings.BackoffNeedsStoring` | crates/resolver/src/service.rs:68-73 | With a single handler and no loss, for every loadable request and transient error, a run counts a failure, is cut off before storing its outcome, and fetches again at the same instant. |
| `Wire.RequestRoundTrip` | crates/protocol/src/lib.rs:28-36 | Decoding the encoded request gives the request, whatever its texts. |
| `Wire.RequestText` | crates/protocol/src/lib.rs:28-36 | The body of a request whose texts need no escaping, character by character. |
| `Wire.RequestFits` | crates/protocol/src/lib.rs:9-36 | A request with printable texts within the profile's limits encodes to less than 8 KiB. |
| `Policy.AdmissionOf` | crates/module/src/policy.rs:140-180 | What each mode admits; only an unsigned request is challenged; 400, 403 and 503 tell malformed, refused and unavailable apart. |
| `Fields.GetInsertAll` | crates/module/src/request.rs:176-187 | Inserting members in order into an insertion-ordered dictionary, the last member with a key wins. |
| `Fields.ExtendIsInsertAll` | crates/module/src/candidate.rs:341-352 | Extending by a value's parsed dictionary looks up like inserting its members one by one. |
| `Fields.CombinedExact` | crates/module/src/request.rs:176-181 | The members of a field are those of its values, one after the other. |
| `Request.SelectDictionaryMember` | crates/module/src/request.rs:176-187 | The loop gives the canonical text of the last member with the key over all values, if every value is a dictionary and that member is an item. |
| `Request.CopyAsciiHeaderValues` | crates/module/src/request.rs:201-229 | The loop computes `CopyOf`, errors included. |
| `Request.CopyRestExact` | crates/module/src/request.rs:201-229 | Copying succeeds exactly when every value is small ASCII text and field and total sizes stay in bounds; then nothing is changed and every byte counted. |
| `Request.TryFromEnvoy` | crates/module/src/request.rs:67-126 | Capture computes `Captured`, errors in order included. |
| `Request.CaptureExact` | crates/module/src/request.rs:46-126 | A captured request holds exactly the signature fields received, at most 16 KiB, and path plus query is the raw path cut before the first question mark. |
| `Request.CapturedIff` | crates/module/src/request.rs:67-126 | A request is captured exactly when its pseudo headers are ASCII and its signature fields are there within all limits. |
| `Request.SignedValues` | crates/module/src/request.rs:130-172 | The value every covered component gets, in terms of the headers received. |
| `Candidate.ProfileSignatureLabel` | crates/module/src/candidate.rs:165-188 | The nested loops compute `LabelOf`. |
| `Candidate.ProfileLabelUnique` | crates/module/src/candidate.rs:165-188 | A label is accepted only if its member is the only tagged one in all values of the field. |
| `Candidate.LabelExact` | crates/module/src/candidate.rs:165-188 | One tagged member gives its label, several the multiple-signatures error, none a malformed field. |
| `Candidate.TaggedIff` | crates/module/src/candidate.rs:172-180 | Exactly the inner lists with the tag `web-bot-auth` are profile signatures. |
| `Candidate.SignatureAgentKeyFromInput` | crates/module/src/candidate.rs:296-325 | The nested loops compute `InputAgentKey`. |
| `Candidate.SignedAgentMemberKey` | crates/module/src/candidate.rs:278-294 | A key answered is the key of a covered agent field; none answered means the whole field is covered. |
| `Candidate.AgentKeysAgree` | crates/module/src/candidate.rs:278-325 | Read from the raw list or from the parsed components, the covered agent key is the same. |
| `Candidate.FirstAgentFieldDecides` | crates/module/src/candidate.rs:278-294 | The first covered agent field decides which key is signed. |
| `Candidate.FirstListDecides` | crates/module/src/candidate.rs:296-325 | The first inner list of the label decides which key is expected. |
| `Candidate.SelectAgent` | crates/module/src/candidate.rs:336-372 | The merging loop selects the last member with the key over all values, or the legacy item. |
| `Candidate.SelectedIff` | crates/module/src/candidate.rs:336-372 | Exactly which item is selected, in dictionary and legacy form. |
| `Candidate.ValidateFreshness` | crates/module/src/candidate.rs:190-213 | With checked and saturating 64-bit arithmetic accepts exactly what the unbounded rule accepts when skew and lifetime fit a signed 64-bit value. |
| `Candidate.ValidateCoverage` | crates/module/src/candidate.rs:215-276 | The loop over flags and names decides target coverage, agent binding and required names as stated by membership. |
| `Candidate.RecordsIff` | crates/module/src/candidate.rs:226-258 | A name is recorded exactly when a component of that name is covered and, for `@scheme` and `@query`, covered by a field. |
| `Candidate.RequirementsHonouredIff` | crates/module/src/candidate.rs:268-275 | Every signature that covers the required names meets the requirement if and only if neither `@scheme` nor `@query` is required. |
| `Candidate.CoveredQueryIsRefused` | crates/module/src/candidate.rs:226-275 | A signature over `@authority`, `@query` and the agent member is refused for missing `@query` where that is required. |
| `Candidate.PairingBinds` | crates/module/src/candidate.rs:101-137 | Once the covered key matches, the agent is bound: coverage never answers that it is not. |
| `Candidate.PairedIff` | crates/module/src/candidate.rs:100-119 | Exactly when agent item and signature belong together. |
| `Candidate.Parse` | crates/module/src/candidate.rs:93-162 | The parse computes `CandidateOf`, errors in the code's order. |
| `Candidate.SelectedIsLookedUp` | crates/module/src/request.rs:153-163 | The two last-wins merges agree: the selected item's serialisation is exactly the value looked up for the covered key (section 2.1.2 of RFC 9421). |
| `Candidate.AgentIsSigned` | crates/module/src/candidate.rs:100-161 | Every accepted candidate's URL and discovery type are those of an item that its own signature covers, in both forms. |
| `Candidate.CandidateGuarantees` | crates/module/src/candidate.rs:93-162 | Every accepted candidate is fresh, covers what it must, names a key id of 1 to 512 bytes and carries the identifier of its URL. |
| `Candidate.AcceptedIff` | crates/module/src/candidate.rs:121-161 | When a request whose agent item and signature belong together is accepted. |
| `Candidate.ParseAgentIff` | crates/module/src/candidate.rs:374-391 | Which items name which URL and discovery mechanism. |
| `Candidate.StaleIsRefused` | crates/module/src/candidate.rs:121-130 | A signature that is not fresh is refused for that. |
| `Candidate.UncoveredIsRefused` | crates/module/src/candidate.rs:131-136 | A fresh signature that does not cover what it must is refused for that. |
| `Candidate.BadUrlIsRefused` | crates/module/src/candidate.rs:142-152 | An agent URL that is not acceptable is refused for that or for its length. |
| `Candidate.ErrorResultExact` | crates/module/src/candidate.rs:34-78 | Which refusals are malformed, unsupported and rejected, with distinct reasons. |
| `Verify.VerifyResolverResponse` | crates/module/src/verify.rs:33-103 | Verified exactly when the answer is resolved with the candidate's identifier, a key with its key id for thumbprint, that imports and checks; only a failed signature check makes a request invalid. |
| `Verify.JoinResponseBody` | crates/module/src/verify.rs:19-31 | Gives the chunks joined, or nothing if they exceed 8 KiB together. |
| `Verify.ResponseStatusExact` | crates/module/src/verify.rs:11-17 | The status is that of the first status header that reads as a number. |
| `Filter.ResponseIff` | crates/module/src/filter.rs:371-382 | A response is read exactly after success with status 200 and a readable body of at most 8 KiB. |
| `Filter.EarlyResult` | crates/module/src/request.rs:231-243 | A request is captured exactly when it has all three fields and no body; it counts as unsigned exactly when it has none. |
| `Filter.WebBotAuthFilter.ApplyResult` | crates/module/src/filter.rs:56-115 | Metadata, headers and local response become what the result says. |
| `Filter.WebBotAuthFilter.Finish` | crates/module/src/filter.rs:41-54 | Applies the result and continues exactly when it is admitted. |
| `Filter.WebBotAuthFilter.SanitizeAssertionHeaders` | crates/module/src/filter.rs:411-419 | The loop removes exactly the three assertion headers. |
| `Filter.WebBotAuthFilter.OnRequestHeaders` | crates/module/src/filter.rs:141-340 | The callback refines `OnHeaders` on filter and stream. |
| `Filter.WebBotAuthFilter.OnHttpCalloutDone` | crates/module/src/filter.rs:342-408 | The callback takes the pending verification and refines `OnCallout`. |
| `FilterRuns.OneResultPerStream` | crates/module/src/filter.rs:141-408 | Over a headers callback and any callouts at most one result is applied, one exactly when nothing is pending; the request is then forwarded once or answered once as the mode admits, and before that neither. |
| `FilterRuns.TrustedHeaders` | crates/module/src/filter.rs:84-91 | Identity headers and metadata are present exactly after Verified and with its identity, the status header exactly after a result; every other header is the client's. |
| `FilterRuns.FirstCalloutDecides` | crates/module/src/filter.rs:342-370 | The first callout decides, a wrong number included; later ones change nothing. |
| `FilterRuns.UnsignedIff` | crates/module/src/filter.rs:159-176 | Over any callouts the applied result is that of an unsigned request exactly when the client sent none of the three fields. |
| `FilterRuns.ForwardedOnlyVerified` | crates/module/src/policy.rs:140-180 | Outside observe mode a request with any of the fields is forwarded only after Verified. |
| `FilterRuns.RefusedCandidate` | crates/module/src/filter.rs:213-240 | In every enforcing mode a refused candidate is answered 400 if it does not parse or is too large and 403 otherwise, never 503. |
| `FilterRuns.RefusedRequest` | crates/module/src/filter.rs:159-212 | Incomplete fields and failed captures are answered 400, a request with a body 403. |
| `FilterRuns.ProvenIsLetThrough` | crates/module/src/filter.rs:342-408 | A stream whose own callout proves the candidate is forwarded. |
| `FilterRuns.UnprovenIsAnswered` | crates/module/src/filter.rs:342-408 | In every enforcing mode any other stream that asked is answered 403 exactly when its own callout disproves the candidate, and 503 otherwise. |
| `EndToEnd.EmittedRequestFits` | crates/module/src/candidate.rs:138-161 | Every accepted candidate's encoded request is under 8 KiB and reads back as itself. |
| `EndToEnd.TooLargeIsDead` | crates/module/src/filter.rs:267-282 | The too-large branch is never taken. |
| `EndToEnd.AcceptedIsAsked` | crates/module/src/filter.rs:242-338 | Every accepted candidate is asked about in one body and its stream waits for exactly that callout, or is unavailable if none could be sent. |
| `EndToEnd.EmittedRequestValid` | crates/resolver/src/service.rs:161-173 | The resolver accepts every request the module sends and gives it the module's identifier. |
| `EndToEnd.VerifiedMeans` | crates/module/src/verify.rs:33-103 | Against any resolver and client a stream is verified only by its first callout, with the number of the request asked and an answer that proves the candidate parsed from this stream. |
| `EndToEnd.HonestAnswerIsFair` | crates/resolver/src/service.rs:81-100 | In every resolver run the answered identifier equals the candidate's, and for directory discovery a resolved key passes the thumbprint check. |
| `EndToEnd.DirectoryIsComplete` | crates/resolver/src/service.rs:81-116 | In every resolver run a directory candidate's key is reported unknown exactly when no entry loaded has its thumbprint; otherwise only key and signature decide. |
| `EndToEnd.HonestStream` | crates/module/src/filter.rs:242-408 | From headers over request body, resolver run and callout to the one result applied, which is the fair one. |

## Where code and documentation differ

- docs/architecture.md line 97 says that `must-revalidate` disables the stale fallback. In the code a
  304 that says so still inherits an earlier response's window; the model follows the code.
- The configuration admits `@scheme` and `@query` as required components, but coverage records
  neither: a signature that covers them is refused where they are required (`RecordsIff`,
  `RequirementsHonouredIff`, `CoveredQueryIsRefused`); the model follows the code.

## Left out

- Foreign libraries: signature verification, SHA-256, base64, structured field parsing, JSON reading, URL parsing and HTTP cache semantics are functions passed in; a parsed URL is a record and setting its path is a record update, without the URL library's re-encoding.
- The rate limiters' algorithm: each check is an arbitrary answer (`Controls.Gates`, the machine's `Deny` step).
- Destination policy, DNS and address checks, TLS and body streaming: an arbitrary error or response of the attempt.
- The resolver's HTTP server, binaries, listeners, metrics, durations and logging, and the module's counters.
- Range checks of settings and limits (`Limits::validate`, `Settings::parse`).
- The new-origin map in the interleaving machine: it is modelled in `Origins` and `Controls`, and the machine takes its refusals as arbitrary.
- Store capacity and expiry in the interleaving machine: entries may be lost at any step, and a lost circuit starts a new streak; the life times themselves are in `Loads`.
- Waiters of a refresh whose leader is cancelled: one of them starts a new refresh, as the cache library promises; which one is arbitrary.
- Wire.RequestRoundTrip: the reader is the model's own; it takes string members in any order, no white space and no escapes beyond `\u00XX`. The resolver's JSON decoder is foreign and not constrained.
- Failure to serialise a request: encoding is total in the model, so the reason for it does not occur.
- Reasons and response headers are values, not their texts; a challenge is a flag of the local response.
- The refresh number of a representation is a field of the model that the code does not have.
