# A verified model of tr1d1um's stateful and parsing logic

tr1d1um is an HTTP front end for XMiDT. This project models the parts of it that hold state
or decide over whole inputs, and proves what they promise.

| file | what it models |
|---|---|
| TokenMachine.dfy | `JwtAcquirer.Acquire` run by any number of callers at once: the lock, the clock and both fields, one step per access, and the sequential register it should look like, in which a call may only miss on a stale cache |
| TokenInvariant.dfy | what every step of that machine keeps |
| TokenTheorems.dfy | linearizability, no needless fetch, no torn pair, freshness, monotone expiry, progress |
| TokenRate.dfy, TokenAttained.dfy | how often the cache can be filled, and that it can be filled that often |
| TokenOrder.dfy, TokenOverlap.dfy | what the cache does not promise, "the newest token wins" and "one fetch at a time", and exactly when they hold all the same |
| TokenSchedules.dfy | schedules of the machine built by hand |
| TokenAcquirer.dfy | the acquirer as a class, and why an undisturbed call of the machine is a call of the class |
| Wdmp.dfy, WdmpTheorems.dfy | SET messages: decoding, classification, validation, encoding, round trip |
| SetRequest.dfy | a PATCH body read by the logger and then by the payload |
| Text.dfy, PartnerIds.dfy, GetRequest.dfy | splitting, joining and trimming; partner-ID lines; GET names |
| Clock.dfy | time, shared by the modules that measure it |
| Headers.dfy, HeaderHops.dfy | header forwarding over maps iterated in any order, and both hops of a response |
| TtlRepair.dfy | the repair of version 2 webhook durations |

Times are integers, in nanoseconds since the zero time. Clock readings, the token endpoint,
the JSON parser and the two webhook validators are parameters. The product at
transaction/auth_acquirer.go:114 wraps around at 64 bits as in the source, and
`LifetimeExact` says from where on that shows. The callers of `Acquire` are admitted to the
lock in any order that the lock allows, which includes every order a Go `RWMutex` chooses;
the progress results also hold when a waiting writer keeps new readers out.

## Model

| member | source | states |
|---|---|---|
| TokenInvariant.LockExcludes | transaction/auth_acquirer.go:64-70 | the lock's reader count and writer flag say exactly who stands in which section; one writer at most, never beside a reader |
| TokenInvariant.InvKept | transaction/auth_acquirer.go:63-122 | every step of any caller keeps the lock, cache, log and call invariants |
| TokenInvariant.ReachableInv | transaction/auth_acquirer.go:63-122 | the invariants hold in every reachable state, for any number of callers and calls |
| TokenTheorems.Linearizable | transaction/auth_acquirer.go:63-122 | in every interleaving the calls have the results of a legal sequential register history: a hit returns the last stored token, a successful miss its own, a failure nothing, and every miss tested a stale register within its call. Every call that has an entry, returned or not, has it within its own extent, after all calls that returned before it began, and shares it with no other call; no entry is without a call |
| TokenTheorems.NoNeedlessFetch | transaction/auth_acquirer.go:64-76 | every call that stored or failed, and every caller on its way to the endpoint or back, had tested the cache within its own call and found nothing stored, or the last store expired |
| TokenTheorems.NoTornPair | transaction/auth_acquirer.go:108-121 | while no writer holds the lock, token and expiry come from one store, the last one |
| TokenTheorems.ReaderUndisturbed | transaction/auth_acquirer.go:64-68 | between a hit's test and its read, nothing any caller does changes the pair |
| TokenTheorems.Fresh | transaction/auth_acquirer.go:66-68 | a hit at t on a token issued at i and stored at s has i + ExpiresIn - t > Buffer - (s - i); with s - i <= Buffer no hit goes past the true expiry; without ExpiresIn, t < s + Buffer |
| TokenTheorems.LifetimeExact | transaction/auth_acquirer.go:112-115 | a reply is served for Buffer without ExpiresIn, otherwise for ExpiresIn seconds less Buffer, in nanoseconds that keep their value iff ExpiresIn <= 9223372036 and are their 64-bit remainder beyond |
| TokenTheorems.LooksFurther | transaction/auth_acquirer.go:66 | a caller looks at the clock iff a token was ever stored |
| TokenTheorems.HitsExactly | transaction/auth_acquirer.go:66 | in every reachable state a call that has read the clock hits iff that reading is less than Buffer after the last store, or less than ExpiresIn seconds minus Buffer after it, in plain numbers |
| TokenTheorems.Reports | transaction/auth_acquirer.go:68-121 | every call that returns reports "Bearer " and the issued token of its own entry, or nothing after a failure |
| TokenRate.FetchRate | transaction/auth_acquirer.go:64-119 | with every stored reply worth at least L > 0, n callers store at most n * (W / L + 1) times in any window of length W |
| TokenRate.StoreHolds | transaction/auth_acquirer.go:111-119 | after a store at s every later state has expiry >= s + L, whoever overwrote it |
| TokenRate.WindowOf | transaction/auth_acquirer.go:64-119 | stores of one caller that are L apart number at most W / L + 1 in a window |
| TokenTheorems.ExpiryMonotone | transaction/auth_acquirer.go:111-119 | with one lifetime for all replies the expiry never moves back |
| TokenTheorems.TokenIssued | transaction/auth_acquirer.go:103-111 | the cached token is always one the endpoint issued |
| TokenTheorems.TokenStays | transaction/auth_acquirer.go:103-111 | once non-empty the token stays non-empty |
| TokenTheorems.LockDiscipline | transaction/auth_acquirer.go:64-121 | on every exit path a caller leaves holding nothing; with all callers out the lock is free |
| TokenTheorems.NoDeadlock | transaction/auth_acquirer.go:64-121 | while a call is pending some caller can move, provided fetches end |
| TokenTheorems.BoundedCalls | transaction/auth_acquirer.go:63-122 | from any state a caller takes at most the Rank of its place, 13 from the beginning of a call, more steps until it begins another call, whatever the others and the clock do |
| TokenTheorems.Terminates | transaction/auth_acquirer.go:63-122 | however fetches end and time passes, a schedule without new calls holds at most Work caller steps, and where no caller can move all calls have returned and the lock is free |
| TokenAttained.RateAttained | transaction/auth_acquirer.go:64-119 | FetchRate is sharp: for every reply of positive lifetime L, every n, every window start and length W there is a run of n callers whose replies grant L with exactly n * (W / L + 1) stores in the window |
| TokenOrder.SecureIffCalm | transaction/auth_acquirer.go:107-119 | there is no re-check under the write lock, so "the newest token wins" can fail: from a state it is certain for all replies under way iff no store was out of order yet, no reply under way is older than a stored one, and none that still waits for the lock is older than another one under way |
| TokenOrder.SecureRuns | transaction/auth_acquirer.go:76-119 | it is certain all through a run iff at each issue no other caller still waits with a usable reply issued earlier |
| TokenOrder.NewestWins | transaction/auth_acquirer.go:76-119 | in such a run all stores are in the order of issue |
| TokenOrder.NewestWinsAlone | transaction/auth_acquirer.go:76-119 | n callers always store in the order of issue iff n <= 1 |
| TokenOrder.OlderByDelay | transaction/auth_acquirer.go:76-119 | in every run a store puts back a token older than an earlier-stored one by no more than its own delay between issue and store |
| TokenOverlap.SecondRefresh | transaction/auth_acquirer.go:64-119 | a refresh after a store, or under way beside it, was sent off by a test made before that store or at or after its expiry; for a positive lifetime the former iff the test's time is before the expiry |
| TokenOverlap.LaterRefresh | transaction/auth_acquirer.go:64-119 | the same for any earlier store and any L > 0 that all stored replies grant: a refresh made its test before that store iff the test's time is less than L after the store's |
| TokenOverlap.OneFetchAlone | transaction/auth_acquirer.go:64-119 | "one fetch at a time" (no store by a call that had tested the cache before another store) holds for n callers iff n <= 1 |
| TokenAcquirer.JwtAcquirer.Acquire | transaction/auth_acquirer.go:63-122 | one call, case by case and in plain terms: the cached token while valid; nothing changed on failure; otherwise the new token, its header and its expiry, Buffer after the store or ExpiresIn seconds less Buffer |
| TokenAcquirer.TwoCalls | transaction/auth_acquirer.go:63-122 | the call after a store is served with the same header, whatever the endpoint says, iff it comes within the time the token is held; otherwise the endpoint decides |
| TokenAcquirer.CallIsEntry | transaction/auth_acquirer.go:63-122 | what the class does in a call is what one allowed entry does to the register, and a call that is no hit found the register stale when it tested |
| TokenAcquirer.UndisturbedCall | transaction/auth_acquirer.go:63-122 | a call of the machine during which no other caller moves leaves the fields and returns the result of the class, for clock readings taken meanwhile |
| Wdmp.SetWDMP.DeduceSET | translation/transport_utils.go:26-37 | the error iff there is an old CID without a new one, and then the message is left alone; without sync headers the command by the first parameter; else TEST_AND_SET with the headers' CIDs |
| Wdmp.SetWDMP.IsValid | translation/transport_utils.go:40-76 | the early-exit loop with two counters returns true iff the declarative property holds |
| Wdmp.LoadWDMP | translation/transport_utils.go:122-141 | accepts exactly what the body says and the headers make of it, member by member and for the whole list, and gives each error in its own case |
| Wdmp.DecodesExactly | translation/wdmp_type.go:27-40 | decoding accepts exactly the JSON whose members have their fields' types, 8-bit data types included, null counting as missing, and gives the message they say |
| Wdmp.LoadsExactly | translation/transport_utils.go:26-141 | a body is accepted as r iff it says some m, the list of m is sound and unmixed, and r is m with SET or SET_ATTRIBUTES by the whole list, or TEST_AND_SET with the headers' CIDs |
| Wdmp.RefusedExactly | translation/transport_utils.go:26-141 | which bodies and headers are refused as malformed, and which for an old CID without a new one |
| Wdmp.EncodesExactly | translation/wdmp_type.go:27-40 | the payload of a message is the one JSON object with exactly these members: which are always there, which are omitted when, and what each holds |
| WdmpTheorems.ClassifiesExactly | translation/transport_utils.go:26-91 | for any body and without sync headers: SET_ATTRIBUTES iff its list is non-empty and every parameter sets attributes only, SET iff non-empty, sound and none does; everything else, the body's CIDs included, is kept |
| WdmpTheorems.ClassifiesSync | translation/transport_utils.go:26-76 | for any body and with sync headers: TEST_AND_SET with the headers' CIDs, accepted iff the list is sound and unmixed |
| WdmpTheorems.EmptyBody | translation/transport_utils.go:122-141 | an empty body is accepted exactly by the headers of a TEST_AND_SET |
| WdmpTheorems.AttributeTestRedundant | translation/transport_utils.go:57-59 | after deduction the attribute test changes no outcome |
| WdmpTheorems.AttributeTestMatters | translation/transport_utils.go:57-59 | for an arbitrary command, exactly the messages for which it does |
| WdmpTheorems.AttributeTestExample | translation/transport_utils.go:57-59 | one such message |
| WdmpTheorems.DecodeEncode | translation/wdmp_type.go:27-40 | decoding an encoded message returns it, empty attributes aside |
| WdmpTheorems.EncodeInjective | translation/wdmp_type.go:27-40 | equal payloads mean equal messages, empty attributes aside, and conversely |
| WdmpTheorems.RoundTrip | translation/transport.go:267-280 | an accepted message, encoded and loaded again with the same headers, is accepted with the same payload iff no attribute-only parameter has empty attributes, or it is a TEST_AND_SET of nothing else |
| WdmpTheorems.PayloadLoads | translation/transport_utils.go:122-141 | a payload sent as a body is decided about as the message it encodes |
| WdmpTheorems.BodyRoundTrip | translation/transport.go:267-280 | the same for bodies: the payload of an accepted body, loaded in its turn, gives the same payload under exactly that condition |
| WdmpTheorems.RoundTripExample | translation/transport.go:267-280 | a message that is accepted and does not survive |
| SetRequest.GetParamNames | translation/transport_utils.go:167-175 | the names in order, without dereferencing a nil name |
| SetRequest.AcceptedNamed | translation/transport_utils.go:48-51 | every accepted message has a name on every parameter |
| SetRequest.Request.CaptureWDMPParameters | translation/transport_utils.go:143-165 | leaves a body that reads the same, and logs exactly for accepted PATCH bodies |
| SetRequest.Request.RequestSetPayload | translation/transport.go:267-280 | consumes the body; the payload has exactly the members of the accepted message, CIDs from the headers where there are any and from the body otherwise, and decodes to it; without an accepted message the error of loading |
| SetRequest.Request.ServePatch | translation/transport.go:50-62 | logging first does not change the payload, which is as for RequestSetPayload; the log is enriched iff the payload is accepted, with the same command and the same names in the same order |
| SetRequest.LogMatchesPayload | translation/transport_utils.go:152-161 | command and names of the log are those found in the payload itself |
| Text.SplitAt | translation/transport.go:84 | splitting around a separator splits both sides |
| Text.SplitJoin | translation/transport.go:84 | Split undoes Join for parts without separators |
| Text.TrimAround | translation/transport.go:86 | white space around a text does not matter to TrimSpace |
| Text.TrimExactly | translation/transport.go:86 | TrimSpace takes away white space at both ends, all of it and nothing else |
| Text.SpacesExactly | translation/transport.go:86 | white space is the 25 characters of the Unicode property |
| PartnerIds.GetPartnerIDs | translation/transport.go:75-91 | the nested in-place loop is the concatenation of the trimmed pieces of all lines |
| PartnerIds.LineExactly | translation/transport.go:84-87 | a line's IDs are the only list such that the line is comma-free pieces joined by commas and each ID is its piece without the white space around it |
| PartnerIds.VisibleArrive | translation/transport.go:83-90 | IDs of visible characters without commas arrive as they were sent |
| PartnerIds.CombiningChangesNothing | translation/transport.go:83-90 | joining two adjacent lines with a comma and optional white space, as section 5.3 of RFC 9110 allows, leaves the output unchanged |
| PartnerIds.OneLineForAll | translation/transport.go:83-90 | so does sending all lines as one |
| PartnerIds.OutputNormal | translation/transport.go:83-90 | every ID is trimmed and comma-free, and there are commas + 1 per line |
| PartnerIds.NormalForm | translation/transport.go:83-90 | a non-empty list comes back from one header iff its elements are trimmed and comma-free |
| PartnerIds.OutputReturns | translation/transport.go:83-90 | a non-empty output joined into one header parses to itself |
| GetRequest.NamesUnique | translation/transport.go:282-297 | the payload's names are the only comma-free list that joins back to the input, with or without attributes |
| GetRequest.PayloadReadable | translation/transport.go:282-297 | names, attributes and command can be read off the payload |
| GetRequest.OnlyEmptyRefused | translation/transport.go:283-285 | exactly the empty names argument is refused |
| Headers.ForwardHeadersByPrefix | transaction/transactor.go:173-181 | whatever order the map is iterated in, each forwarded key's values are added in that order |
| Headers.ForwardedValues | transaction/transactor.go:173-181 | what a canonical key holds afterwards, and which keys are there |
| Headers.OrderMatters | transaction/transactor.go:174-178 | the result is independent of the iteration order iff colliding keys hold values that commute |
| Headers.OrderMattersExample | transaction/transactor.go:174-178 | a map with one key in two spellings from which two orders give different results |
| Headers.CanonicalForward | transaction/transactor.go:173-181 | from a canonical map each key gets the source's values after its own iff it has the prefix |
| Headers.CanonicalTwice | transaction/transactor.go:177 | canonical keys stay as they are when they are added again |
| Headers.CanonicalLetters | transaction/transactor.go:177 | adding a key changes letter case only: no lower case at the start or after a hyphen, no upper case elsewhere; what is not an HTTP token stays as it is |
| Headers.SameCanonical | transaction/transactor.go:177 | two field names are one key iff they differ in letter case only |
| HeaderHops.TransactHeaders | transaction/transactor.go:113-118 | what is kept of the upstream headers, with canonical keys |
| HeaderHops.TranslationHeaders | translation/transport.go:200-226 | forwards, then sets the transaction ID and the content type |
| HeaderHops.StatHeaders | stat/transport.go:114-128 | sets both before it forwards |
| HeaderHops.TranslationResponse | translation/transport.go:197-226 | over both hops every other key holds its prior values and then the upstream ones iff it starts with X; the transaction ID is exactly the request's, and no other spelling of its key is left |
| HeaderHops.StatResponse | stat/transport.go:106-128 | the same, with the request's transaction ID first and upstream's values after it, under the only spelling of its key |
| TtlRepair.V2Request.FixDuration | routes.go:348-371 | case by case: unset, refused duration and refused until become Max without until, each with its own warning; everything else is left alone without one; with Max > 0 something is always set |
| TtlRepair.WithinLimits | tr1d1um.yaml:200-210 | with the documented limits nothing forwarded outlives them, and what keeps them is forwarded as it came |
| TtlRepair.RepairStable | routes.go:348-371 | repairing again at the same or a later time changes nothing, and warns again iff Max is 0 and the first repair warned |
| TtlRepair.FixedPoints | routes.go:348-371 | the registrations the repair leaves alone from now on are exactly its results |
| TtlRepair.YamlDocumented | tr1d1um.yaml:200-210 | the documented limits meet what the repair assumes of its validators |

## Left out

- TokenRate.FetchRate: counts stores; fetches that fail store nothing and are not bounded by the source either.
- HeaderHops.TranslationHeaders: the status-code branches appear only as whether a device response was decoded.
- GetRequest.NamesUnique: the GET payload is a record; its JSON encoding is not modelled.
- Text.SplitAt: texts are sequences of characters; bytes that are not UTF-8 are not modelled.
- WdmpTheorems.DecodeEncode: JSON is modelled after parsing; duplicate members, case-insensitive member names and the rounding of numbers inside values are not.
- The order in which a Go `RWMutex` admits its callers: the machine allows more orders, so safety results carry over.
- A `Buffer` equal to the least 64-bit integer, whose negation wraps around; expiry arithmetic is otherwise exact.
- Body read errors at translation/transport_utils.go:148 and failed response writes, which are taken not to happen.
- The HTTP fetch, JSON syntax, msgpack, device IDs, bascule, clortho, routing and retries: library code that is not part of this model.
- `decodeRequest`, `getPartnerIDsDecodeRequest`, `wrap`, add, replace and delete payloads, `BasicAcquirer`, error encoders and the webhook service: straight-line or one-branch code.
- The version test, the choice of `v2Handler` and the path after a failed marshal in `fixV2Duration`.
- Wall-clock steps and the loss of the monotonic reading.
