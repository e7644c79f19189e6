# OmaChat in Dafny

A model of OmaChat, a Nostr client with a relay transport, a sealed store and a
handle server, and proofs about it. `dafny verify dfyconfig.toml` checks all of it.

Asynchronous code is a transition system: one step is one command, frame,
notification or system call, and a run is any finite sequence of steps. The clock,
random draws, the order in which a hash map is walked and the outcome of every send,
flush or rename are parameters of the step, so a statement about all runs covers all
of them. Cryptography, base64, hexadecimal, JSON and UTF-8 checking are function
parameters whose laws stand in a predicate named `Lawful` or in a `requires`.

Where the program changes state in place there is a class beside the transition
system. Its methods are proved to perform exactly the steps of the system, so the
results about runs are results about the objects.

| module | models |
|---|---|
| `RelayActor`, `RelayWire`, `RelayRequests`, `RelayReplies`, `RelayEffects`, `RelayConnection` | one relay's actor: NIP-42 authentication, subscriptions replayed over reconnects, publish acknowledgements |
| `InboxRuntime` | the inbox runtime that learns about authentication only from notifications |
| `PoolSync`, `PoolEffects` | the relay pool's synchronisation sets over command queues |
| `Dedup` | the two bounded duplicate filters |
| `BitMath`, `Bech32`, `Bech32Field`, `Regroup`, `Contact`, `ContactLaws`, `ContactTypos`, `ContactVector` | the contact-link codec of the desktop client, and its checksum as the remainder that BIP 173 defines |
| `Nip44`, `GiftWrap`, `GiftWrapWitness` | NIP-44 payloads and NIP-59 gift wraps, and primitives that satisfy their laws |
| `Panic`, `PanicProgress` | the daemon's panic lifecycle |
| `SealedStore`, `Migration`, `MigrationEffects` | the crash-safe record directory and the provider migration |
| `Http`, `HttpEncoder`, `HttpMessage`, `HttpCuts`, `HttpWitness`, `LineDecoder` | the incremental readers |
| `Replaceable` | the relay-list cache and replaceable discovery |
| `Bindings`, `BindingEffects`, `TokenBucket` | the handle server's bindings, proof nonces and rate limit |

Some properties one might expect are false. Each has the condition under which it holds,
if and only if, and an input or a run on which it fails:

- The relay may hold a subscription that the actor's map no longer has: exactly when, on
  this connection, a close was taken while unauthenticated with a request open, and since
  then the id was not subscribed again and no CLOSE was sent (`LeftBehindIff`,
  `RequestIsLeftBehind`).
- An actor without a signer goes on after a challenge that nobody answers; exactly the
  actors with a signer never do (`AlwaysAnswersIff`, `SignerlessGoesOn`).
- How an HTTP answer is cut into reads can decide between the answer and the size error:
  exactly when it does not say itself that it is too large, can be read within the limits,
  and some reads run into them, inside a long header block or with bytes after the answer
  (`CutsAgreeIff`, `LongHeaderDisagrees`, `TrailingByteDisagrees`).
- A created gift wrap does not always open: exactly when the outer event is too large or
  a timestamp too far ahead it does not (`OpenCreated`, `EarlyWrapDoesNotOpen`,
  `LargeWrapDoesNotOpen`).
- Losing power after a migration can cost every record: exactly when the entry of the new
  records directory, which nobody flushes, has not reached the disk and the source is no
  longer kept (`LossIff`, `RecordsLost`).
- A proof can be accepted twice: exactly when its timestamp was ahead of the clock at
  the first acceptance, because nonces are forgotten by the time they were seen
  (`BindReplayIff`, `UnbindReplayIff`, `ReplayPossibleIff`, `AcceptedTwice`). The comment on the nonce
  table says that a late replay is rejected by the timestamp check; that holds for
  timestamps not ahead of the clock only.
- One wrong character after the separator of a contact link is accepted: exactly when it
  is the Kelvin sign for a capital `K` or the other way round (`TypoAcceptedIff`,
  `KelvinAccepted`).
- The chunked decoder can end the process: exactly when it meets a chunk size within two of
  the machine's maximum, whose sum with the line break wraps around (`AbortsIff`,
  `HugeSizeAborts`).
- The rate limit can let through more than one request over the burst and what the rate
  gives in a window: at some burst exactly for the rates that do not divide 1000, because
  the time is cut to milliseconds before the tokens are (`OneTokenIff`, `WindowExceeded`).
  How much more, for each burst and rate, is `BoundedIff`.

## Model

| member | source | states |
|---|---|---|
| `RelayWire.WireSafety` | crates/omachat-nostr/src/relay.rs:355-423 | In every run of an actor with a signer, on every connection, past or present, an EVENT, REQ or CLOSE is sent only if that connection's log clears it: the latest challenge has been answered by an accepting OK for the latest AUTH, and under the default policy there has been such an OK; an actor without a signer is exempt |
| `RelayWire.AcceptingOkClears` | crates/omachat-nostr/src/relay.rs:601-617 | The OK that authenticates is one for the latest AUTH of this connection, received after it |
| `RelayWire.StepKeepsWire` | crates/omachat-nostr/src/relay.rs:335-489 | Every step of the actor keeps the wire invariant: authentication state, log and subscription map agree |
| `RelayWire.ExecKeepsWire` | crates/omachat-nostr/src/relay.rs:324-492 | The wire invariant holds after every run |
| `RelayWire.ReplayRequestsAll` | crates/omachat-nostr/src/relay.rs:494-511 | A complete replay, in any order of the map, leaves every mapped id last requested with exactly its filters |
| `RelayWire.SubscriptionsOnTheWire` | crates/omachat-nostr/src/relay.rs:358-360 | Whenever a session is authenticated, the last REQ on that connection for each mapped id carries the mapped filters, across reconnects, new challenges and changes made while unauthenticated |
| `RelayRequests.LeftBehindIff` | crates/omachat-nostr/src/relay.rs:392-423 | In every run, on a connection, the relay holds a request for an id that is not in the map if and only if a close of it was taken unauthenticated with a request open, and since then neither a subscribe of it nor a sent CLOSE followed |
| `RelayRequests.RequestIsLeftBehind` | crates/omachat-nostr/src/relay.rs:410-423 | Authenticate, subscribe, be challenged again, close: the request is left behind |
| `RelayRequests.AlwaysAnswersIff` | crates/omachat-nostr/src/relay.rs:656-663 | Over all runs and connections, every ordinary frame after a challenge follows an accepted answer to it if and only if the actor has a signer |
| `RelayRequests.SignerlessGoesOn` | crates/omachat-nostr/src/relay.rs:661-663 | Without a signer a run sends a REQ right after the challenge |
| `RelayReplies.ReplyConservation` | crates/omachat-nostr/src/relay.rs:469-491 | In every run a dequeued command has exactly one reply, unless its caller has gone or it is a publish waiting on the present connection; off a connection nobody waits |
| `RelayReplies.AcknowledgedOnlyOnEvidence` | crates/omachat-nostr/src/relay.rs:635-643 | A publisher gets Ok only if an accepting OK for that id arrived on the same connection after its own EVENT |
| `RelayReplies.StepKeepsReplies` | crates/omachat-nostr/src/relay.rs:335-489 | Every step keeps the accounting of tickets: answered once, waiting, or dropped because the caller had gone |
| `RelayReplies.StepKeepsAcks` | crates/omachat-nostr/src/relay.rs:371-391 | Every step keeps the evidence for every acknowledgement given |
| `RelayReplies.CloseTableKeeps` | crates/omachat-nostr/src/relay.rs:694-701 | Failing the table answers each waiting publisher once and empties it |
| `RelayReplies.FrameEffect` | crates/omachat-nostr/src/relay.rs:572-682 | A frame settles at most the one publisher waiting on its id, or ends the connection |
| `RelayEffects.NoteIsCaused` | crates/omachat-nostr/src/relay.rs:572-682 | In every run the move that queued a notification is one that calls for it: a connect, the end of a connection, a challenge, the OK for the pending AUTH with that key, or the very frame reported |
| `RelayEffects.ReportIff` | crates/omachat-nostr/src/relay.rs:586-655 | A notification reports an event, an end of stored events, a close or a notice, with its subscription, event and words, if and only if the move that queued it received that very frame and the queue had room |
| `RelayEffects.DecisionIff` | crates/omachat-nostr/src/relay.rs:601-634 | A notification says that a key was authenticated, or rejected in these words, if and only if the move that queued it received the OK for the AUTH pending with that key, and neither the queue nor a replayed request failed |
| `RelayEffects.PublishTaken` | crates/omachat-nostr/src/relay.rs:371-391 | At any point of any run a publish on a live session sends its EVENT and waits, unless somebody still waits for that event; without authentication, between connections and on a failing socket it is answered with that error and nothing is pending |
| `RelayEffects.SubscribeTaken` | crates/omachat-nostr/src/relay.rs:392-409 | A subscribe is kept and requested on a live session, kept for later on another, refused between connections, and not kept when the send fails |
| `RelayEffects.CloseTaken` | crates/omachat-nostr/src/relay.rs:410-423 | A close forgets the id, tells the relay on a live session, and is refused between connections |
| `RelayEffects.ChallengeTaken` | crates/omachat-nostr/src/relay.rs:656-680 | A challenge to an actor with a signer is reported and answered, and the session waits, closed to ordinary frames |
| `RelayEffects.AuthenticationSettled` | crates/omachat-nostr/src/relay.rs:611-633 | The accepting OK opens the session, replays every mapped request with its filters and is reported; a refusal closes it and is reported |
| `RelayEffects.PhaseFollows` | crates/omachat-nostr/src/relay.rs:335-489 | At any point of any run a connection is opened, lost and given up for the listed reasons and no others: which failing sends, unreadable frames, full queues, orders and waits lead where |
| `RelayEffects.FailuresAreStreak` | crates/omachat-nostr/src/relay.rs:334-480 | In every run the failure counter is the number of attempts in a row that failed or whose session made no progress, as far as 32 bits go |
| `RelayConnection.FailPending` | crates/omachat-nostr/src/relay.rs:694-701 | The drain loop answers every entry with the error, whatever the order |
| `RelayConnection.Actor.constructor` | crates/omachat-nostr/src/relay.rs:330-334 | The actor starts in the initial state of the transition system |
| `RelayConnection.Actor.ReplaySubscriptions` | crates/omachat-nostr/src/relay.rs:494-511 | The replay loop sends the requests in order up to the first failing send |
| `RelayConnection.Actor.OpenConnection` | crates/omachat-nostr/src/relay.rs:336-360 | Connecting is the transition system's connect step |
| `RelayConnection.Actor.EndConnection` | crates/omachat-nostr/src/relay.rs:472-489 | Losing the connection fails the table, forgets authentication and counts failures |
| `RelayConnection.Actor.EndActor` | crates/omachat-nostr/src/relay.rs:469-491 | Leaving the loop fails the table |
| `RelayConnection.Actor.HandlePublish` | crates/omachat-nostr/src/relay.rs:371-391 | A publish command is the system's publish step |
| `RelayConnection.Actor.HandleSubscribe` | crates/omachat-nostr/src/relay.rs:392-409 | A subscribe command is the system's subscribe step |
| `RelayConnection.Actor.HandleClose` | crates/omachat-nostr/src/relay.rs:410-423 | A close command is the system's close step |
| `RelayConnection.Actor.SettleAuthentication` | crates/omachat-nostr/src/relay.rs:601-634 | The OK for the pending AUTH: rejected it is reported; accepted it replays every mapped request, and reports or gives the connection up |
| `RelayConnection.Actor.HandleOk` | crates/omachat-nostr/src/relay.rs:601-644 | An OK frame is the system's OK step |
| `RelayConnection.Actor.HandleChallenge` | crates/omachat-nostr/src/relay.rs:656-680 | A challenge frame is the system's challenge step |
| `RelayConnection.Actor.HandleRelayFrame` | crates/omachat-nostr/src/relay.rs:572-682 | Every frame is the system's frame step; `RelayEffects.ReportIff` and `RelayEffects.DecisionIff` say what that reports |
| `RelayConnection.Actor.HandleCommand` | crates/omachat-nostr/src/relay.rs:369-430 | Every command on a connection is the system's dequeue step |
| `RelayConnection.Actor.Perform` | crates/omachat-nostr/src/relay.rs:335-489 | One iteration of the object is one step of the system and keeps the wire and reply invariants |
| `InboxRuntime.PrefixIsExact` | crates/omachat-nostr/src/relay.rs:601-680 | A reader of any prefix of one relay's notifications is right about the session at the end of the very step that emitted the last one |
| `InboxRuntime.DelayedViewExact` | crates/omachat-nostr/src/dm_inbox_runtime.rs:345-419 | In every interleaving, a relay is in the runtime's set exactly when its actor was authenticated at the end of the step that emitted the last notification consumed |
| `InboxRuntime.ReceivedOnlyWhenAuthenticated` | crates/omachat-nostr/src/dm_inbox_runtime.rs:386-404 | An event handed to the inbox reached the actor on a session authenticated before and after that step |
| `InboxRuntime.OnlyOwnIdentity` | crates/omachat-nostr/src/dm_inbox_runtime.rs:363-369 | No actor ever reports an identity other than its signer's, so the unexpected-identity error cannot arise |
| `InboxRuntime.PublishNeedsEveryRelay` | crates/omachat-nostr/src/dm_inbox_runtime.rs:370-377 | A full set means every relay's last consumed notification was emitted by a step that left it authenticated |
| `InboxRuntime.FullSet` | crates/omachat-nostr/src/dm_inbox_runtime.rs:474-474 | A set of relay indices of full size holds every relay |
| `InboxRuntime.FeedIsView` | crates/omachat-nostr/src/dm_inbox_runtime.rs:345-419 | For the notifications that any run hands out, in their order, the runtime's fold over them is the system's set |
| `InboxRuntime.VerdictsAreSound` | crates/omachat-nostr/src/dm_inbox_runtime.rs:345-419 | Whatever the loop returns on the feed of a run: an event goes to the inbox only if that relay sent that very event for this subscription, on a session authenticated before and after that step, and the unexpected-identity error does not occur |
| `InboxRuntime.InboxIff` | crates/omachat-nostr/src/dm_inbox_runtime.rs:386-404 | At any point of any run the next notification is given to the inbox as this event if and only if the relay sent this event for the subscription on an authenticated session |
| `InboxRuntime.UnauthenticatedIff` | crates/omachat-nostr/src/dm_inbox_runtime.rs:393-395 | It is refused as unauthenticated if and only if the relay sent an event for the subscription on a session that was not |
| `InboxRuntime.ClosedIff` | crates/omachat-nostr/src/dm_inbox_runtime.rs:405-413 | The subscription is reported closed if and only if the relay closed it, in these words |
| `InboxRuntime.RejectedIff` | crates/omachat-nostr/src/dm_inbox_runtime.rs:379-385 | A rejection is reported if and only if the relay refused the authentication that was pending, in these words |
| `InboxRuntime.RestoredIff` | crates/omachat-nostr/src/dm_inbox_runtime.rs:370-377 | Authentication is reported restored if and only if the relay has just accepted it and was the last one missing |
| `InboxRuntime.JudgeResumed` | crates/omachat-nostr/src/dm_inbox_runtime.rs:345-419 | Calling the loop again on the rest of a feed judges as one pass over all of it |
| `InboxRuntime.ObjectionsAreSound` | crates/omachat-nostr/src/dm_inbox_runtime.rs:465-525 | What start-up can stop for on the feed of a run: a rejection is reported only of a relay whose session that very step left unauthenticated, and the unexpected-identity error does not occur |
| `InboxRuntime.ObjectsIff` | crates/omachat-nostr/src/dm_inbox_runtime.rs:465-525 | Start-up stops for a rejection if and only if the relay refused the authentication that was pending |
| `InboxRuntime.ReadinessIsSound` | crates/omachat-nostr/src/dm_inbox_runtime.rs:465-525 | A relay that start-up counts as ready was left authenticated by the step that emitted the last notification heard of it |
| `InboxRuntime.Runtime.constructor` | crates/omachat-nostr/src/dm_inbox_runtime.rs:471-472 | The runtime begins with no relay authenticated |
| `InboxRuntime.Runtime.NextActivity` | crates/omachat-nostr/src/dm_inbox_runtime.rs:345-419 | The loop returns at the first notification that calls for it, and the set is the fold of all it consumed |
| `InboxRuntime.Runtime.WaitForAuthentication` | crates/omachat-nostr/src/dm_inbox_runtime.rs:465-525 | Start-up is ready only with every relay in the set, and at the first point where that is so; an error is that of the first notification that has one, before any such point; the set is the fold of all it consumed |
| `PoolSync.SyncedMeansHeld` | crates/omachat-nostr/src/pool.rs:209-295 | In every interleaving of calls, timeouts, reconnects and actor steps, with a configuration of its own for each relay, an id counted as synchronised with a relay is held by that relay's actor with the pool's current filters, and nothing queued will change that |
| `PoolSync.SyncedIsOnTheWire` | crates/omachat-nostr/src/pool.rs:209-295 | If that actor's session is authenticated, the last REQ on its connection for the id carries the pool's current filters |
| `PoolEffects.FirstInFirstOut` | crates/omachat-nostr/src/pool.rs:227-255 | In every run the commands sent to a relay are those its actor took, in that order, and those still queued |
| `PoolEffects.SubscriptionsAreAsked` | crates/omachat-nostr/src/pool.rs:214-245 | In every run the pool knows exactly the subscriptions of the last call about each id |
| `PoolEffects.SyncedIff` | crates/omachat-nostr/src/pool.rs:222-237 | In every run an id is synchronised with a relay if and only if a call about it ended with that relay seen to answer Ok, and no effective subscribe or close of it came since |
| `PoolEffects.SubscribeGetsThrough` | crates/omachat-nostr/src/pool.rs:209-239 | A run that subscribes, gets its Ok and ends synchronised, with the request on the wire |
| `PoolSync.NextKeeps` | crates/omachat-nostr/src/pool.rs:209-307 | Every step of pool, queues and actors keeps the synchronisation invariant |
| `PoolSync.TakeEffect` | crates/omachat-nostr/src/relay.rs:369-430 | Taking a command touches only its own subscription and its own reply |
| `PoolSync.MoveIsQuiet` | crates/omachat-nostr/src/relay.rs:431-467 | Every other move leaves the subscription map alone and answers nobody Ok |
| `PoolSync.RelayPool.ForgetEverywhere` | crates/omachat-nostr/src/pool.rs:222-224 | The loop removes the id from every relay's set and changes nothing else |
| `PoolSync.RelayPool.BeginSubscribe` | crates/omachat-nostr/src/pool.rs:214-226 | A repeated identical subscription that is synchronised everywhere is a no-op; any other becomes the current one and is synchronised nowhere |
| `PoolSync.RelayPool.FinishSubscribe` | crates/omachat-nostr/src/pool.rs:233-237 | The id becomes synchronised with exactly the relays that answered Ok |
| `PoolSync.RelayPool.CloseSubscription` | crates/omachat-nostr/src/pool.rs:245-248 | A closed subscription is gone from the pool and from every set |
| `Dedup.SeenIsRecent` | crates/omachat-nostr/src/dm_inbox.rs:176-186 | After expiry the set holds exactly the ids among the last `capacity` accepted that were accepted less than the TTL ago |
| `Dedup.SeenIds.constructor` | crates/omachat-nostr/src/dm_inbox.rs:176-186 | An empty filter remembers nothing |
| `Dedup.SeenIds.Expire` | crates/omachat-nostr/src/pool.rs:318-324 | The first loop drops expired entries from the front until none is expired there, and the filter still remembers all it must |
| `Dedup.SeenIds.MakeRoom` | crates/omachat-nostr/src/pool.rs:328-333 | The second loop leaves room for one id and still remembers all that will count as recent after it |
| `Dedup.SeenIds.Remember` | crates/omachat-nostr/src/dm_inbox.rs:176-196 | With a clock that never goes back, false is returned exactly for a recent id; queue and set hold the same distinct ids, never more than the capacity |
| `Dedup.AcceptedAgainOnlyWhenForgotten` | crates/omachat-nostr/src/pool.rs:316-337 | Over a whole run an id is accepted twice only if the TTL has passed or at least `capacity` acceptances lie between |
| `Bech32.StepLinear` | desktop/Contact.js:5-9 | One step of the checksum register is linear over exclusive or, in state and word together |
| `Bech32.FeedLinear` | desktop/Contact.js:2-11 | So is any number of words |
| `Bech32.FeedbackInjective` | desktop/Contact.js:4-8 | With these five generators the low feedback bits determine the bits that selected them |
| `Bech32.StepKernel` | desktop/Contact.js:5-9 | A zero word takes only the zero register to zero |
| `Bech32.ChecksumVerifies` | desktop/Contact.js:29-34 | The six words the encoder appends always make the checksum 1, for any number of words |
| `Bech32.ChecksumUnique` | desktop/Contact.js:29-34 | No other six words do |
| `Bech32.SingleErrorDetected` | desktop/Contact.js:2-11 | At every length, replacing one word by another 5-bit word changes the checksum |
| `Bech32.PolymodLoop` | desktop/Contact.js:2-11 | The loop over the words computes the register specification |
| `Bech32.StepLoop` | desktop/Contact.js:6-8 | The loop over the five generators computes one step |
| `Regroup.RoundTrip` | desktop/Contact.js:17-28 | Regrouping bytes into smaller words with padding and back without is the identity, on every input and for all widths |
| `Regroup.DecodedIsCanonical` | desktop/Contact.js:17-28 | Words that regroup without error are the regrouping of their result, so padding cannot vary |
| `Regroup.CutUnique` | desktop/Contact.js:18-24 | A bit stream can be cut into words and a remainder in one way only |
| `Regroup.ConvertLoop` | desktop/Contact.js:17-28 | The accumulator loop, with its masks and shifts, computes the regrouping of the written-out bits |
| `Regroup.Absorb` | desktop/Contact.js:20-23 | One value shifted in appends its bits and emits the groups it completes |
| `Regroup.Drain` | desktop/Contact.js:23-23 | The inner loop emits whole groups from the pending bits |
| `Regroup.Finish` | desktop/Contact.js:25-27 | The tail pads the last group, or refuses padding that is not short and zero |
| `Contact.AlphabetIndex` | desktop/Contact.js:1-1 | Each word's letter has that word as its index |
| `Contact.IndexLetter` | desktop/Contact.js:55-55 | Each letter's index writes that letter |
| `Contact.ReadProfile` | desktop/Contact.js:62-74 | The offset loop over type-length-value bytes computes the recursive reading, errors included |
| `ContactLaws.HexUnhex` | desktop/Contact.js:35-41 | A key written from its own digits is the key in lower case |
| `ContactLaws.UnhexHex` | desktop/Contact.js:35-41 | Hexadecimal text of bytes is lower case and reads back as the bytes |
| `ContactLaws.UnsealEncode` | desktop/Contact.js:29-34 | Every encoded payload of at least one byte passes the checksum and comes back; an empty one is refused |
| `ContactLaws.UnsealedIsCanonical` | desktop/Contact.js:55-57 | Letters that unseal are exactly what encoding their payload writes |
| `ContactLaws.DecodedIsEncoded` | desktop/Contact.js:53-75 | An accepted link is, letter for letter, the encoding of its payload under its prefix |
| `ContactLaws.NpubCanonical` | desktop/Contact.js:36-41 | A key has one lower-case `npub` |
| `ContactLaws.TypoUndecodable` | desktop/Contact.js:53-56 | Changing any one character after the separator of a decodable text gives one that is not |
| `Bech32.LastWordNeeded` | desktop/Contact.js:2-11 | A valid word sequence is not valid without its last word |
| `Bech32Field.TableIsMultiples` | desktop/Contact.js:4-4 | Every word of the five generator constants is the stated multiple of a coefficient of BIP 173's generator polynomial, in the field of 32 elements |
| `Bech32Field.StepInField` | desktop/Contact.js:5-9 | One step of the register multiplies by x, adds the word and subtracts the leading coefficient times the generator |
| `Bech32Field.PolymodDivides` | desktop/Contact.js:2-11 | For any words the register is the remainder of their polynomial, after a leading one, by the generator |
| `Bech32Field.RemainderUnique` | desktop/Contact.js:2-11 | That remainder is unique |
| `Bech32Field.GoodIff` | desktop/Contact.js:2-11 | Words have a good checksum if and only if their polynomial is one more than a multiple of the generator |
| `ContactVector.ExpandShape` | desktop/Contact.js:12-16 | The prefix enters as the high parts of its characters, a zero and their low parts |
| `ContactVector.UnsealsIff` | desktop/Contact.js:55-56 | Letters pass the check under a prefix if and only if the polynomial of that and of the letters is one more than a multiple of the generator |
| `ContactVector.PublishedExample` | desktop/tests/test_contact.js:4-8 | The published key is written as the published `npub`, which decodes to it |
| `ContactTypos.AcceptedIsDressed` | desktop/Contact.js:42-57 | Every accepted link is white space, an optional scheme and a text in one case that decodes in lower case |
| `ContactTypos.TypoAcceptedIff` | desktop/Contact.js:42-57 | For every such input, one wrong character after the separator, white space that is trimmed away included, is accepted if and only if it is the Kelvin sign for a capital `K` or the reverse |
| `ContactTypos.KelvinAccepted` | desktop/Contact.js:51-52 | A key whose capital `npub` is accepted with a Kelvin sign for a `K` |
| `ContactLaws.LinkRoundTrip` | desktop/Contact.js:42-53 | A link says what its payload says, whatever white space surrounds it, with the URI scheme in any case or none, in lower or upper case |
| `ContactLaws.KeyRoundTrip` | desktop/Contact.js:36-61 | Every 32-byte key comes back from its `npub`, however dressed |
| `ContactLaws.BareKeyAccepted` | desktop/Contact.js:47-50 | A hexadecimal key, alone or after `dm:`, in any white space, is itself in lower case |
| `ContactLaws.SchemedKeyRefused` | desktop/Contact.js:47-54 | After the URI scheme it is refused |
| `ContactLaws.PrivateKeyRefused` | desktop/Contact.js:46-46 | A private key, in any case and dress, is refused as one |
| `ContactLaws.MixedCaseRefused` | desktop/Contact.js:51-51 | A link with letters of both cases is refused as such |
| `ContactLaws.ProfileOfEntries` | desktop/Contact.js:62-74 | A type-length-value list is accepted exactly when it holds one key entry, of 32 bytes; the hint flag says whether a relay entry is there; otherwise the error tells no key from not exactly one |
| `ContactLaws.AcceptedIsWire` | desktop/Contact.js:62-74 | Bytes that are accepted are such a list |
| `ContactLaws.TruncatedProfileRefused` | desktop/Contact.js:63-65 | Bytes that break off inside an entry are refused as truncated |
| `ContactLaws.ProfileRoundTrip` | desktop/Contact.js:42-75 | A profile link within the size limit, however dressed, yields its one key |
| `ContactLaws.ParsedKeyIsHex` | desktop/Contact.js:42-75 | Whatever input is accepted, the key is 64 lower-case hexadecimal digits |
| `Nip44.PaddedBounds` | crates/omachat-crypto/src/nip44.rs:266-287 | The padded length is at least the length and at most the larger of 32 and the next power of two |
| `Nip44.PaddedIsLeast` | crates/omachat-crypto/src/nip44.rs:266-287 | Up to 32 bytes pad to 32; more pad to the least multiple, of 32 or an eighth of the next power of two whichever is larger, that holds them |
| `Nip44.PaddedMonotone` | crates/omachat-crypto/src/nip44.rs:266-287 | A longer message never pads to less |
| `Nip44.PaddedIdempotent` | crates/omachat-crypto/src/nip44.rs:266-287 | A padded length pads to itself |
| `Nip44.PaddedWaste` | crates/omachat-crypto/src/nip44.rs:266-287 | Beyond 256 bytes the filler is less than a quarter of the length |
| `Nip44.BuildPadded` | crates/omachat-crypto/src/nip44.rs:203-228 | The buffer built is the prefix, the text and zeros up to the padded length; empty and oversized texts are refused |
| `Nip44.UnpadIff` | crates/omachat-crypto/src/nip44.rs:230-264 | Unpadding gives `m` exactly for the buffers of `pad(m)`'s length that agree with it outside the filler |
| `Nip44.UnpadPad` | crates/omachat-crypto/src/nip44.rs:203-264 | Unpadding undoes padding for every length from 1 byte to 1 MiB |
| `Nip44.PrefixAnnounces` | crates/omachat-crypto/src/nip44.rs:213-246 | Both prefix formats announce exactly the length they were made from |
| `Nip44.PrefixIsBigEndian` | crates/omachat-crypto/src/nip44.rs:213-224 | Below 65536 the prefix is two bytes, from there two zeros and four, each the length in big-endian order |
| `Nip44.LengthsPassGate` | crates/omachat-crypto/src/nip44.rs:289-307 | Every encrypted payload is within the receiver's minimum and maximum, encoded and decoded |
| `Nip44.DecryptEncrypt` | crates/omachat-crypto/src/nip44.rs:119-189 | Encryption succeeds exactly on 1 byte to 1 MiB with derivable keys, and decryption under the same key returns the text |
| `Nip44.EncryptLayout` | crates/omachat-crypto/src/nip44.rs:119-142 | A payload is the version, the nonce, the padded text under the key stream and the authenticator of nonce and ciphertext |
| `Nip44.DecryptedIsAuthentic` | crates/omachat-crypto/src/nip44.rs:144-189 | Whatever decrypts, made by anyone: its authenticator matches under the derived key, its version is 2, and the text is what its padding announces |
| `GiftWrap.DecryptPeer` | crates/omachat-crypto/src/nip44.rs:98-117 | What one key pair encrypts for the other, the other decrypts; the payload is no shorter than the text |
| `GiftWrap.SignedVerifies` | crates/omachat-nostr/src/event.rs:154-186 | An event this code signed verifies exactly when it is small and early enough |
| `GiftWrap.WrapHoldsSeal` | crates/omachat-nostr/src/gift_wrap.rs:247-258 | The size check on the seal follows from the one on the wrap |
| `GiftWrap.WrapOpens` | crates/omachat-nostr/src/gift_wrap.rs:223-247 | The seal comes out of a made wrap exactly when both are acceptable |
| `GiftWrap.SealOpens` | crates/omachat-nostr/src/gift_wrap.rs:248-264 | The rumor comes out of a made seal that fits |
| `GiftWrap.OpenCreated` | crates/omachat-nostr/src/gift_wrap.rs:166-265 | A created gift wrap opens with the recipient's key if and only if the outer event fits and neither timestamp is too far ahead, and then holds the identical rumor |
| `GiftWrap.OpenCreatedInTime` | crates/omachat-nostr/src/gift_wrap.rs:166-265 | If serializing the wrap adds no more to its content than the limits leave room for, it opens if and only if neither timestamp is too far ahead |
| `GiftWrap.OpenedIsAuthentic` | crates/omachat-nostr/src/gift_wrap.rs:223-265 | Whatever opens, by whomever made: the author named in the rumor signed the seal that carries it, and the rumor's id is the digest of its fields |
| `GiftWrap.OpensIff` | crates/omachat-nostr/src/gift_wrap.rs:223-265 | Anything opens to this seal and this rumor if and only if wrap and seal are genuine, the wrap is of one of the two kinds and for this reader alone, it decrypts to the seal, and the seal, of its kind and without tags, to a rumor within the limits, named by its digest and of the same author |
| `GiftWrap.VerifiedIff` | crates/omachat-nostr/src/event.rs:154-186 | An event verifies if and only if it is within the limits and not too far ahead, its id is the digest of its fields and its author signed that |
| `GiftWrap.SoleIff` | crates/omachat-nostr/src/gift_wrap.rs:233-243 | A wrap is for the reader if and only if exactly one tag names anybody, and it names the reader |
| `GiftWrap.CreatesOnlyOwn` | crates/omachat-nostr/src/gift_wrap.rs:174-177 | Only a rumor within the limits, named by its digest and of the sender is wrapped; the two refusals occur exactly when that fails |
| `GiftWrap.CreatedShape` | crates/omachat-nostr/src/gift_wrap.rs:208-220 | A created wrap is of kind 1059 or 21059 as asked, names its one recipient, and carries the time and key of its material |
| `GiftWrap.SealShape` | crates/omachat-nostr/src/gift_wrap.rs:178-197 | Its seal is of kind 13, without tags, of the author, and holds the encrypted rumor |
| `GiftWrapWitness.ToyIsLawful` | crates/omachat-nostr/src/gift_wrap.rs:166-265 | Some primitives satisfy all the laws that the results on gift wraps assume |
| `GiftWrapWitness.EarlyWrapDoesNotOpen` | crates/omachat-nostr/src/gift_wrap.rs:223-233 | At any time, under the default limits, a wrap stamped one second past the allowance is created and does not open |
| `GiftWrapWitness.LargeWrapDoesNotOpen` | crates/omachat-nostr/src/gift_wrap.rs:223-233 | Under the default limits, in a lawful coding that writes times at length, a timely wrap is created, is larger than the limit and does not open |
| `Panic.EraseExclusion` | crates/omachatd/src/core.rs:75-136 | In every interleaving at most one begin succeeds, stopping and erasing exclude each other, command bodies see store and identity whole, swaps happen while active, and a returned shutdown is past erasing |
| `Panic.NoBodyAfterErase` | crates/omachatd/src/core.rs:268-286 | Terminal states and stopping are final, and once the erase has touched the store no command body runs again |
| `Panic.SwapWhileActive` | crates/omachatd/src/core.rs:246-266 | The configuration changes exactly at a swap, by one, under the transition mutex, active before and after |
| `Panic.CompleteMeansErased` | crates/omachatd/src/core.rs:441-492 | In every run a completed cleanup has erased identity, account and store and met no fault; a failed one met a crash or a failing erase |
| `Panic.BrokenIff` | crates/omachatd/src/core.rs:441-492 | In every run the cleanup has failed, or is about to say so, if and only if it crashed or its erase failed |
| `Panic.ErasesOnlyConfirmed` | crates/omachatd/src/core.rs:421-438 | The thread that began an erase redeemed a confirmation before |
| `Panic.SomeThreadMoves` | crates/omachatd/src/core.rs:123-135 | No deadlock and no lost wake-up: while a thread is unfinished some thread can move |
| `PanicProgress.SchedulesAreFinite` | crates/omachatd/src/core.rs:238-286 | In every run the moves that change anything, and the actions the threads have left, are no more than the actions they began with |
| `PanicProgress.CanFinish` | crates/omachatd/src/core.rs:123-135 | From every reachable state some continuation ends all threads |
| `PanicProgress.LocksAreFree` | crates/omachatd/src/core.rs:75-136 | When all have ended, mutex and lock are free and no erase is under way |
| `PanicProgress.LeavesForAReason` | crates/omachatd/src/core.rs:259-286 | In every run a thread that left did so at a step of its own, its work done or the lifecycle or confirmation against it; a command not served met a lifecycle that was not active |
| `Panic.StepKeeps` | crates/omachatd/src/core.rs:421-492 | Every atomic action of every thread keeps the lock, eraser, erasure and work invariants |
| `Panic.RunKeeps` | crates/omachatd/src/core.rs:238-286 | The invariants hold after every run |
| `Panic.PanicLifecycle.constructor` | crates/omachatd/src/core.rs:59-68 | A lifecycle starts active, nothing announced |
| `Panic.PanicLifecycle.Begin` | crates/omachatd/src/core.rs:80-90 | Succeeds exactly from active, and then erases |
| `Panic.PanicLifecycle.BeginProcessShutdown` | crates/omachatd/src/core.rs:92-105 | Asks for a wait exactly while erasing, and otherwise leaves a final state |
| `Panic.PanicLifecycle.Finish` | crates/omachatd/src/core.rs:113-121 | Stores the terminal state and announces it |
| `SealedStore.TemporaryIsSwept` | crates/omachat-store/src/sealed.rs:518-522 | The name of a temporary is one that recovery removes and never a record's |
| `SealedStore.StepKeeps` | crates/omachat-store/src/sealed.rs:510-561 | Every step, stop and power loss keeps each version of the directory good: records are whole, flushed, and values that were written |
| `SealedStore.ValuesSince` | crates/omachat-store/src/sealed.rs:510-561 | From any good state, through any steps, stops and power losses, a record has in every version a value it had in some version at the start or one attempted since |
| `SealedStore.RecordsAreWhole` | crates/omachat-store/src/sealed.rs:510-561 | In every run from an empty directory a record is absent or the whole envelope of one of its writes; from any point at which a flush had left one version, it is what it was then or an attempt made after |
| `SealedStore.CrashAtomicity` | crates/omachat-store/src/sealed.rs:510-561 | A write stopped after any step, with power loss or not, then recovery, from any good state: the record has a value some version already had or the whole new one, every other record a value some version already had; after a flush, recovery's included, whole old or whole new and all else as before |
| `SealedStore.CommittedSurvives` | crates/omachat-store/src/sealed.rs:533-536 | A write that returned Ok survives everything until its record is changed again |
| `SealedStore.RemovedStaysGone` | crates/omachat-store/src/sealed.rs:306-307 | A removal that returned Ok survives everything until its record is written again |
| `SealedStore.RecordDirectory.constructor` | crates/omachat-store/src/sealed.rs:133-135 | A new record directory is empty |
| `SealedStore.RecordDirectory.WriteAll` | crates/omachat-store/src/sealed.rs:530-530 | Writing in pieces ends with all data in the temporary, or fails and disturbs no record |
| `SealedStore.RecordDirectory.AtomicWrite` | crates/omachat-store/src/sealed.rs:510-541 | Ok exactly when no step fails, and then the new value is the only possible one and the names are the old ones and this; a failing step leaves the values possible before and at most the new one, and no temporary if it can be removed; other records are untouched |
| `SealedStore.RecordDirectory.Recover` | crates/omachat-store/src/sealed.rs:549-561 | The loop removes every temporary and nothing else, and the flush leaves one version, so every record is settled |
| `Migration.RecordsSurvive` | crates/omachat-store/src/sealed.rs:147-218 | At every point of every migration whose power losses so far spared the records, in every version the parent directory may fall back to, one of the three trees holds all records under a key that is there; success leaves them in the state directory under the target provider with no backup, all of it flushed |
| `Migration.LossIff` | crates/omachat-store/src/sealed.rs:133-218 | A power loss at any point leaves all records readable if and only if the records directory of the copy had reached the disk, or the version left still keeps the source with its key, or there were no records |
| `Migration.LossBeforeDestruction` | crates/omachat-store/src/sealed.rs:185-212 | Until the old key is deleted no power loss costs a record |
| `Migration.RecordsLost` | crates/omachat-store/src/sealed.rs:133-217 | A migration all of whose steps succeed, and a power loss after it that takes every record |
| `Migration.StepKeeps` | crates/omachat-store/src/sealed.rs:185-218 | Every step, error path, stop, write-back and sparing power loss keeps that |
| `MigrationEffects.TreesAreArranged` | crates/omachat-store/src/sealed.rs:185-218 | Through any steps, failures and stops the three trees are arranged as the phase says; a failed migration leaves the source in place, the source as backup and nothing in place, or the whole copy in place |
| `MigrationEffects.UndoneIsGone` | crates/omachat-store/src/sealed.rs:193-200 | Undoing a copy leaves the source in place, nothing beside it if the removal works, and no new key in the Secret Service if that is deleted |
| `MigrationEffects.PutBackRestores` | crates/omachat-store/src/sealed.rs:205-211 | A failing second rename is made good by putting the source back, if that works |
| `MigrationEffects.OldKeyIsGone` | crates/omachat-store/src/sealed.rs:213-217 | In every run the backup is removed and success reported only with the old key gone from the Secret Service |
| `Migration.CopiedHolds` | crates/omachat-store/src/sealed.rs:192-203 | A tree to which all listed records were copied holds every record of the source |
| `Http.FindGrows` | crates/omachat-nostr/src/nip11.rs:537-541 | A match found stays the first match when bytes are added |
| `Http.HeaderLoop` | crates/omachat-nostr/src/nip11.rs:467-485 | The header loop with its two variables computes the reading of the header lines |
| `Http.DecodeLoop` | crates/omachat-nostr/src/nip11.rs:511-535 | The chunk loop computes the chunked reading |
| `Http.DecodeEncoded` | crates/omachat-nostr/src/nip11.rs:511-535 | Decoding an encoded chunk list, with any size lines that announce the sizes, followed by anything gives the joined chunks |
| `HttpEncoder.HexAnnounces` | crates/omachat-nostr/src/nip11.rs:514-521 | The hexadecimal text of a number, in either case and with any extension, announces that number, or none if the machine cannot count so far |
| `HttpEncoder.CodedDecodes` | crates/omachat-nostr/src/nip11.rs:511-535 | What an encoder writes, in chunks that the machine can count, decodes to the data, whatever follows; every proper front part is incomplete and no error |
| `HttpMessage.HeadReads` | crates/omachat-nostr/src/nip11.rs:454-485 | A written head, with fields in any letter case, padding, order and number, reads as its status, the last length stated and whether any field says chunked; one length that is no number refuses it |
| `HttpMessage.ChunkedAnswerReads` | crates/omachat-nostr/src/nip11.rs:486-508 | A written chunked answer, whatever length it also states and whatever trails, is its data, or the status or size error |
| `HttpMessage.ChunkedAnswerWaits` | crates/omachat-nostr/src/nip11.rs:487-491 | Every proper front part of its body is incomplete and no error |
| `HttpMessage.MeasuredAnswerReads` | crates/omachat-nostr/src/nip11.rs:492-508 | A written answer with a stated length is incomplete until that much is there, and then just that much |
| `HttpMessage.OpenAnswerReads` | crates/omachat-nostr/src/nip11.rs:497-508 | A written answer with neither lasts to the end of the stream |
| `Http.AbortsIff` | crates/omachat-nostr/src/nip11.rs:514-532 | The decoder slices out of range if and only if good chunks are followed by a size whose sum with two wraps around, and by as many bytes as the wrapped sum |
| `HttpEncoder.HugeSizeAborts` | crates/omachat-nostr/src/nip11.rs:518-529 | The size line `fffffffffffffffe`, in either case, does it alone |
| `Http.PrefixIncomplete` | crates/omachat-nostr/src/nip11.rs:514-528 | Every proper front part of an encoded list is incomplete and never an error |
| `Http.ChunksGrow` | crates/omachat-nostr/src/nip11.rs:511-535 | A chunked body that is complete or bad stays so when bytes are added |
| `Http.VerdictStands` | crates/omachat-nostr/src/nip11.rs:441-509 | What the bytes say, limits aside, once it is settled, is unchanged by further bytes and by the end of the stream |
| `HttpCuts.CutsAgreeIff` | crates/omachat-nostr/src/nip11.rs:408-437 | All cuts of a stream into reads of at most `limit` bytes end the same if and only if it has no blank line, or says itself that it is too large, or cannot be read within header limit and cap, or cannot run into them; in terms of the length, the end of the first blank line, the least settled front part and the cap |
| `HttpCuts.CutEnds` | crates/omachat-nostr/src/nip11.rs:408-437 | Every cut ends with what the stream says or with the size error, and each only under its condition |
| `HttpCuts.ReadableCut` | crates/omachat-nostr/src/nip11.rs:418-436 | A cut that reads what the stream says, whenever there can be one |
| `HttpCuts.HeaderCut` | crates/omachat-nostr/src/nip11.rs:446-451 | A cut that ends in the size error inside a header block longer than its limit |
| `HttpCuts.TrailingCut` | crates/omachat-nostr/src/nip11.rs:429-432 | A cut whose last read brings bytes past the cap after a complete answer |
| `HttpWitness.LongHeaderDisagrees` | crates/omachat-nostr/src/nip11.rs:446-451 | For every document limit and read size of at least two, a stream on which two cuts differ because of its header block |
| `HttpWitness.TrailingByteDisagrees` | crates/omachat-nostr/src/nip11.rs:429-432 | For every document limit and read size of at least two, a stream with the largest allowed document on which two cuts differ because of one byte after it |
| `Http.ExchangeLoop` | crates/omachat-nostr/src/nip11.rs:418-436 | The read loop computes the specification of the exchange |
| `LineDecoder.DrainIff` | crates/omachat-proto/src/ipc.rs:532-555 | The loop succeeds exactly when every line and the fragment are good, and then returns the lines' values and keeps the fragment |
| `LineDecoder.HopelessIsTooLarge` | crates/omachat-proto/src/ipc.rs:519-529 | The early refusal only says sooner what the loop would say |
| `LineDecoder.PushAllIsDrain` | crates/omachat-proto/src/ipc.rs:518-556 | Pushing pieces is draining the whole, for every way to cut it |
| `LineDecoder.CutIndependence` | crates/omachat-proto/src/ipc.rs:518-556 | For every stream and every cut, no push fails if and only if every line is within the limit and decodes and the fragment is within the limit; then output and buffer are the lines' values and the fragment; the bridge agrees |
| `LineDecoder.SameError` | desktop/bridge.py:51-65 | Even the error is the same for two cuts |
| `LineDecoder.FailsAtFirstBad` | crates/omachat-proto/src/ipc.rs:518-556 | However a stream is cut, a failure is the error of its first bad line: too long, or what decoding it says; or the fragment is too long |
| `LineDecoder.FailedPushLeaves` | crates/omachat-proto/src/ipc.rs:519-556 | After a failed push the buffer holds what stood after the bad line, or nothing when the fragment was too long or the refusal came early |
| `LineDecoder.UnreadFromFirstBad` | desktop/bridge.py:51-65 | The bridge keeps everything from its first bad line on, or after it when the value is no object |
| `LineDecoder.EncodedComesBack` | crates/omachat-proto/src/ipc.rs:567-576 | Encoded lines come back as the values they were written from |
| `LineDecoder.RequestDecoder.constructor` | crates/omachat-proto/src/ipc.rs:511-516 | A new decoder has an empty buffer |
| `LineDecoder.RequestDecoder.PushBytes` | crates/omachat-proto/src/ipc.rs:518-556 | Result and buffer are those of the specification, on success and on every error, from any buffer; as long as no push failed the buffer is the fragment of all bytes received |
| `LineDecoder.FragmentEmptyIff` | crates/omachat-proto/src/ipc.rs:558-564 | A stream leaves no fragment if and only if it is empty or ends at a line break |
| `LineDecoder.RequestDecoder.Finish` | crates/omachat-proto/src/ipc.rs:558-564 | Unless a push failed, complete exactly when all bytes received end at a line break |
| `LineDecoder.BridgeLines.constructor` | desktop/bridge.py:48-49 | A new bridge decoder has an empty buffer |
| `LineDecoder.BridgeLines.Feed` | desktop/bridge.py:51-65 | Result and buffer are those of the specification; on an error too |
| `Replaceable.RelayListCache.constructor` | crates/omachat-nostr/src/relay_list_cache.rs:46-48 | A new cache is empty |
| `Replaceable.RelayListCache.InsertEvent` | crates/omachat-nostr/src/relay_list_cache.rs:58-102 | Answer and cache are those of the specification, and every failed insertion, undone or refused, leaves the cache as it was |
| `Replaceable.InsertAllConverges` | crates/omachat-nostr/src/relay_list_cache.rs:58-102 | After any valid arrivals without a limit failure each author's entry is the event of greatest time and then lowest id among theirs |
| `Replaceable.RecordsArrived` | crates/omachat-nostr/src/relay_list_cache.rs:58-102 | After any arrivals, refused ones and limit failures included, every record is one that arrived, valid and verified in time, under its author and with its own verification time |
| `Replaceable.OrderIndependence` | crates/omachat-nostr/src/relay_list_cache.rs:58-102 | Any order of the same events leaves the same event for every author |
| `Replaceable.SelectWins` | crates/omachat-nostr/src/replaceable_discovery.rs:139-147 | The discovery rule selects the winner |
| `Replaceable.Discover` | crates/omachat-nostr/src/replaceable_discovery.rs:125-174 | The query loop returns the winner of the valid events it took, once enough relays have finished; without one it reports that there is none; closed or rejected exactly at the first delivery that says so, and a timeout only at the end |
| `Replaceable.DiscoveryAgrees` | crates/omachat-nostr/src/replaceable_discovery.rs:125-174 | When the deliveries that count for the query carry an author's arrivals, in any order and number, the selection that the query loop returns is the event that the cache keeps, and is none exactly when the cache has none |
| `Replaceable.LoadLoop` | crates/omachat-nostr/src/relay_list_cache.rs:158-183 | The loading loop computes the specification, errors included |
| `Replaceable.LoadIff` | crates/omachat-nostr/src/relay_list_cache.rs:158-183 | Any list of records loads if and only if it is not too long, no author comes twice, each record is admissible now and the cache fits after each; then it loads as itself |
| `Replaceable.InsertionsBuild` | crates/omachat-nostr/src/relay_list_cache.rs:58-102 | Insertions keep each record under its author, verified no earlier than it was made, and the limits |
| `Replaceable.LoadBuilds` | crates/omachat-nostr/src/relay_list_cache.rs:158-183 | So does loading |
| `Replaceable.SaveLoad` | crates/omachat-nostr/src/relay_list_cache.rs:124-183 | A cache so built, saved, loads as itself if and only if each record is still valid at the new time |
| `Replaceable.InsertedSaveLoad` | crates/omachat-nostr/src/relay_list_cache.rs:58-183 | In particular every cache that any insertions, accepted or not, build from an empty one |
| `Bindings.RunKeepsAccounts` | crates/omachat-server/src/storage.rs:239-313 | Over every run handles are pairwise distinct, each key is bound to at most one account, and every bound account has a handle |
| `Bindings.HandlesAreForLife` | crates/omachat-server/src/storage.rs:239-261 | A handle once set never changes, and no account disappears |
| `Bindings.Nip05Iff` | crates/omachat-server/src/service.rs:389-427 | A name resolves to a key if and only if the account with that handle is bound to it |
| `BindingEffects.AccountIs` | crates/omachat-server/src/storage.rs:239-313 | In every run an account has the handle of its accepted claim and the key of its last accepted bind or unbind |
| `BindingEffects.BindResolves` | crates/omachat-server/src/service.rs:292-427 | After an accepted bind the name of the account's handle resolves to the proof's key, until an accepted bind or unbind of that account |
| `BindingEffects.UnbindResolves` | crates/omachat-server/src/service.rs:345-427 | After an accepted unbind it resolves to nothing, until then |
| `BindingEffects.BindAcceptedIff` | crates/omachat-server/src/service.rs:292-343 | At any point of any run a bind is accepted if and only if its proof is whole, in the window and signed by device and key for the account and its handle, its nonce is not in use and no other account has the key |
| `BindingEffects.BindRefusedAs` | crates/omachat-server/src/service.rs:292-343 | Which error it gets: unknown account, no handle, a nonce in use, a key taken, each exactly when |
| `BindingEffects.UnbindAcceptedIff` | crates/omachat-server/src/service.rs:345-387 | An unbind is accepted if and only if its proof is whole, in the window and signed by the device for the key bound at the time, and its nonce is not in use |
| `BindingEffects.BoundIsProven` | crates/omachat-server/src/service.rs:292-343 | In every run a bound key is there because of an earlier bind with that key, proven by both signatures |
| `BindingEffects.LogIsSpent` | crates/omachat-server/src/storage.rs:333-353 | In every run the nonces recorded are those of the proven requests, accepted or not, whose nonce was not in use, in order |
| `BindingEffects.ClaimAcceptedIff` | crates/omachat-server/src/storage.rs:239-261 | A claim is accepted if and only if its text spells a handle that no account has claimed, for an account that has claimed none |
| `BindingEffects.ParsesIff` | crates/omachat-crypto/src/account.rs:13-25 | A text is read as a handle if and only if it is that handle, or that after an `@` |
| `BindingEffects.DeviceIs` | crates/omachat-server/src/service.rs:165-200 | In every run a device has the account of its first accepted registration |
| `Bindings.NoReplay` | crates/omachat-server/src/service.rs:320-341 | Under a clock that never goes back, two acceptances of a nonce lie more than the window apart, and a proof not ahead of the clock at first is never accepted again |
| `Bindings.RefusedIff` | crates/omachat-server/src/storage.rs:333-353 | In every run a nonce is refused exactly while one of its recorded uses is in the window |
| `Bindings.BindReplayIff` | crates/omachat-server/src/service.rs:292-343 | An accepted bind request, sent again at any later point of any run, is accepted again if and only if its stamp still allows it, no use of its nonce is in the window, and no other account has taken the key |
| `Bindings.UnbindReplayIff` | crates/omachat-server/src/service.rs:345-387 | And an accepted unbind request, if and only if the stamp and the nonce allow it and the key bound by then is one its signature covers |
| `Bindings.ReplayNeedsFutureStamp` | crates/omachat-server/src/service.rs:473-483 | Either replay comes more than the window after the first acceptance and needs a stamp ahead of the clock then |
| `Bindings.ReplayPossibleIff` | crates/omachat-server/src/service.rs:473-483 | With no request in between, a bind proof is accepted again exactly after its nonce was forgotten and before its own window ends; there is such a moment exactly for proofs stamped ahead of the clock |
| `Bindings.AcceptedTwice` | crates/omachat-server/src/service.rs:292-343 | A run in which one bind proof, stamped ahead, is accepted at once and again after the window |
| `Bindings.ServeKeepsNonces` | crates/omachat-server/src/storage.rs:333-353 | Every request keeps each accepted nonce recorded until the clock has passed its window |
| `Bindings.Service.constructor` | crates/omachat-server/src/storage.rs:66-104 | A new service has no accounts, devices or nonces |
| `Bindings.Service.RegisterDevice` | crates/omachat-server/src/service.rs:165-200 | A known device keeps its account, a new one gets a fresh account with neither handle nor key |
| `Bindings.Service.ClaimHandle` | crates/omachat-server/src/storage.rs:239-261 | A handle is set only on an account without one and only if no account has it |
| `Bindings.Service.RememberNonce` | crates/omachat-server/src/storage.rs:333-353 | Prunes what is out of the window, then records the nonce or reports a replay |
| `Bindings.Service.BindNostr` | crates/omachat-server/src/service.rs:292-343 | The checks in order, the nonce consumed even if the key turns out to be taken, then the binding; what that brings about is `BindingEffects.BindResolves` and `BindingEffects.BindAcceptedIff` |
| `Bindings.Service.UnbindNostr` | crates/omachat-server/src/service.rs:345-387 | The checks in order, the nonce consumed, then no key bound |
| `TokenBucket.Limiter.constructor` | crates/omachat-server/src/session.rs:626-633 | A new bucket is full |
| `TokenBucket.Limiter.TakeOne` | crates/omachat-server/src/session.rs:635-648 | One call, with both nanosecond clock readings, the two roundings and the 32-bit saturation, is the specification's step |
| `TokenBucket.Accrual` | crates/omachat-server/src/session.rs:635-648 | All that was granted and is left was there before or was earned by elapsed time |
| `TokenBucket.RestartsWhenEarned` | crates/omachat-server/src/session.rs:635-644 | Over any calls the interval measured next began at the second reading of the last call that earned a whole token |
| `TokenBucket.RateBound` | crates/omachat-server/src/session.rs:625-649 | Since creation at most the capacity and rate times time are granted |
| `TokenBucket.WindowBound` | crates/omachat-server/src/session.rs:625-649 | For every burst and rate, in any window of calls of any run, less is granted than the capacity, rate times window, one token, and what the rate gives in a millisecond |
| `TokenBucket.BoundedIff` | crates/omachat-server/src/session.rs:625-649 | For every burst, rate and slack: all windows of all runs stay below the capacity, rate times window and the slack if and only if the slack exceeds what each possible first refill of a window gains from before it |
| `TokenBucket.OneTokenIff` | crates/omachat-server/src/session.rs:636-637 | A slack of one token is enough at every burst if and only if the rate divides 1000 or is zero; the default rate of 20 does |
| `TokenBucket.WindowExceeded` | crates/omachat-server/src/session.rs:636-637 | At a rate of 30 and a burst of 2, two requests after 33.999999 ms and two after 67 ms are all granted |

## Left out

- Cryptographic primitives, base64, JSON, UTF-8 validation and URL parsing: functions with stated laws, not models.
- Task abort, future cancellation and shutdown deadlines: a run is a sequence of completed steps.
- Reconnect delays and their jitter, ping and idle timers, health reporting: they decide when a step happens, not what it does.
- Pool publishing with its acknowledgement threshold, and pool shutdown: they only collect results.
- The inbox's author blocking, the message history of the chat actor, identity import and export: easy members.
- Terminal and desktop user interface, command-line parsing, configuration files and limit validation.
- The bridge's request table and deadlines in desktop/bridge.py: only its line decoder is modelled.
- RelayWire.WireSafety: a frame whose send failed counts as sent, so the log may hold one frame more than the relay saw.
- Contact.ReadProfile: works on bytes as numbers; that each is below 256 is a hypothesis of the laws, not a type.
- Contact links: case mapping is that of ASCII and of the Kelvin sign; other letters with a case only change which error is reported. White space is what JavaScript trims.
- ContactLaws.UnsealEncode: the checksum register takes five bits of each word, so prefixes with characters from 1024 on, which the program never uses, are not modelled faithfully.
- Nip44.PaddedBounds: lengths are unbounded; the overflow checks of the program cannot fail below its 1 MiB limit.
- GiftWrap.SignedVerifies: a signature that does not parse and one that does not verify are one error.
- GiftWrap.OpenCreated: building the chat rumor from recipients, and drawing random material, are not modelled.
- Panic.SomeThreadMoves: the read/write lock has no queue, while the real one lets new readers wait behind a waiting writer.
- Panic.EraseExclusion: mutex poisoning is not modelled, and stopping the chat and the hosted service is one step.
- SealedStore.RecordDirectory.AtomicWrite: file permissions are not modelled; a failure to set them is a failing step.
- SealedStore.RecordsAreWhole: a record is its envelope; sealing and opening envelopes is not modelled.
- Migration.RecordsSurvive: within a tree the key file, the marker and each record count as durable once written, since their writes flush; only the entry of the records directory and the parent directory may fall back.
- HttpCuts.CutsAgreeIff: letters beyond ASCII count as no white space; the machine is a 64-bit one and the build has no overflow checks, as in the release profile.
- LineDecoder.RequestDecoder.PushBytes: what one line means is a function; parsing and validating a request are not modelled.
- Replaceable.InsertAllConverges: verifying an event and serializing the cache are functions; ids are numbers in the order of their texts.
- Bindings.Nip05Iff: the document's relay list is not modelled.
- Bindings.Service.BindNostr: database failures other than the unique constraints are not modelled.
