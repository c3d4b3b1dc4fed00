# sigchat: a Dafny model of its state machines, stores and codecs

sigchat is a Signal client for Xous. This project models the parts of it that carry protocols,
persistent state or wire formats, and proves what they promise. Cryptographic primitives, sockets,
clocks and the operating system appear as abstract environments: function-valued parameters with
named laws (`Crypto.dfy`), or scripts of what the environment does at each step.

`dafny verify dfyconfig.toml` checks everything.

## Layout

| part | files | what is modelled |
|---|---|---|
| Provisioning socket worker | `WsServer.dfy`, `WsRuns.dfy`, `WsLink.dfy` | the loop over a script of turns, what holds of every run, and the worker interleaved with its blocking caller |
| Random-device descriptor | `UseFile.dfy` | any number of threads in `get_rng_fd`, one shared access or system call a step |
| TRNG fills | `Trng.dfy` | both backends' chunking loops over arrays, against one word stream |
| Storage | `PddbModel.dfy`, `Stores.dfy`, `Prekeys.dfy` | dictionaries of keys with delete-create-write, the five libsignal stores, saving prekeys |
| Account | `AccountCache.dfy`, `AccountCalls.dfy`, `AccountWrites.dfy`, `AccountLink.dfy`, `Accounts.dfy`, `Linked.dfy` | the write-through cache, creation, linking with crashes and failing writes, the object, and what is found after a link |
| Session | `Routing.dfy`, `Session.dfy`, `SessionRuns.dfy`, `Delivery.dfy`, `WsProto.dfy` | the receive loop, acknowledgements, keepalives, routing of envelopes, delivery |
| Sending | `Peer.dfy`, `OutgoingMessage.dfy`, `Content.dfy`, `Arrival.dfy` | the reply address and its JSON text, padding, both Content schemas, building a message, and its way to the other device's screen |
| Cryptographic framing | `Ctr.dfy`, `Cbc.dfy`, `DeviceName.dfy`, `Provisioning.dfy` | CTR mode over a counter array, CBC with PKCS#7, device names, the provisioning envelope |
| Shared | `Base.dfy`, `Decimal.dfy`, `Utf8.dfy`, `Wire.dfy`, `Crypto.dfy` | integers and their text, UTF-8, the protobuf wire format, primitives and their laws |
| Assumptions | `Laws.dfy` | for every law assumed of a library a small model that meets it, and the recovery theorems at that model |

Conventions: a Rust string or byte string that goes to storage is a Dafny `string` with one character
per byte; bytes on the wire are `seq<byte>`. Times are milliseconds. What the source mutates is a
class or an array here; each such method equates the new state with a specification function, and
the theorems are about these functions. Where a function mirrors the code, a theorem states what it
yields in other terms: literal constants, frames and fields, an encoder for every decoder, an observer
of the environment that does not look into the state.

## Where the code differs from what it is meant to do

Each of these is proved below, with the exact condition where there is one.

- `Account::set` is documented (`src/account.rs:15-25`) to update a field only after a successful
  write. The free function `set` (`src/account.rs:578-597`) reports success whatever happens, and
  `get` reads 256 bytes. On every mirrored key but the device id, memory agrees with storage exactly
  if the value fits and was written in full, or covers an old value that a failed delete left
  (`TextStaysCoherentIff`); for the device id exactly if all its digits were written, or what then
  stands there is the same number (`DeviceStaysCoherentIff`). So a link whose write of an identity
  key fails still ends in a registered account, without the key (`LinkedUsableIff`,
  `AnyLinkUsableIff`).
- After a failed delete, a successful write of `true` over `false` leaves `truee`, and the next
  `Account::read` panics (`TrueOverFalsePanics`).
- Linking does not update the timestamp and manifest fields in memory, so it leaves memory and
  storage in agreement exactly if these had their initial values, or the account is a primary
  device, for which linking does nothing (`LinkStaysCoherentIff`).
- A crash during a link leaves only usable registered accounts exactly if the account is a primary
  device or had neither the flag nor a service id before: linking a secondary device again is not
  safe (`CrashesAreSafeIff`). Between creation and write of the service id an account counts as
  registered with an empty service id (`EmptyServiceIdCounts`); a service id cut inside a character
  loses the registration again (`RegisteredStays`).
- A page does not come back unfilled only if a later wait displaced it or an IPC error ended the
  loop: a page lent with an unknown opcode, or with a Cancel, comes back unfilled too, exactly as
  `UnfilledIff` says and `StrayPageComesBackUnfilled` shows.
- The two ACI and PNI prekeys of a kind share one dictionary and draw their ids independently: the
  ACI record loads exactly if the ids differ or the records are equal (`UploadedIdsLoad`).
- The peer text does not escape quotes: it parses back exactly for names without one and devices
  1 to 127 (`ParseUndoesPrintIff`), and a name with one comes back cut there
  (`RecipientIsCutAtQuote`). A write cut short names another device exactly if it ends between two
  digits (`TornSetMisdirectsIff`; `TornSetMisdirects` is one).
- The two Content schemas do not accept the same bytes: the sender's skips what the receiver
  decodes as a SyncMessage. They agree exactly if every tag-2 field merges (`SchemasAgree`);
  `SchemasDiffer` is an input on which they do not.
- The comment at `src/manager/main_ws.rs:250-253` wants an application keepalive on connecting.
  The subtraction saturates, so the first iteration sends one exactly if the clock reads at least
  55000 (`FirstKeepaliveIff`).
- Delivering a sent transcript slices the destination at byte 8, which panics exactly off a
  character boundary (`PanicsIff`); for every such destination there is a transcript that does
  (`TranscriptIsShown`, one of them in `OffBoundaryPanics`). Such a request is the only one left
  without its acknowledgement (`RequestsAreAnswered`).
- `fill_bytes` asserts for requests of more than 4080 bytes (`FillBytes`).

## Model

| member | source | states |
|---|---|---|
| UseFile.StepKeepsInv | imports/getrandom-02/src/use_file.rs:31-65 | one step of any thread keeps the invariant that ties mutex, critical section, opens and FD together, and never changes an FD already stored |
| UseFile.RunKeepsInv | imports/getrandom-02/src/use_file.rs:31-65 | so does every interleaving of any number of threads |
| UseFile.OpenedOnceSameFdForAll | imports/getrandom-02/src/use_file.rs:31-65 | at most one thread in the critical section, one successful open of the device, one store of FD, and one descriptor in all successful results |
| UseFile.QuietMeansReleased | imports/getrandom-02/src/use_file.rs:57-65 | when every call has returned, on whichever path, the mutex is free and no descriptor of /dev/random is open |
| UseFile.PublishedFdIsFinal | imports/getrandom-02/src/use_file.rs:33-47 | once FD is stored no continuation of the run changes it |
| UseFile.SomeThreadCanMove | imports/getrandom-02/src/use_file.rs:69-94 | no deadlock: a thread in a call can step, or the holder of the mutex can |
| UseFile.OpenedOnlyAfterPoll | imports/getrandom-02/src/use_file.rs:54-94 | where /dev/urandom may be weak, each descriptor of it was opened by a thread whose poll of /dev/random had succeeded in the same call |
| UseFile.FailuresAreAnswers | imports/getrandom-02/src/use_file.rs:71-94 | a call fails only with the error number its last system call answered, and never with EINTR |
| UseFile.ErrorsAreReturned | imports/getrandom-02/src/use_file.rs:57-94 | a call whose last system call failed, other than to be repeated, returns that error, and any other one a descriptor |
| Trng.SerialiseAt | src/getrandom_xous.rs:44-55 | byte i of the serialised words is byte i mod 4 of word i div 4 |
| Trng.DueAt | imports/getrandom-02/src/xous.rs:74-103 | what a request is due depends at byte i only on word i div 4, so chunking leaves no trace |
| Trng.DueSpellsWords | imports/getrandom-02/src/xous.rs:74-103 | every four bytes due recombine, lowest first, to the next word of the stream |
| Trng.TwoMoreWords | imports/getrandom-02/src/xous.rs:74-85 | a 64-bit draw serialises as two successive words in stream order |
| Trng.FillFromTrng | src/getrandom_xous.rs:58-71 | for every length the buffer becomes the first n bytes of exactly ceil(n/4) stream words |
| Trng.FillRemainder | imports/getrandom-02/src/xous.rs:117-136 | what is left after whole pages is the first bytes of ceil(n/4) words, exactly up to 4080 bytes |
| Trng.FillTail | imports/getrandom-02/src/xous.rs:95-103 | the tail below 8 bytes uses one or two words and completes the same stream |
| Trng.FillBuf | imports/getrandom-02/src/xous.rs:50-59 | a page of up to 1020 words receives the next words of the stream; a longer one is refused |
| Trng.FillBytes | imports/getrandom-02/src/xous.rs:107-138 | succeeds exactly up to 4080 bytes, and then yields the same stream bytes and word count as the scalar path |
| WsServer.WsResultBuf.Fill | src/manager/ws_server.rs:337-369 | filling the page in place sets the status 0 to 4 of the result, with its length and bytes, and the page decodes as exactly that result |
| WsServer.FillPage | src/manager/ws_server.rs:337-369 | on a message with a page the reply is what the client decodes from the page; one without a page loses the result |
| WsServer.LoopState.Service | src/manager/ws_server.rs:217-252 | what one message, with or without a page, does to slot, waiter, pages and replies, and whether the loop goes on |
| WsServer.LoopState.Deadline | src/manager/ws_server.rs:254-258 | a passed deadline fills an empty slot |
| WsServer.LoopState.Ping | src/manager/ws_server.rs:260-272 | a due Ping moves the time of the last send, or fills the slot with an error |
| WsServer.LoopState.Read | src/manager/ws_server.rs:274-315 | what each frame puts into an empty slot, over-long frames included |
| WsServer.LoopState.DeliverPending | src/manager/ws_server.rs:317-324 | a parked waiter is handed a pending result, and both are cleared |
| WsServer.WorkerLoop | src/manager/ws_server.rs:211-332 | the loop over any script of turns, its deadline counted in seconds from its start, logs exactly what the run of the five phases and the exit sequence log |
| WsRuns.ResultsFollowEvents | src/manager/ws_server.rs:216-325 | first event wins at every delivery: the k-th result handed out is the first terminal event offered since the delivery before it, where only a passed deadline, a failed due Ping, a binary frame (an error above 65536 bytes), a close frame and a read error are events; pending and waiter are never both set at the loop head |
| WsRuns.PassRecords | src/manager/ws_server.rs:254-324 | one pass moves the slot as an observer of the environment alone moves its ledger of first offers, an offer after a delivery in the same pass included |
| WsRuns.IdlePass | src/manager/ws_server.rs:274-315 | a pass without a message, with the deadline ahead, no Ping due and a frame that is neither data nor the end of the connection (a read that timed out, say) does nothing at all |
| WsRuns.LoopEndsIff | src/manager/ws_server.rs:217-252 | the loop ends at the first Cancel or IPC error and by nothing else |
| WsRuns.FilledFits | src/manager/ws_server.rs:274-315 | every result written to a page fits in it |
| WsRuns.PagesConserved | src/manager/ws_server.rs:216-252 | for every page, on a message of any opcode, times received equals times returned plus times parked, at every point of every run |
| WsRuns.ExitReturnsEveryPage | src/manager/ws_server.rs:216-332 | after the loop every received page has been returned exactly as often |
| WsRuns.UnfilledIff | src/manager/ws_server.rs:216-332 | over a whole run and its exit a page comes back unfilled exactly if a later wait displaced it, it came in on a Cancel or an unknown opcode, or an IPC error ended the loop with it parked |
| WsRuns.StrayPageComesBackUnfilled | src/manager/ws_server.rs:238-245 | a page on an unknown opcode comes back unfilled with no wait displacing it |
| WsRuns.CancelsAreAnswered | src/manager/ws_server.rs:229-237 | for any client, each Cancel received gets one scalar reply and nothing else gets one; it ends the loop, and the SID is destroyed only afterwards |
| WsRuns.PassAtDeadlineAnswers | src/manager/ws_server.rs:254-258 | the first pass whose check sees the deadline passed answers a parked waiter |
| WsRuns.WaiterAnsweredByDeadline | src/manager/ws_server.rs:211-258 | with passes of at least a millisecond a parked waiter is answered within the time left |
| WsRuns.PingSpacing | src/manager/ws_server.rs:260-272 | while no result is pending, successful Pings are at least 25000 ms and less than 25000 ms plus two passes apart |
| WsRuns.TwoPingsPerMinute | src/manager/ws_server.rs:34-42 | with passes of at most 2.5 s two gaps between Pings fit in 60 s |
| WsLink.StepKeepsInv | src/manager/ws_server.rs:181-332 | every step of caller, worker or clock keeps the joint invariant and never changes an answer given |
| WsLink.LinkProtocol | src/manager.rs:260-281 | in every interleaving the wait has one answer, the first terminal event the environment offered, byte for byte and never `Cancelled`: `TimedOut` only from 180 s on, `Error` only for a failed Ping, a read error or an over-long frame; the cancel gets one scalar reply; the SID goes only after it |
| WsLink.AnsweredWithinTwoPasses | src/manager/ws_server.rs:115-153 | a blocked wait is answered at the latest two passes after the deadline |
| WsLink.CancelledWithinOnePass | src/manager/ws_server.rs:155-166 | a blocked cancel has its scalar reply within one pass |
| WsLink.NeverStuck | src/manager.rs:260-281 | some step is always possible until both sides are through |
| Decimal.ParseOfPrint | src/account.rs:200-218 | parsing a printed number gives it back exactly if it fits the target type |
| Decimal.PrintIsDecimal | src/account.rs:200-218 | a printed number is its digits from 0 to 9, without a leading zero |
| PddbModel.WriteThenRead | src/manager/stores.rs:162-168 | after a write that reported success the key reads as the new data exactly if the old value was gone or no longer, and otherwise as the new data with the tail of the old |
| PddbModel.FailedWriteForgets | src/manager/stores.rs:162-168 | a write that fails to create the key has already lost the old value |
| PddbModel.Pddb.WriteBinary | src/manager/stores.rs:162-168 | delete, create, write, with the failing delete ignored |
| PddbModel.Pddb.ReadBinary | src/manager/stores.rs:155-160 | a read finds the key's content, its absence, or fails |
| PddbModel.Pddb.DeleteKey | src/manager/stores.rs:196-203 | a delete removes that key, reports absence, or fails |
| Stores.AddressKeyInjective | src/manager/stores.rs:80-109 | `name.device` determines name and device, even when names hold dots and digits |
| Stores.MarkKeyInjective | src/manager/stores.rs:290-331 | distinct (kyber id, ec id, base key) tuples have distinct keys |
| Stores.MarkIsNoId | src/manager/stores.rs:267-331 | no replay mark is the key of a Kyber record, although both live in one dictionary |
| Stores.PddbIdentityStore.SaveIdentityKey | src/manager/stores.rs:80-109 | the in-place method is the specified save: unchanged keys are not rewritten, an unreadable old one counts as replaced |
| Stores.PddbIdentityStore.IsTrustedIdentity | src/manager/stores.rs:111-128 | trust on first use, errors included |
| Stores.PddbIdentityStore.GetIdentityKey | src/manager/stores.rs:130-137 | the stored key, none, or an error |
| Stores.PddbPreKeyStore.GetPreKey | src/manager/stores.rs:176-185 | the record, or which error |
| Stores.PddbPreKeyStore.SavePreKey | src/manager/stores.rs:187-194 | serialise and write, errors included |
| Stores.PddbPreKeyStore.RemovePreKey | src/manager/stores.rs:196-203 | removes that key only |
| Stores.PddbSignedPreKeyStore.GetSignedPreKey | src/manager/stores.rs:223-235 | the record, or which error |
| Stores.PddbSignedPreKeyStore.SaveSignedPreKey | src/manager/stores.rs:237-247 | serialise and write, errors included |
| Stores.PddbKyberPreKeyStore.GetKyberPreKey | src/manager/stores.rs:267-276 | the record, or which error |
| Stores.PddbKyberPreKeyStore.SaveKyberPreKey | src/manager/stores.rs:278-288 | serialise and write, errors included |
| Stores.PddbKyberPreKeyStore.MarkKyberPreKeyUsed | src/manager/stores.rs:290-331 | rejects a tuple already marked, otherwise writes its mark |
| Stores.PddbSessionStore.LoadSession | src/manager/stores.rs:351-358 | the stored session, none, or an error |
| Stores.PddbSessionStore.StoreSession | src/manager/stores.rs:360-370 | serialise and write, errors included |
| Stores.StepRefines | src/manager/stores.rs:80-370 | one call on any store answers as five independent maps and a set of marks do, and keeps the correspondence |
| Stores.StoresRefineMaps | src/manager/stores.rs:80-370 | so does every sequence of calls in any mixture |
| Stores.MarkSucceedsOnce | src/manager/stores.rs:290-331 | over any run, marking a tuple succeeds exactly if no earlier call marked it, whatever records were saved |
| Stores.IdentityIsLastSaved | src/manager/stores.rs:80-137 | over any run the identity is the last one saved, and a key is trusted exactly if it is that one or none was saved |
| Stores.OnlyOwnSlotChanges | src/manager/stores.rs:80-370 | whatever storage does, a call leaves every key but the one it names, spelled out for each, as it was |
| Stores.FailedReadIsReported | src/manager/stores.rs:80-358 | a call whose read fails reports that and changes nothing: no identity is trusted, no key taken for missing, none overwritten |
| Stores.WriteIsReportedIff | src/manager/stores.rs:80-370 | a call that has to write stores its record exactly if the record serialises and the write completes, and otherwise reports the error |
| Stores.RemoveIsReportedIff | src/manager/stores.rs:196-203 | a prekey is gone exactly if its removal reports success |
| AccountCache.ReadAfterSet | src/account.rs:554-597 | after a successful write a key reads as the first 256 bytes of its value if these are UTF-8, and every other key as before |
| AccountCache.OtherKeysKept | src/account.rs:578-597 | whatever storage does to a write, the other keys read as before |
| AccountCache.SetKeepsCoherent | src/account.rs:485-522 | a successful set of a readable value on a mirrored key keeps memory equal to what a read rebuilds |
| AccountCache.SetsKeepCoherent | src/account.rs:485-522 | so does every sequence of them |
| AccountCache.SetsKeepUpToStore | src/account.rs:485-522 | for sequences on any settable keys memory and storage agree up to the three `store_*` fields |
| AccountWrites.LandsIff | src/account.rs:554-597 | what a set leaves reads back as the value exactly if that was written in full and fits, or covers what a failed delete left |
| AccountWrites.TextStaysCoherentIff | src/account.rs:485-522 | on every mirrored key but the device id, memory and storage stay in agreement exactly if the value landed, whatever delete and write do |
| AccountWrites.DeviceStaysCoherentIff | src/account.rs:492-492 | for a printed device id exactly if all digits were written or, after a failed delete, the same number is left |
| AccountWrites.TrueOverFalsePanics | src/account.rs:578-597 | a flag written over one whose delete failed makes the next read panic |
| AccountWrites.SettingHostBreaksAccount | src/account.rs:485-522 | setting the host, which `set` does not know, deletes it, and the account no longer loads |
| AccountWrites.LeftAfter | src/account.rs:355-380 | after sets of distinct keys each key holds what its own delete and write left of its old content |
| AccountWrites.ClearStaysCoherentIff | src/account.rs:578-597 | clearing a text stays in agreement exactly if the delete succeeded or nothing was readable |
| AccountCalls.SeenAfter | src/account.rs:355-380 | after the first i of a sequence of sets, these keys have new values and the others old ones |
| AccountCalls.SeenAtCrash | src/account.rs:578-597 | what each key reads as at a crash between, or inside, the individual delete and write steps |
| AccountCalls.FatedAfter | src/account.rs:578-597 | with failing writes each key has what its own write left |
| AccountLink.NewAccountReads | src/account.rs:94-137 | a new account reads as the default one, whatever the dictionary held before |
| AccountLink.CrashIsSafe | src/account.rs:355-380 | from an unlinked account, at every crash point a read fails or an account that counts as registered has password, device id, both ACI keys and a service id |
| AccountLink.CrashesAreSafeIff | src/account.rs:278-380 | every crash point of a link is safe exactly if the device id is 1 and the account is flagged as registered or has service id and password, or it had neither the flag nor a service id before |
| AccountLink.FreshLinkIsSafe | src/account.rs:94-137 | from a new account every crash point of a link is safe, and a link that completes leaves memory equal to storage |
| AccountLink.RegisteredStays | src/account.rs:148-245 | once a read during a link finds a registered account, a later successful read, between steps or inside a write, loses it exactly if the service id was cut inside a character |
| AccountLink.EmptyServiceIdCounts | src/account.rs:424-432 | the point at which an account counts as registered with an empty service id |
| AccountLink.LinkedAccountReads | src/account.rs:355-380 | after a whole link a read finds exactly the linked values, and host, environment and PIN key as before |
| AccountLink.UnmirroredAreLinked | src/account.rs:355-380 | and finds both registration ids and, where one was provisioned, the account entropy pool |
| AccountLink.LinkStaysCoherentIff | src/account.rs:278-380 | linking keeps memory equal to storage exactly if timestamp and manifest had their initial values, or the device id is 1 and the account is flagged as registered or has service id and password |
| AccountLink.LinkLeavesPrimaryAlone | src/account.rs:278-281 | a link leaves an account untouched if its device id is 1 and it is flagged as registered or has service id and password, and otherwise storage reads as the linked values |
| AccountLink.LinkedUsableIff | src/account.rs:578-597 | with deletes that succeed and any writes: when the read succeeds, that the account then counts as registered, and that it is usable exactly if password, device id and both ACI keys were written in full and the service id up to a character boundary |
| AccountLink.AnyLinkUsableIff | src/account.rs:355-380 | whatever both deletes and writes of a link do: when the read succeeds, when the account counts as registered, and when it is usable |
| Accounts.PutKey | src/account.rs:578-597 | the free function `set` |
| Accounts.GetKey | src/account.rs:554-576 | the free function `get` |
| Accounts.Account.ReadFrom | src/account.rs:148-245 | hands back an account with exactly the stored values, `InvalidData`, or a panic, as specified |
| Accounts.ReadByKey | src/account.rs:148-245 | which missing key makes a read fail and which unparsable value makes it panic |
| Accounts.Account.New | src/account.rs:94-137 | writes the defaults in order and reads them back |
| Accounts.Account.SetValue | src/account.rs:485-522 | storage, field and result after one set, including the key it does not know and every value that panics |
| Accounts.Account.Link | src/account.rs:273-387 | refused, with nothing changed, exactly for device 1 of an account that is flagged as registered or has service id and password; otherwise what a link does to storage, fields and prekey stores, and its result, for every outcome of its writes |
| Prekeys.SaveToPddb | src/manager/prekeys.rs:81-111 | four saves in order, stopping at the first error |
| Prekeys.UploadedIdsLoad | src/manager/prekeys.rs:81-111 | after a save every PNI id loads its record, and an ACI id exactly if the ids differ or the records are equal |
| Prekeys.GeneratedIdsLoad | src/manager/prekeys.rs:56-76 | for draws and key material of the generator: each id is its draw modulo 2^24 - 1 plus one, the PNI ids load the records made of theirs, and an ACI id exactly if the two ids differ or the material is equal |
| Linked.KeyPairIsProvisioned | src/manager/stores.rs:53-69 | after a link the identity store hands out the provisioned key pair |
| Linked.RegistrationIdIsStored | src/manager/stores.rs:71-78 | and the registration id that was uploaded |
| Linked.TrimCutsSpace | src/manager/stores.rs:62-73 | white space around a text is cut off and nothing else |
| Linked.SpacedTextsAreRead | src/manager/stores.rs:53-78 | key pair and registration id are read without the white space around them, or which error |
| Linked.LocalAddressIsLinked | src/manager/outgoing.rs:217-233 | and the local address is the linked one, exactly for devices 1 to 127 |
| Peer.LocalAddressIff | src/manager/outgoing.rs:217-233 | on any storage the local address exists exactly if both values are text and the device a number from 1 to 127, and otherwise which error |
| Linked.AccountAndPrekeysAreLinked | src/account.rs:355-386 | and a read finds what was linked, and every uploaded prekey id its private record |
| Peer.ParseOfText | src/manager/outgoing.rs:267-298 | parsing finds the name up to its first quote and all the digits, whatever follows |
| Peer.ParsedNameIsUnquoted | src/manager/outgoing.rs:285-291 | a parsed name never holds a quote, whatever the text |
| Peer.ParseUndoesPrintIff | src/manager/outgoing.rs:240-298 | parsing undoes printing exactly for names without a double quote and devices 1 to 127 |
| Peer.SetCurrentRecipient | src/manager/outgoing.rs:240-255 | what is stored, and the error if the write fails |
| Peer.RecipientIsTheOneSetIff | src/manager/outgoing.rs:240-265 | the address set is the current recipient exactly under that condition |
| Peer.FailedSetLeavesNoRecipient | src/manager/outgoing.rs:248-253 | a failed attempt to set can leave no recipient |
| Peer.ParseOfPrint | src/manager/outgoing.rs:243-298 | for every address, parsing what was printed gives the name up to its first quote and the device of the first device field, wherever that stands |
| Peer.RecipientIsCutAtQuote | src/manager/outgoing.rs:240-265 | so does setting and reading the recipient; the device is the address's own unless the name holds a device field |
| Peer.TornSetReads | src/manager/outgoing.rs:248-252 | what a write of n bytes of the peer text reads back as, for every address and n |
| Peer.TornSetMisdirectsIff | src/manager/outgoing.rs:248-252 | an error, another device or the address itself, exactly as the write ended before the digits, between them or after |
| Peer.TornSetMisdirects | src/manager/outgoing.rs:248-252 | one such write |
| Delivery.DeliverContent | src/manager/main_ws.rs:615-645 | chat window and storage after one content, or the panic |
| Delivery.DeliverDataMessage | src/manager/main_ws.rs:647-657 | posts author, timestamp and body exactly if there is a body |
| Delivery.DeliverSyncMessage | src/manager/main_ws.rs:659-686 | posts a sent transcript under the cut destination, nothing, or panics |
| Delivery.PanicsIff | src/manager/main_ws.rs:659-686 | delivery panics exactly on a transcript with text whose destination has a continuation byte at index 8 |
| Delivery.DataIsShown | src/manager/main_ws.rs:615-657 | every data message that can be encoded is shown under its sender with its own timestamp (the server's if it has none) and body, and the sender is stored; without a body it leaves no trace |
| Delivery.TranscriptIsShown | src/manager/main_ws.rs:615-686 | every transcript that can be encoded is shown under an arrow and the first eight bytes of its destination, with the message's timestamp, else the transcript's, else the server's; it panics exactly off a character boundary, and without text leaves no trace |
| Delivery.OffBoundaryPanics | src/manager/main_ws.rs:659-686 | one plaintext on which delivery panics |
| Delivery.RepliesGoToLastSender | src/manager/main_ws.rs:615-686 | after any contents the reply goes to the sender of the last delivered message with text, exactly if its address survives printing, and in any case to what that address reads back as; with no such message it is what it was |
| Delivery.NoTextNoRecipient | src/manager/outgoing.rs:259-265 | without such a message there is no recipient |
| WsProto.AckReads | src/manager/main_ws.rs:385-400 | the server decodes an acknowledgement as that response |
| WsProto.KeepaliveReads | src/manager/main_ws.rs:275-287 | the server decodes a keepalive as that request |
| WsProto.MessageReads | src/manager/main_ws.rs:71-107 | every request and response that can be encoded decodes as it was encoded |
| WsProto.EnvelopeReads | src/manager/main_ws.rs:109-122 | so does every envelope |
| Routing.RoutedIsAttributed | src/manager/main_ws.rs:404-603 | whatever is delivered comes from a device 1 to 127, attributed to a certificate valid at the envelope's time or to the outer source, and decrypted under that address |
| Routing.RoutesIff | src/manager/main_ws.rs:404-603 | any bytes are routed to a plaintext, sender and time exactly if they decode as an envelope that yields them: type 6 by its certificate and inner type, types 3 and 1 by the outer source, everything else dropped |
| Routing.EncodedEnvelopeRoutesIff | src/manager/main_ws.rs:404-603 | so for every envelope a server can encode |
| Session.Loop.SendPing | src/manager/main_ws.rs:256-269 | a due Ping, its new time, or the end of the session |
| Session.Loop.SendAppKeepalive | src/manager/main_ws.rs:271-298 | a due keepalive with its id, the new time and next id, or the end of the session |
| Session.Loop.Read | src/manager/main_ws.rs:300-352 | what each frame does: ignored, the end of the session, or a request handled |
| Session.Loop.HandleRequest | src/manager/main_ws.rs:361-383 | what one request does, in which order |
| Session.RunSession | src/manager/main_ws.rs:234-357 | the loop over any script of turns ends in the state and log of the specified run |
| SessionRuns.RequestsAreAnswered | src/manager/main_ws.rs:335-400 | every request read is answered in order, first by processing the body of a PUT to /api/v1/message, then by a response 200 under its id (0 if absent); only a panic leaves the last one out |
| SessionRuns.AcksMatchRequests | src/manager/main_ws.rs:361-400 | one acknowledgement per request, the k-th with the id of the k-th (0 if absent) and status 200, as the server reads it |
| SessionRuns.EncodedRequestsAreHeard | src/manager/main_ws.rs:300-352 | of all messages a server can encode, a session that comes to its read hears exactly the requests of type 1, as they were encoded |
| SessionRuns.KeepalivesAreNumberedAndSpaced | src/manager/main_ws.rs:248-298 | keepalive ids are 1, 2, 3 and so on modulo 2^64, at least 55000 ms apart, none before clock 55000 |
| SessionRuns.FirstKeepaliveIff | src/manager/main_ws.rs:250-276 | the first iteration attempts one exactly if the clock reads at least 55000 |
| SessionRuns.DueKeepaliveIsSentIff | src/manager/main_ws.rs:271-298 | an iteration that stays in the loop sends one exactly if one is due |
| SessionRuns.IterationKeepalive | src/manager/main_ws.rs:271-298 | for every iteration: exactly when it sends a keepalive, which one, and the next id and time |
| SessionRuns.PingsAreSpaced | src/manager/main_ws.rs:247-269 | over a session each Ping is due at least 25000 ms after the one before was sent, the first that long after the start |
| SessionRuns.IterationPings | src/manager/main_ws.rs:256-269 | an iteration sends a Ping exactly if one is due and the send succeeds |
| SessionRuns.SessionEndsIff | src/manager/main_ws.rs:256-333 | an iteration ends the session exactly if a due Ping or keepalive cannot be sent or the read finds a close frame or an error; a failed acknowledgement does not |
| SessionRuns.SessionDelivers | src/manager/main_ws.rs:300-353 | a session changes chat window and storage as delivering its routed contents in order does |
| SessionRuns.SessionRepliesToLastSender | src/manager/main_ws.rs:625-634 | after any session the reply address is that of the last sender of text, exactly if the name has no double quote |
| Content.SchemasAgree | src/manager/main_ws.rs:125-161 | the receiver accepts bytes exactly if the sender's schema does and every tag-2 field merges as a SyncMessage, and then both read the same data message |
| Content.SchemasDiffer | src/manager/outgoing.rs:55-67 | two bytes that only the sender's schema accepts |
| Content.TranscriptReads | src/manager/main_ws.rs:133-161 | the receiver decodes every transcript as it was encoded |
| Content.DataRoundTrip | src/manager/main_ws.rs:125-131 | every data message decodes as it was encoded |
| Content.ReceiverReadsSender | src/manager/main_ws.rs:155-161 | the receiver decodes exactly the content the sender encoded |
| Content.SignalPad | src/manager/outgoing.rs:111-116 | the loop pads as specified |
| Content.StripSignalPadding | src/manager/main_ws.rs:609-613 | the loop strips as specified |
| Content.PaddedShape | src/manager/outgoing.rs:111-116 | padding adds 0x80 and then zeros up to the least multiple of 160 strictly above the length |
| Content.StripUndoesPad | src/manager/main_ws.rs:607-613 | stripping undoes padding on every byte string |
| Content.StrippedIff | src/manager/main_ws.rs:607-613 | on any bytes, what is left is the part before a 0x80 that only zeros follow, or else all but the zeros at the end |
| OutgoingMessage.BuildEncryptedMessage | src/manager/outgoing.rs:120-213 | the result for every outcome of the account, session, registration id and encryption |
| OutgoingMessage.BuildsIff | src/manager/outgoing.rs:120-186 | a message is built exactly if a readable session knows its registration id and encryption yields one of the two kinds, and then with type 1 or 3, the recipient's device, that id and the timestamp |
| OutgoingMessage.NoSessionIff | src/manager/outgoing.rs:143-151 | a missing session and one that cannot be read are told apart |
| OutgoingMessage.PlaintextDelivers | src/manager/outgoing.rs:132-141 | the padded plaintext of a message is delivered as that body and timestamp |
| OutgoingMessage.MessageArrives | src/manager/outgoing.rs:120-186 | a built message, carried in an envelope of its kind, is posted with exactly its body and timestamp, and the reply goes to its sender exactly if the name has no double quote |
| Arrival.MessageIsDelivered | src/manager/main_ws.rs:361-686 | a built message in the frame a server forwards it in is shown by the session that reads it with exactly its body and timestamp under its sender, acknowledged under the id of its request, and replied to at the sender exactly if the name has no double quote |
| Ctr.XorIsBitwise | src/manager/libsignal.rs:222-246 | bit i of an exclusive or is the sum modulo 2 of the two bits i |
| Ctr.XorTwice | src/manager/libsignal.rs:222-246 | xor with the same byte twice is the identity |
| Ctr.IncrementIsSuccessor | src/manager/libsignal.rs:237-244 | the increment with carry is addition of one on the big-endian counter |
| Ctr.CounterAfterIncrements | src/manager/libsignal.rs:227-244 | after n increments of sixteen zero bytes the counter reads big-endian as n modulo 2^128 |
| Ctr.IncrementCounter | src/manager/libsignal.rs:237-244 | the in-place carry loop computes that increment |
| Ctr.Aes256CtrEncrypt | src/manager/libsignal.rs:222-246 | succeeds exactly for 32-byte keys; byte i is plaintext i xor byte i mod 16 of the enciphered counter i div 16 |
| Ctr.CtrOutput | src/manager/libsignal.rs:222-246 | every bit of the output is the sum modulo 2 of the plaintext's and the key stream's, block n of which is the enciphered big-endian count n |
| Ctr.ZerosGiveKeyStream | src/manager/libsignal.rs:222-246 | zero bytes are enciphered to the key stream itself |
| Ctr.CtrTwice | src/manager/libsignal.rs:222-246 | enciphering twice is the identity |
| DeviceName.PrimaryRecoversName | src/manager/libsignal.rs:155-219 | the holder of the identity key recovers exactly the name, and the synthetic IV it recomputes is the stored one |
| DeviceName.FailsIff | src/manager/libsignal.rs:155-219 | encrypting fails exactly for a key that is no base64, no private key, or agrees on nothing |
| Cbc.DecryptUndoesEncrypt | src/manager/libsignal.rs:347-359 | CBC decryption undoes encryption on whole blocks |
| Cbc.EncryptUndoesDecrypt | src/manager/libsignal.rs:347-359 | and the other way round |
| Cbc.UnpadUndoesPad | src/manager/libsignal.rs:347-359 | removing PKCS#7 padding undoes adding it |
| Cbc.UnpadAcceptsOnlyPadded | src/manager/libsignal.rs:347-359 | only padded texts are accepted |
| Cbc.XorBlockIsBitwise | src/manager/libsignal.rs:347-359 | blocks are added bit by bit |
| Cbc.BlocksAreChained | src/manager/libsignal.rs:347-359 | each cipher block enciphers the sum of the text block and the cipher block before it, the first with the IV |
| Cbc.PadAddsItsLength | src/manager/libsignal.rs:347-359 | padding adds 1 to 16 bytes up to a whole block, each of them their number |
| Provisioning.SlicesPartition | src/manager/libsignal.rs:281-349 | the slices of a body of at least 65 bytes partition it |
| Provisioning.OpensExactlyBuilt | src/manager/libsignal.rs:324-359 | a body opens to a plaintext exactly if it is the one built from it |
| Provisioning.DecryptsExactlyBuilt | src/manager/libsignal.rs:281-359 | a whole envelope opens to a plaintext exactly if its key agrees and its body is one built from it; short bodies, another version than 1 and a wrong HMAC are each refused as such and in this order |
| Provisioning.KeyFailsIff | src/manager/libsignal.rs:296-323 | which key is to blame when a body is not even looked into |
| Provisioning.MissingPartIsNamed | src/manager/libsignal.rs:260-280 | a missing public key, body or request is reported as such |
| Provisioning.DecryptUndoesSeal | src/manager/libsignal.rs:260-359 | for every message, key pair and IV the envelope is accepted and yields the message |
| Provisioning.DecodeUndoesSeal | src/manager/libsignal.rs:414-433 | and so does the frame that carries the envelope |
| Wire.ReadOfVarint | src/manager/main_ws.rs:71-161 | a varint below 2^64 reads back with the rest untouched |
| Wire.VarintIsBase128 | src/manager/main_ws.rs:71-161 | a varint is its number in groups of seven bits, lowest first, all but the last marked, without leading zeros |
| Wire.GroupsAreRead | src/manager/main_ws.rs:71-161 | any such groups are read as their number exactly if they fit in 64 bits, leading zeros included |
| Wire.ShortFields | src/manager/main_ws.rs:71-161 | short fields byte by byte |
| Wire.LowHalfIsRead | src/manager/main_ws.rs:109-122 | a number too wide for a 32-bit field is read as its low half |
| Wire.ReadOfWritten | src/manager/main_ws.rs:71-161 | fields written in sequence read back in sequence |
| Utf8.CharsAreScalars | src/manager/main_ws.rs:71-161 | bytes begin with a character exactly if they begin with the encoding of a Unicode scalar value |

## Left out

- TLS, TCP, the WebSocket library, HTTP requests and the reconnect loop with its backoff.
- The Double Ratchet, X3DH and sealed-sender cryptography: `Routing.Decryptors` and `OutgoingMessage.Encryptor` stand for them, and what decryption writes to the stores is not part of the session model.
- Base64, X25519, HMAC, HKDF and AES are functions of which only the laws in `Crypto.dfy` are assumed.
- User interface, menus, the main loop, wifi, the `todo!()` operations of the manager.
- Decoding the decrypted ProvisionMessage into its fields, and building the REST body.
- Protobuf groups (wire types 3 and 4) are rejected; prost skips well-formed unknown groups.
- A recursion limit of the protobuf decoder; the schemas here nest at most four deep.
- `Host::parse` in `Account::read` is taken to accept every stored host and to leave it as it is.
- Reads of the account's dictionary that fail are taken as absent keys, as the code does; the model has no separate fault for them.
- `str::trim` is modelled for ASCII white space only (`Linked.Trim`).
- Overflow of the worker's deadline in 64 bits, and failure to create a Ticktimer.
- Serialisation failures inside `fill_buf`; pages are mutable lends, and replying to a Cancel counts as sent whatever became of it.
- UseFile.StepKeepsInv: threads are a step relation with one shared state, not a class; memory ordering is sequentially consistent.
- WsServer.WorkerLoop: the environment is a finite script of turns, so a statement about all runs is one about all finite prefixes.
- Session.RunSession: likewise a finite script; logging is not modelled.
- Accounts.Account.Link: everything before the first write (decoding, key generation, the request to the server) is one parameter that is either a refusal or the data to store.
- Accounts.Account.SetValue: the two deletes of an unknown key meet the same fate.
- AccountLink.LinkedUsableIff: deletes succeed; `AccountLink.AnyLinkUsableIff` is about the rest.
- AccountWrites.DeviceStaysCoherentIff: for device ids as they are printed, which is how the code writes them.
- Prekeys.GeneratedIdsLoad: key generation and signing, and their failures, are left out.
- Trng.FillBytes: requests beyond 4080 bytes are reported as failures where the code asserts.
- OutgoingMessage.MessageArrives: encryption and decryption are one step each; the ratchet state they share is not modelled.
