# Gossveil: a model and its proofs

Gossveil encrypts messages between devices. This project models the parts of it whose correctness is
spread over many calls, and proves what those parts are for:

- **Circles** (group sender keys). A sender owns a hash chain and seals each note under the next step.
  A receiver keeps up to five chains per sender, each with at most 2,000 keys for steps it has passed.
  Notes arrive late, twice, out of order or never, and the whole state is written to bytes and read
  back between any two calls.
- **The bytes underneath.** The varint and field codec, CBC with padding, the two group messages, the
  circle record, the certificate chain of a sealed envelope, the multi-recipient listing.
- **The boundary to the host.** Who owns each buffer across one ABI call and across one wasm call.
- **The host's stores.** Text keys, group operations that load, call and store, trust on first use, in
  every interleaving of calls at their awaits.

Where a property is false of the code, the code is kept and the exact condition is proved: see
`Presence.ReopensIffNotKept` (a note opens twice), `Awaits.StepsDistinctIffAlone` and
`Awaits.OpensApartIffAlone` (overlapping seals, overlapping opens), `TrustRuns.OpensOnLatestIff` and
`TrustRuns.PrekeyUsedOnceIff` (first messages under way), `TrustAwaits.PinStaysIffAgreed` and
`TrustAwaits.SessionNamedIffAgreed` (pins and sessions across awaits), `SessionDelivery.FirstMessageArrives`
and `SessionDelivery.UsedPrekeyNeverOpens` (first messages that cannot open), `Listing.ListingRoundTrip`,
`Names.OwnKeyIsMessageKey`, `Names.BarsCollideIff`, `Codec.OverrunsIff`, `Bridge.RunCall` and
`Abi.OnlyBadBodySpendsKey`.

## How it is built

The Zig core's pure parts (links, versions, key forms) are functions. What the source changes in place is
changed in place here too: `Reader`, `Writer`, `Member`, `Circle`, `Call`, `Buffer`, `Cursor` and the
stores are classes, and every loop of the source is a loop. Each such method is proved equal to a function
of its inputs and the old state, and the properties are lemmas about those functions.

The central device is the **window** of a chain (`Windows.Window`): where it was joined, the next step, the
steps used and a floor below which passed keys were dropped. `Windows.Tracks` says that a member's link is
the announced seed iterated to its step and that its kept keys are the keys of exactly the unused steps
between floor and link, lowest first. Every call keeps it (`Calls.CallKeepsHeld`) and moves the window by
consuming the step it used (`Runs.RunConsumesHistory`); every statement over whole runs follows from that.

| module | what it holds |
|---|---|
| Basics, Codec, Wire | widths, faults, varints and fields; the reader, the writer and the field walk |
| Suites, Cbc | the cryptography as uninterpreted functions with a concrete instance; block chaining |
| Chains, Records, RecordCodec, Posts, Cipher | the circle core, file by file |
| Windows, Calls, Runs, Presence, Sender, Admission | the circle protocol over whole runs |
| Ownership, Abi, Bridge | buffers across the ABI and across linear memory; the circle exports on bytes |
| Names, ServiceIds, GroupStore, Awaits | text keys; group operations that are atomic, and ones that await |
| Trust, TrustStores, TrustRuns, TrustAwaits | identities pinned on first use, as a state machine and as store objects; first messages under way |
| Certificates, Contents, Listing | the sealed envelope's nested messages and its recipients |
| Formats, Meanings | the bytes of every message and record written out, and what any bytes mean as one |
| Limits | the bounds and the faults of a circle in numbers |
| StoreDelivery, SessionDelivery | delivery from one host to another, through their stores |

## Assumptions

- Cryptography is a `Suites.Suite` of arbitrary functions. `Lawful` says that a block decrypts to what was
  encrypted and that a signature verifies under its signer's key; `Ideal`, used only where named, adds that
  it verifies under no other, and `Unforged` that nothing verifies but what was signed.
  `Suites.LawsAreConsistent` exhibits a suite with all of it. Secrecy and collision resistance are not
  claimed.
- Randomness (chain ids, seeds, key pairs, signature nonces) and clocks are parameters.
- The pairwise session calls are a `Trust.Core` of arbitrary functions on record bytes. `NamesIdentities`
  says only what a record's live state names after a start, a seal, an open and a shelving (as in
  `core/ratchet/engine.zig:47-216` and `core/ratchet/archive.zig:38-61`);
  `ConsumesNamed`, used only where named, that a new session consumes the one-time prekey its message names.
  `Trust.NamesIdentitiesIsConsistent` exhibits a core with all of it. `Delivers` and `DeliversFirst`, used only
  in `SessionDelivery`, say for some relation between two devices' records that what one seals next the other
  opens to its plaintext (`core/ratchet/engine.zig:71-184`); `Trust.DeliveryIsConsistent`
  exhibits one. Messages lost or out of order in a session are the ratchet's matter and are not claimed.
- Lengths fit 64 bits. A host's in-memory store takes effect when it is called, so between two awaits
  nothing else runs.
- A checked integer overflow (a step past the last one, a version wider than a byte) ends the process: the
  fault `Trap`. A call that traps hands out nothing.

## Model

| member | source | states |
|---|---|---|
| Codec.ReadsWrittenVarint | core/wire/codec.zig:80-104 | A varint written at any group position with room for it reads back exactly and leaves what follows. |
| Codec.ReadsWrittenField | core/wire/codec.zig:44-78 | Every writable field of any of the four kinds reads back exactly, with the bytes after it untouched. |
| Codec.ScansWrittenFields | core/wire/codec.zig:36-93 | Reading a written message gives back its fields in order, each exactly, and stops at the end without an error. |
| Codec.OverrunsIff | core/wire/codec.zig:70-73 | A message overruns the position, which ends the process, exactly when its scan stops at a byte field whose length added to the position passes 64 bits; by the row above no written message does. |
| Codec.LongestLengthOverruns | core/wire/codec.zig:70-73 | The longest length, under any field number, is one that does. |
| Formats.VarintMeans | core/wire/codec.zig:80-92 | Any varint at all, overlong ones included, is worth its groups of seven bits, lowest first; of a tenth group one bit counts, an eleventh is an overflow and an end inside is a truncation. |
| Formats.VarintBytes | core/wire/codec.zig:95-104 | The one to five bytes of every 32-bit varint, written out. |
| Formats.WordBytes | core/wire/codec.zig:144-149 | The eight bytes of every 64-bit word, lowest first, written out. |
| Formats.TagsRefused | core/wire/codec.zig:46-55 | Field number zero and the kinds three, four, six and seven are bad tags. |
| Formats.WordRead | core/wire/codec.zig:64-69 | A field of kind five is four bytes, lowest first. |
| Wire.Reader.NextVarint | core/wire/codec.zig:80-92 | The shift loop on a 64-bit word computes the varint's value, and tells truncation from overflow, ten groups included. |
| Wire.Reader.Next | core/wire/codec.zig:44-78 | The in-place reader agrees with the field at the front of what is left, and moves past it; a length that passes the machine word at this position is told from one that only passes the end. |
| Wire.PutVarint | core/wire/codec.zig:95-104 | The writing loop leaves the varint of any 64-bit value in the scratch buffer, in at most ten bytes. |
| Wire.Writer.PutUint | core/wire/codec.zig:129-134 | Appends exactly the encoding of a number field. |
| Wire.Writer.PutBytes | core/wire/codec.zig:136-142 | Appends exactly the encoding of a byte field. |
| Wire.Writer.PutWord64 | core/wire/codec.zig:144-149 | Appends exactly the encoding of a 64-bit little-endian field. |
| Wire.Writer.PutUintIfSet | core/wire/codec.zig:155-158 | Appends the field, or nothing for zero. |
| Wire.Walk | core/circle/record.zig:64-108 | A field loop over the reader equals the fold over the fields, a field's own fault coming before an unreadable end, and an overrun being a trap. |
| Suites.PublicRoundTrip | core/keys/curve.zig:23-34 | Public key parsing undoes serialising and accepts exactly a five and 32 bytes; another length is a bad key, another first byte an unknown type. |
| Suites.SecretRoundTrip | core/keys/sign.zig:12-18 | Clamping is idempotent and changes five bits of a secret at most, so a held secret survives its own bytes. |
| Suites.LawsAreConsistent | core/keys/curve.zig:36-81 | The assumptions on the cryptography, the strongest included, hold of a concrete suite. |
| Cbc.RoundTrip | core/keys/cipher.zig:11-47 | Opening undoes sealing for every plaintext, empty and whole-block ones included, and the sealed length is the next whole block. |
| Cbc.XorIsBitwise | core/keys/cipher.zig:21 | Mixing two blocks is the exclusive or of every bit of every byte. |
| Cbc.PaddedIs | core/keys/cipher.zig:12-21 | The padded text is the plaintext, then as many bytes as fill the last block, each that many; one block more when the text is whole blocks. |
| Cbc.SealedBlock | core/keys/cipher.zig:15-25 | Every block of a sealed text is the encryption of the padded block mixed with the sealed block before it, the first with the vector. |
| Cbc.ShortSeal | core/keys/cipher.zig:11-27 | A text of less than sixteen bytes under a zero vector seals to the encryption of that text and its padding alone. |
| Cbc.OpensIff | core/keys/cipher.zig:29-47 | Which bytes open, to which plaintext, and which fault the others give, from the deciphered blocks alone. |
| Cbc.CbcSeal | core/keys/cipher.zig:11-27 | The block loop computes the chained encryption of the padded plaintext. |
| Cbc.CbcOpen | core/keys/cipher.zig:29-47 | The block loop and the padding loop compute opening, with each fault where the code has it. |
| Chains.SeedAfterAdds | core/circle/chain.zig:10-12 | Stepping a seed n and then m times is stepping it n + m times. |
| Records.Member.KeepSkipped | core/circle/record.zig:28-31 | Appending and trimming leaves the newest 2,000 of the old keys and the new one. |
| Records.Member.TakeSkipped | core/circle/record.zig:33-36 | Takes out the first key of the step and nothing else, or changes nothing. |
| Records.Circle.ByChain | core/circle/record.zig:130-133 | Finds the first member of the chain, or none when there is none. |
| Records.Circle.TakeChain | core/circle/record.zig:138-150 | The removal loop leaves exactly the members of other chains, in order, and keeps the first one under the same key. |
| Records.Circle.Admit | core/circle/record.zig:137-157 | Admission is: filter out the id, keep four, put the kept or new member in front. |
| RecordCodec.CircleRoundTrip | core/circle/record.zig:159-182 | Parsing a serialised circle gives back the same circle for any members at all: dropped zeros, optional secrets, any number of kept keys. |
| RecordCodec.MemberRoundTrip | core/circle/record.zig:38-108 | The same of one nested member. |
| RecordCodec.RecordsAreDistinct | core/circle/record.zig:159-169 | Two circles with the same record are the same circle. |
| RecordCodec.MemberBytesOrderIsFree | core/circle/record.zig:64-108 | What bytes mean as a member depends only on the fields under each of its five numbers, in their order; unknown fields and interleaving change nothing. |
| RecordCodec.Serialize | core/circle/record.zig:159-169 | The nested writers produce exactly the circle's bytes. |
| RecordCodec.ParseCircle | core/circle/record.zig:171-182 | The parser builds new member objects with exactly the states the bytes mean, or reports their fault. |
| RecordCodec.WriteMember | core/circle/record.zig:38-62 | One member's nested writers produce exactly its fields' bytes. |
| Formats.RecordForm | core/circle/record.zig:159-169 | A circle's record byte by byte: tags, lengths, dropped zeros, members newest first. |
| Formats.MemberForm | core/circle/record.zig:38-62 | A member's bytes: chain id, link, keys, kept keys and version, in that order. |
| Formats.JoinedRecordForm | core/circle/record.zig:38-62 | The record of a chain just joined at step zero, byte by byte; the zero step is absent. |
| Formats.OwnRecordForm | core/circle/record.zig:38-62 | The record of our own chain before its first note, with its secret. |
| Formats.RecordedAnnounceIsKept | conformance/vectors/s4_sender_keys.json:5-8 | The announcement recorded there parses to its parts, and admitted into an empty circle leaves exactly the record recorded there. |
| Meanings.MemberMeans | core/circle/record.zig:64-108 | A member without a number has its default, one without keys is refused, and each field four is one kept key. |
| Meanings.SeedMeans | core/circle/record.zig:64-108 | A link or a kept key without a step is at zero, the last fields counting. |
| Meanings.KeyFieldMeans | core/circle/record.zig:81-90 | A pair of keys field by field: which bytes are a key, a secret, nothing, or a fault. |
| Posts.AnnounceRoundTrip | core/circle/post.zig:35-90 | A made announcement parses back to every field, zero ids and steps included, exactly when the version's low nibble is the one spoken, and to the right version fault otherwise. |
| Formats.AnnounceForm | core/circle/post.zig:35-47 | An announcement byte by byte: 0x33, then each field's tag, length and content. |
| Formats.SmallAnnounceForm | core/circle/post.zig:35-47 | The same of small numbers as one run of bytes. |
| Meanings.AnnounceMeans | core/circle/post.zig:55-90 | What any bytes mean as an announcement: the first wrong field decides the fault, a missing number is a bad message, otherwise the last field of each number is its part. |
| Formats.VersionsRefused | core/circle/post.zig:55-60 | Whatever follows, a first byte below 0x30 is a legacy version and one from 0x40 on an unknown one; a note too short for its signature is a bad message. |
| Posts.NoteRoundTrip | core/circle/post.zig:107-157 | The same of a note, exactly when besides the signer can sign. |
| Formats.NoteForm | core/circle/post.zig:107-120 | What a note's signature is made over, byte by byte. |
| Formats.SmallNoteForm | core/circle/post.zig:107-120 | The same of small numbers as one run of bytes. |
| Meanings.NoteMeans | core/circle/post.zig:128-162 | What any bytes mean as a note, with the fault of every other, and that the signature covers all before it. |
| Posts.MadeNoteVerifies | core/circle/post.zig:159-162 | A made note verifies under its signer's key and, with ideal signatures, under no other. |
| Posts.MakeAnnounce | core/circle/post.zig:35-47 | The writer makes exactly the announcement's bytes and parses them. |
| Posts.MakeNote | core/circle/post.zig:107-120 | The signature is made over the version byte and all four fields and appended last. |
| Posts.ParseNote | core/circle/post.zig:128-157 | Parsing leaves the last 64 bytes to the signature and reads the fields before it. |
| Posts.ParseAnnounce | core/circle/post.zig:55-90 | Parsing gives what the bytes mean, with the version fault first and each missing field a bad message. |
| Cipher.KeepsOneMore | core/circle/cipher.zig:58 | Keeping one key more and trimming equals the closed form: the last 2,000 of the old keys followed by the keys of every passed step. |
| Cipher.TakeYield | core/circle/cipher.zig:54-61 | The skip-forward loop equals the closed form; a passed step gives its kept key or is a replay, and more than 25,000 ahead is refused with nothing changed. |
| Cipher.AnnounceOwnChain | core/circle/cipher.zig:16-24 | Creates our chain only in an empty circle and announces its current link. |
| Cipher.SealNote | core/circle/cipher.zig:30-43 | Seals under the current step and advances only when a note was made. |
| Cipher.OpenNote | core/circle/cipher.zig:45-52 | Finds the member, checks version then signature, takes the step's key and opens; what a fault leaves changed is stated too. |
| Limits.OpenRefused | core/circle/cipher.zig:45-48 | Every way an open is refused before its step is looked at, in order, the circle unchanged. |
| Limits.SealRefused | core/circle/cipher.zig:30-43 | Every way a seal is refused, and otherwise the note's exact bytes. |
| Limits.AdmitRefused | core/circle/cipher.zig:16-28 | An admission answers nothing or its announcement's fault; a first announcement wants a usable secret. |
| Limits.AheadInNumbers | core/circle/cipher.zig:57 | For every tracked member at next step n an honest note at any step from n to n + 25,000 opens to its plaintext, every later one is a bad message, and the last step of all traps. |
| Limits.PassedInNumbers | core/circle/record.zig:28-36 | After a note k steps past the joining is opened first, an earlier one opens exactly when it is at most 2,000 steps before it. |
| Limits.SixthEvictsFirst | core/circle/record.zig:151-156 | Six different chains admitted in turn: the first five are all held, the sixth evicts the first. |
| Windows.YieldForTracks | core/circle/cipher.zig:54-61 | Taking any step from a tracked member either refuses as its window says or gives that step's own key and tracks the window with the step consumed. |
| Windows.KeptExactly | core/circle/record.zig:16-36 | In every tracked member the kept keys are those of exactly the passed, unused steps at or above the floor, strictly increasing, all below the link, at most 2,000. |
| Windows.FloorKeepsNewest | core/circle/record.zig:28-31 | Trimming always drops the lowest steps. |
| Calls.CallKeepsHeld | core/circle/cipher.zig:16-61 | Every call, failed ones included, keeps ids unique, at most five members, and every member tracked. |
| Calls.UsedWasFree | core/circle/cipher.zig:30-61 | A step that a call uses was not used before, and is marked used after. |
| Calls.AdmittedStaysHeld | core/circle/record.zig:137-157 | An admission keeps the invariant: a known chain keeps its window, a new one starts an empty one. |
| Runs.NoStepTwice | core/circle/cipher.zig:30-61 | While a member stays, no step of its chain is used twice, to open or to seal, whatever is admitted, re-announced, opened or refused in between. |
| Runs.DeliveredNoteOpens | core/circle/cipher.zig:45-61 | After any run, an honest note is a replay if from before the announcement or used, is refused if more than 25,000 ahead, and otherwise opens to exactly its plaintext; of passed steps exactly those below the floor are refused, and the floor stays put while passed unopened steps never exceed 2,000. |
| Runs.ReopensOnlyWhenForgotten | core/circle/record.zig:135-157 | Where a chain's announcement is admitted and the step is used if the member is still there, an honest note for the step opens if and only if the member was gone and the step is in reach of the announcement: the one-call half of the run-level result below it. |
| Presence.ReopensIffNotKept | core/circle/record.zig:135-157 | A note opened once, any calls that do not announce its chain under its own key, the chain's announcement: the same note opens once more if and only if the calls in between did not keep the member, which is read off their announcements alone, and its step is in reach. |
| Presence.ReopensIffCrowdedOut | core/circle/record.zig:135-157 | Where the chain is not announced at all in between, the condition is that five other chains are ahead of it or admitted. |
| Presence.ForgottenStepReopens | core/circle/record.zig:135-157 | One history that does it: open, admit five other chains, admit the chain again, open again. |
| Presence.SwappedKeyReopens | core/circle/record.zig:142-149 | Another, with no other chain: open, admit the chain under another key, admit it under its own again, open again. |
| Presence.PresentAfterIffStays | core/circle/record.zig:135-157 | Over calls that do not announce the chain under its own key, the member is there in the end exactly when the calls keep it. |
| Presence.FiveOthersEvict | core/circle/record.zig:151-156 | Five admissions of different other chains evict any member. |
| Presence.PresentIffStays | core/circle/record.zig:135-157 | A member is present throughout a run exactly when, from the announcements in the calls alone, its key is never changed and five others are never admitted since it was last in front. |
| Presence.PresentIffFewOthers | core/circle/record.zig:135-157 | Over calls that do not announce the chain, the member is there in the end exactly when fewer than five others are ahead of it or admitted. |
| Presence.CallKeepsPresence | core/circle/record.zig:137-157 | One call: whether the member stays and who is ahead of it, exactly. |
| Presence.NoStepTwiceWhileKept | core/circle/cipher.zig:30-61 | No step used twice, with the member's presence read off the calls. |
| Presence.DeliveredWhileKept | core/circle/cipher.zig:45-61 | Delivery, with the member's presence read off the calls. |
| Runs.RunConsumesHistory | core/circle/cipher.zig:45-61 | Over any run the window of a member that stays is its start with exactly the used steps consumed, in order. |
| Sender.OwnRun | core/circle/cipher.zig:16-43 | Over any announcements and seals, failed ones included, our chain has moved exactly one step per note made. |
| Sender.SealMakesNote | core/circle/cipher.zig:30-43 | A seal makes the honest note of the current step exactly when the signer can sign and a step is left; otherwise nothing moves. |
| Sender.NoteAfterRun | core/circle/cipher.zig:30-43 | Notes carry consecutive steps from zero. |
| Sender.NoteBytesAfterRun | core/circle/cipher.zig:30-43 | The bytes of that note: version 3, its circle, chain and step, the plaintext sealed under the key of the seed stepped once per note before, signed by the chain's secret. |
| Sender.FirstSeeds | core/circle/chain.zig:10-16 | The seeds behind the first notes: the chain's own, stepped zero, one and two times, and one time more for each note. |
| Sender.AnnouncementAfterRun | core/circle/cipher.zig:16-24 | An announcement taken after k notes hands over the link of note k. |
| Sender.FirstAnnouncement | core/circle/cipher.zig:17-21 | The first announcement creates the chain at step zero and reads like any later one. |
| Sender.SealedNoteArrives | core/circle/cipher.zig:16-61 | End to end: a note sealed after any run at the sender, delivered after any run at a receiver that joined by any announcement, is answered as its step deserves: replay, too far, or exactly the plaintext. |
| Sender.FirstNoteArrives | core/circle/cipher.zig:16-61 | The shortest such history, from an empty sender and an empty receiver, does open to the plaintext. |
| Admission.HeldAreMostRecent | core/circle/record.zig:135-157 | After any run from an empty circle the chains held are exactly the five most recently admitted distinct ids, most recent first. |
| Admission.MovingKeepsRecency | core/circle/record.zig:152-156 | Moving an id to the front and dropping past five keeps "the five most recent" for every history. |
| Ownership.Call.Give | abi/gossveil.zig:118-126 | Registers the cell empty, then gives it a copy; live memory is what it was plus one buffer per filled cell. |
| Ownership.Call.Close | abi/gossveil.zig:128-137 | On a fault every registered cell is emptied and memory is exactly what it was before the call; on success nothing changes. |
| Ownership.ReleasesOwner | abi/gossveil.zig:169-171 | Freeing one cell's buffer and emptying the cell leaves the others owning theirs. |
| Ownership.AddsOwner | abi/gossveil.zig:118-126 | Pointing an empty cell at a new buffer keeps every buffer owned by exactly one cell. |
| Ownership.Memory.Alloc | abi/gossveil.zig:173-176 | A new buffer at an address not live before, or none exactly when the allocator, which may be any at all, refuses the request. |
| Ownership.Memory.Free | abi/gossveil.zig:169-171 | Takes exactly one live buffer, with its own length. |
| Abi.Export | abi/gossveil.zig:666-729 | A circle export hands out the answer and the new record exactly when the call succeeds and the allocator meets each request in turn; any fault hands out no record and leaves memory as it was. |
| Abi.Perform | abi/gossveil.zig:666-729 | On a loaded circle each export does its circle call with the same faults, a circle id of the wrong length included. |
| Abi.Work | abi/gossveil.zig:666-729 | Loading, performing and serialising answers exactly as the request on bytes. |
| Abi.LoadCircle | abi/gossveil.zig:149-151 | No bytes are an empty circle; any others are parsed or refused. |
| Abi.RequestIsCall | abi/gossveil.zig:666-729 | A request on the record bytes of any reachable circle answers as the circle call, and leaves the bytes of the circle it leaves. |
| Abi.RequestRefused | abi/gossveil.zig:666-729 | A record that cannot be read is its own fault, and then a circle id of another length than sixteen. |
| Abi.FaultsAtHost | abi/gossveil.zig:50-93 | Every fault reaches the host, through its status, under the name the host has for it. |
| Abi.RunOnRecordIsRun | abi/gossveil.zig:149-151 | Any run with the record saved and loaded around every call is the run on the circle itself. |
| Abi.HeldRecordIsSmall | core/circle/record.zig:159-169 | A reachable circle's record is at most 1,600,000 bytes, so it can always be written. |
| Abi.OnlyBadBodySpendsKey | core/circle/cipher.zig:45-52 | Among failing opens exactly those whose signed body does not open under a key its window still has change the circle in memory; a trap happens exactly for a last step that is near enough, and leaves the keys passed on the way. |
| Bridge.RunCall | sdk/ts/src/bridge.ts:7-61 | Any inputs, outputs and pads, any status, any allocator, a throwing reader: the export sees exactly the inputs, the caller gets exactly the outputs and pads, and live memory is what it was, except exactly when building stopped after a first reservation or the export trapped with an output cell. |
| Bridge.TallyJoins | sdk/ts/src/bridge.ts:18-46 | The inputs, pads and blocks of arguments in a row are those of the first and then those of the rest. |
| Bridge.TallyOfOne | sdk/ts/src/bridge.ts:18-46 | What one argument alone gives the export and reserves. |
| Bridge.HaltsAtFirst | sdk/ts/src/bridge.ts:18-46 | Building halts at the first argument that cannot be pushed, with the blocks of exactly those before it. |
| Bridge.Call.Finish | sdk/ts/src/bridge.ts:48-61 | Everything reserved is freed once with its own length whatever the status; a trap leaves exactly the output cells. |
| Bridge.Take | sdk/ts/src/core.ts:188-199 | Copies an output out, then frees its buffer and its cell. |
| Bridge.NewIn | sdk/ts/src/core.ts:163-172 | An input is copied into a block of its own; an empty one reserves nothing. |
| Bridge.NewOut | sdk/ts/src/core.ts:180-186 | A cell is reserved with two zero words. |
| Bridge.NewPad | sdk/ts/src/core.ts:203-211 | A pad is reserved and zeroed in its length; a pad of no bytes is out of range, since its address is past the end of memory. |
| Bridge.Call.PushBytes | sdk/ts/src/bridge.ts:22-27 | Pushes the input and, in order, its address and length. |
| Bridge.Call.PushOut | sdk/ts/src/bridge.ts:34-39 | Pushes the cell and its address. |
| Bridge.Call.PushPad | sdk/ts/src/bridge.ts:41-46 | Pushes the pad and its address. |
| Bridge.Build | sdk/ts/src/bridge.ts:18-46 | Building stops at the first argument whose request is refused or whose pad has no bytes; then exactly the blocks reserved before it stay live. |
| Bridge.Releasing | sdk/ts/src/core.ts:174-176 | A region that is due is live with its length, and freeing it leaves exactly the others due. |
| Names.AddressIsInjective | sdk/ts/src/wasm-api.ts:42-44 | Address text tells name and device apart for any name, dots included. |
| Names.DecimalIsWorth | sdk/ts/src/wasm-api.ts:42-44 | A device number is written by its value, without leading zeros. |
| Names.OneKey | sdk/ts/src/wasm-api.ts:309-311 | One key in full. |
| Names.LowersLetters | sdk/ts/src/wasm-api.ts:309-311 | Letters of an id are lowered one by one and nothing else changes. |
| Names.KeyIsInjective | sdk/ts/src/wasm-api.ts:309-311 | Two record keys are equal if and only if name, device and id up to case are, or a bar in one id lets its key be read as the other's. |
| Names.BarsCollideIff | sdk/ts/src/wasm-api.ts:309-311 | An id's key is also that of a shorter id if and only if the id has a bar and the text before it ends in a dot and a decimal device. |
| Names.BarsCollide | sdk/ts/src/wasm-api.ts:309-311 | The shortest such pair of different devices. |
| Names.TextReadsBack | sdk/ts/src/uuid.ts:4-16 | Bytes written as text read back as the same bytes. |
| Names.TextIs | sdk/ts/src/uuid.ts:12-16 | The text of an id character by character: high digit first, lower case, hyphens after eight, twelve, sixteen and twenty digits. |
| Names.OtherIdsRefused | sdk/ts/src/uuid.ts:4-10 | Any other character, or another number of digits, is a bad argument. |
| Names.HyphenatedIsAccepted | sdk/ts/src/uuid.ts:4-10 | Hyphenated text in either case is accepted, and its bytes print as its lower-case form. |
| Names.OwnKeyIsMessageKey | sdk/ts/src/wasm-api.ts:707-734 | For an accepted id, the key built from its text equals the one rebuilt from message bytes if and only if the text is hyphenated. |
| Names.UuidToBytes | sdk/ts/src/uuid.ts:4-10 | The loop computes the bytes of the thirty-two digits, hyphens anywhere being ignored. |
| ServiceIds.EncodingsReadBack | sdk/ts/src/api.ts:250-299 | Text, fixed and compact forms of both kinds read back. |
| ServiceIds.AcceptedIsCanonical | core/ident/service.zig:32-59 | What either byte form accepts is the encoding of what it reads as. |
| ServiceIds.FormsAre | core/ident/service.zig:18-59 | The three forms written out: kind zero and bare text for an account, kind one and a mark for a phone identity. |
| ServiceIds.AcceptedForms | core/ident/service.zig:32-59 | Exactly which byte forms are accepted; every other one is a bad argument. |
| GroupStore.RunsApart | sdk/ts/src/wasm-api.ts:707-734 | Over any run of group operations, each stored record is its own requests run on it alone. |
| GroupStore.NoStepTwiceInStore | sdk/ts/src/wasm-api.ts:719-734 | However many group calls overlap on one store, no two use the same step of a chain, to seal or to open, while the circle keeps it. |
| GroupStore.NotesAreConsecutive | sdk/ts/src/wasm-api.ts:719-725 | Over any run of operations, our record has moved one step per note of ours. |
| GroupStore.NextNoteStep | sdk/ts/src/wasm-api.ts:719-725 | The next note carries the first step plus the notes made so far, so steps are pairwise distinct and consecutive. |
| GroupStore.KeysAreTriples | sdk/ts/src/wasm-api.ts:306-330 | For hyphenated ids in either case, store keys are equal exactly for the same name, device and id bytes. |
| StoreDelivery.SameRecordIff | sdk/ts/src/wasm-api.ts:713-734 | A distribution is kept where a note is looked up if and only if both come from one device and one circle. |
| StoreDelivery.AnswersAsCall | sdk/ts/src/wasm-api.ts:707-734 | After any run of operations, what one answers is what its call replies on the circle that the operations on its record ran. |
| StoreDelivery.EncryptedArrives | sdk/ts/src/wasm-api.ts:707-734 | Two stores: distribute and encrypt after any operations of ours, then process, any operations that keep the chain, and decrypt; the answer is the plaintext, a replay or a bad message as the step deserves. |
| StoreDelivery.FirstMessageDecrypts | sdk/ts/src/wasm-api.ts:707-734 | The shortest such history, from stores without a record: distribute, encrypt, process, decrypt gives the plaintext. |
| StoreDelivery.NothingWithoutRecord | sdk/ts/src/wasm-api.ts:719-734 | Without a record neither sealing nor opening finds a session, and nothing is written. |
| GroupStore.CreateSenderKeyDistribution | sdk/ts/src/wasm-api.ts:707-711 | Loads, announces and stores, with the faults in the code's order; a failure writes nothing. |
| GroupStore.ProcessSenderKeyDistribution | sdk/ts/src/wasm-api.ts:713-717 | The same for admitting. |
| GroupStore.EncryptGroupMessage | sdk/ts/src/wasm-api.ts:719-725 | The same for sealing; a missing record comes first. |
| GroupStore.DecryptGroupMessage | sdk/ts/src/wasm-api.ts:727-734 | The same for opening; an unreadable note comes first. |
| Awaits.StepsDistinctIffAlone | sdk/ts/src/api.ts:1148-1154 | Any number of seals that await between load and save, in any schedule: their steps are pairwise distinct if and only if no call loads while another is still to save. |
| Awaits.AloneIsSerial | sdk/ts/src/api.ts:1143-1163 | Calls that never overlap leave the circle, and give each caller the reply, that the calls one after another would. |
| Awaits.AloneUsesStepsOnce | sdk/ts/src/api.ts:1143-1163 | Calls of any kind that never overlap never use a step of a kept chain twice, to seal or to open. |
| Awaits.OpensApartIffAlone | sdk/ts/src/api.ts:1156-1163 | Any schedule of opens, on a circle some note opens on: no choice of the notes uses a step twice if and only if no call loads while another is still to save. |
| Awaits.OpenedOnceIffFirstAlone | sdk/ts/src/api.ts:1156-1163 | Any number of opens of the same note, which opens, in any schedule: its step is used once if and only if the first call has saved before another loads; otherwise two calls both give its plaintext. |
| Awaits.OverlappingOpensAgree | sdk/ts/src/api.ts:1156-1163 | In any schedule, two of the same call under way on the same loaded circle answer alike, whatever is saved meanwhile: of two opens of a note the second is no replay. |
| Trust.PinsNeverChange | sdk/ts/src/wasm-api.ts:540-646 | In every interleaving of the calls at their awaits, no pin changes once set and every stored session with a live state names its pinned identity. |
| Trust.SegmentKeepsPins | sdk/ts/src/wasm-api.ts:540-646 | One segment of any call keeps both. |
| Trust.AnsweredIsPinned | sdk/ts/src/wasm-api.ts:548-599 | A call that answers at once leaves its address pinned to the identity its stored session names, the bundle's own for a bundle. |
| Trust.CommitKeepsPins | sdk/ts/src/wasm-api.ts:540-545 | A commit is refused only for a differing pin, and otherwise keeps every pin. |
| SessionDelivery.WhisperArrives | sdk/ts/src/wasm-api.ts:584-645 | Between two hosts with paired sessions, what one encrypts the other decrypts to the plaintext, and they stay paired. |
| SessionDelivery.ConversationIsHeard | sdk/ts/src/wasm-api.ts:584-645 | Any number of messages, in turn either way, with anything else going on at both hosts: each is heard as it was said, or could not be sealed. |
| SessionDelivery.FirstMessageArrives | sdk/ts/src/wasm-api.ts:611-639 | A first message over any interleaving: one segment for each prekey it names, one that opens it, one that removes a prekey; every segment but the last waits, and the last gives the plaintext if and only if the one-time prekey was there when asked for and no other identity was pinned by then. |
| SessionDelivery.ResumeOnCourse | sdk/ts/src/wasm-api.ts:617-639 | One segment of it, whatever happened since the last, with the only two ways to throw. |
| SessionDelivery.FirstMessagePairs | sdk/ts/src/wasm-api.ts:631-639 | The session a first message leaves is the one its sender's opens replies of, unless another call stored there. |
| SessionDelivery.UsedPrekeyNeverOpens | sdk/ts/src/wasm-api.ts:618-623 | A first message that names a used one-time prekey never opens: a second message of the same sender before any reply waits at most once and throws. |
| SessionDelivery.BundlePins | sdk/ts/src/wasm-api.ts:548-582 | First contact starts, stores and pins; another identity for the address is refused from then on. |
| SessionDelivery.EndedIsSilent | sdk/ts/src/wasm-api.ts:286-293 | After archiving or removing a session nothing is encrypted to its address, and its pin stays. |
| TrustRuns.OpensOnLatestIff | sdk/ts/src/wasm-api.ts:611-637 | A first message and anything else in between: when it comes to open, the record it loaded is the one the last call at its address left if and only if none wrote there, where records do not repeat; what it commits replaces whatever was written. |
| TrustRuns.CommitsWhatItLoaded | sdk/ts/src/wasm-api.ts:631-632 | What is committed is a function of the record loaded before the awaits. |
| TrustRuns.PrekeyUsedOnceIff | sdk/ts/src/wasm-api.ts:617-636 | Over any run in which every call that reads a one-time prekey goes on to use it, it is used at most once if and only if no call reads it while another has read it and not used it yet. |
| TrustRuns.GoneIsHeldOnly | sdk/ts/src/wasm-api.ts:620-636 | Once dropped, a one-time prekey is used at most once more by each call that had read it, and by no other. |
| TrustStores.IdentityStore.Save | sdk/ts/src/wasm-api.ts:183-187 | Pins the identity and tells exactly whether it replaced another. |
| TrustStores.SessionStore.Archive | sdk/ts/src/wasm-api.ts:286-289 | Shelves a stored record, and does nothing without one. |
| Trust.NamesIdentitiesIsConsistent | core/ratchet/engine.zig:47-216 | The assumptions on the session calls hold of a concrete core. |
| Trust.DeliveryIsConsistent | core/ratchet/engine.zig:47-216 | So do those on delivery, with records that are paired and greet each other. |
| TrustStores.Host.Commit | sdk/ts/src/wasm-api.ts:540-545 | Checks, pins and stores, or changes nothing; it keeps every pin and every session under its pin. |
| TrustStores.Host.ProcessPreKeyBundle | sdk/ts/src/wasm-api.ts:548-582 | The object-level operation is the state machine's segment; it keeps every pin and every session under its pin. |
| TrustStores.Host.EncryptMessage | sdk/ts/src/wasm-api.ts:584-598 | The same; it stores the sealed record and pins nothing; it keeps every pin and every session under its pin. |
| TrustStores.Host.DecryptWhisper | sdk/ts/src/wasm-api.ts:640-645 | The same for a message of an existing session; it keeps every pin and every session under its pin. |
| TrustStores.Host.BeginFirst | sdk/ts/src/wasm-api.ts:612-617 | The same for the first segment of a first message, up to its first await; it keeps every pin and every session under its pin. |
| TrustStores.Host.Continue | sdk/ts/src/wasm-api.ts:617-639 | The same for each later segment: missing prekeys end the call, the last one opens, commits and lets go of the prekeys; it keeps every pin and every session under its pin. |
| TrustAwaits.PinStaysIffAgreed | sdk/ts/src/api.ts:1107-1112 | With awaits between check, save of the pin and save of the session, the pin never changes if and only if calls about to pin at once never hold different identities for the address. |
| TrustAwaits.SessionNamedIffAgreed | sdk/ts/src/api.ts:1095-1112 | Exactly under the same condition does the stored session name the pinned identity after every event, sends included, which store a session and pin nothing. |
| TrustAwaits.FirstContactsCollide | sdk/ts/src/api.ts:1107-1112 | Two overlapping first contacts with different identities break both. |
| Certificates.SplitsJoined | core/envelope/certificate.zig:16-34 | Splitting a joined body and signature gives both back. |
| Certificates.ServerRoundTrip | core/envelope/certificate.zig:46-85 | A made server certificate parses back to its id, key, signed body and signature. |
| Certificates.SenderRoundTrip | core/envelope/certificate.zig:118-168 | A made sender certificate parses back to its claim, absent phone included, and the server certificate inside it. |
| Formats.ServerForm | core/envelope/certificate.zig:28-54 | What the root signs of a server, and how a body and its signature travel, byte by byte. |
| Formats.SenderForm | core/envelope/certificate.zig:118-131 | What a server signs of a sender, byte by byte. |
| Meanings.SignedMeans | core/envelope/certificate.zig:16-26 | What any bytes mean as a signed body, with the fault of every other. |
| Meanings.ServerMeans | core/envelope/certificate.zig:62-85 | What any signed body means as a server certificate, with the fault of every other. |
| Meanings.SenderMeans | core/envelope/certificate.zig:139-168 | What any signed body means as a sender certificate; a missing phone number is no fault, any other missing or mistyped part is. |
| Certificates.ValidIff | core/envelope/certificate.zig:170-175 | With ideal signatures a made chain is valid exactly for the root that signed the server certificate, when that server's secret signed the sender certificate, until it expires. |
| Certificates.ParsedValidIff | core/envelope/certificate.zig:170-175 | Of any bytes that parse, signatures taken from elsewhere included: when nothing verifies but what was signed, valid if and only if the root's secret signed this server body, the secret of the key in it signed this sender body, and the expiry in it is not past; the certificate says what those two bodies say. |
| Certificates.ValidWasIssued | core/envelope/certificate.zig:170-175 | Where the root and the servers sign only bodies that were issued, any bytes that parse and are valid make one of the claims issued, by a server issued under the root, in time. |
| Certificates.MakeSender | core/envelope/certificate.zig:118-131 | The writer makes exactly the sender body and signs it. |
| Certificates.MakeServer | core/envelope/certificate.zig:46-54 | The writer makes exactly the server body and signs it. |
| Certificates.ParseServer | core/envelope/certificate.zig:62-85 | Parsing gives what the bytes mean, signed body first. |
| Certificates.ParseSender | core/envelope/certificate.zig:139-168 | The same, with the missing parts of the body reported before the nested certificate is read. |
| Certificates.ReadSigned | core/envelope/certificate.zig:16-26 | Splits, a signature of the wrong length being its own fault. |
| Contents.KindRoundTrip | core/envelope/content.zig:19-37 | The two numberings of kinds undo each other, and every other number is refused. |
| Contents.ContentRoundTrip | core/envelope/content.zig:54-97 | A made content parses back to every part, default hint and absent group included. |
| Formats.ContentForm | core/envelope/content.zig:54-66 | A content byte by byte, its kind numbered one, two, seven or eight. |
| Meanings.ContentMeans | core/envelope/content.zig:74-97 | What any bytes mean as a content, with the fault of every other; a hint keeps its low byte. |
| Contents.ThreeLevelsRoundTrip | core/envelope/content.zig:54-97 | Server certificate inside sender certificate inside content: all three levels parse back from the outermost bytes. |
| Contents.MakeContent | core/envelope/content.zig:54-66 | The writer makes exactly the content's bytes. |
| Contents.ParseContent | core/envelope/content.zig:74-97 | Parsing gives what the bytes mean; a hint keeps its low byte. |
| Listing.GroupsByServiceId | sdk/ts/src/api.ts:1369-1385 | Grouping gives one entry per service id in order of first appearance, with all its devices in order and the identity it was first met under. |
| Listing.GroupAddresses | sdk/ts/src/api.ts:1369-1385 | The loop over a map keyed by service id text computes that grouping, or the first fault. |
| Listing.GroupingFails | sdk/ts/src/api.ts:1369-1385 | Grouping succeeds exactly when every address is known; a missing session anywhere comes first, then the first address that is not known decides the fault. |
| Listing.ContactFault | sdk/ts/src/api.ts:1369-1385 | Which fault that is: a bad name, no identity, a session without a live state, in this order. |
| Listing.WriteListing | sdk/ts/src/api.ts:1396-1404 | The writer refuses exactly the lists with a device or registration that does not fit; every other number keeps its low byte. |
| Listing.ListingForm | sdk/ts/src/api.ts:1396-1404 | A listing byte by byte, or a bad argument exactly for a device past 255 or a registration id past 65,535. |
| Listing.ListingRoundTrip | abi/gossveil.zig:913-943 | A written listing reads back as exactly the recipients listed, to the last byte, if and only if there are at most 255 with at most 255 devices each. |
| Listing.ReadsLowByteOfThem | abi/gossveil.zig:931-943 | With more recipients the core reads as many as the count's low byte says and leaves the others unread. |
| Listing.NobodyOf256 | abi/gossveil.zig:931-943 | With 256 recipients it reads none and reports no fault. |
| Listing.ReadListing | abi/gossveil.zig:931-943 | The nested cursor loops compute that reading, with the fault of the first part that is short or malformed. |
| Listing.Cursor.Take | abi/gossveil.zig:917-921 | Takes the next bytes, or nothing when there are fewer. |
| Listing.ReadRecipient | abi/gossveil.zig:935-943 | Reads one recipient with its devices and identity, or the first fault. |

## Left out

- The pairwise ratchet, handshake and post-quantum braid: session calls are arbitrary functions under the assumptions above.
- The cryptography itself: curve, hashing, block cipher and signatures are uninterpreted; secrecy is not claimed.
- `multiseal` and `seal`: the listing is modelled up to what the core reads from it, not the envelopes made from it; the excluded ids, which are one count and fixed forms more, are left out too.
- Published bundles, prekey records, message authentication codes, safety numbers, handles, vault, chunked authentication: the same field pattern or single checks.
- Swift and Kotlin packages, JNI and the C example: mirrors of the same operations.
- Loading the wasm module, clocks, randomness: parameters or absent.
- Allocation failure inside the Zig core; it is modelled where buffers are handed over (`Ownership`, `Bridge`), with any allocator. The core's own allocation of an output in `Bridge` is met, a refusal there being a status of the export. The arena of a call is not modelled: it holds nothing that outlives the call.
- Integer overflow in builds without safety checks, where the step past the last one and the version cast are undefined; here they are the fault `Trap`.
- Positions are 64-bit words. In the builds without safety checks the overrun of `Codec.OverrunsIff` wraps instead of ending the process, and on wasm32, where a word has 32 bits, lengths from 2^32 on do not fit it to begin with. The cursor of a listing and the fixed words of a field add at most 33 to a position inside the data, which does not overflow.
- The documentation comment of the codec says defaults are omitted; the code writes them everywhere but through `uintIfSet`, and the model follows the code.
- Text is ASCII as far as case goes: lowering a character outside A to Z is the identity. Every id the host accepts is ASCII.
- A linear-memory output cell is a pair of numbers, not eight bytes; what a call pushes as arguments is modelled, what an export does with them is a function from its inputs to a status, outputs and pads.
- Importing an identity or a session overwrites a pin or a session by the host's own wish, and is not among the calls of `Trust`.
- Awaits.StepsDistinctIffAlone: is about seals that can be signed on a chain with steps left, because a seal that throws saves nothing and uses no step.
- The eight field loops of the parsers share one `Wire.Walk`, parametrised by what each does with a field; the order of fields and faults is the source's.
