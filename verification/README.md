# camonitor: a verified model of its protocols and lifecycles

camonitor bridges door cameras, locks, an air conditioner and a gate. This project models the parts of
it that must hold for every byte stream or every interleaving, and proves those claims. Every file is a
module named after what it models.

**Wire formats.** `Stream` is the buffered reader; `Rtsp` the demultiplexer of RTSP responses and
interleaved media frames; `EventAttach` the multipart event stream and its ring filter; `Playlist` the
HLS playlist signer; `Digest` the Digest challenge parser and Authorization builder; `Centsys` the gate's
packets and activation loop; `GreePack` the air conditioner's pack encryption. Each has a printer, a
parser written as a function of the bytes still unread, a loop-by-loop method proved equal to that
function, and lemmas in both directions: what is printed is read back whatever follows it, and for the
two stream readers only printed messages are accepted. `Headers` holds header fields as a
peer writes them, `Text` the string functions they share.

**Concurrent lifecycles.** `StreamHub` (viewer counts, idle timers, pulls), `StreamRun` (the replaceable
ready channel and the wall clock of one pull), `HkLock` (the relock timer), `QualitySwitch` (switching
readers), `HkCamera` and `HkSockets` (HomeKit sessions and their sockets), `BellFanout` (bounded subscriber
queues), `Gree` and `GreeRuns` (discover, bind, request, reset) are state machines. A step is one critical
section or one write outside a lock; a timer is armed, has gone off with its callback under way, or is over; a run is any list
of steps by any number of callers. The invariants are inductive, so they hold in every reachable state. The
classes beside them are the source's own objects; each method is proved to take exactly the state machine's
step, to keep its invariant, and to leave what its caller needs.

**Index and persistence.** `BellLog` is the plain list of all rings and what a bus that remembers the last
fifty should answer; `BellBus` is the sliding array with its index, `BellHandlers`
the concurrent handlers that fill it, and `BellStore` the table of rows. All are proved to agree with the
list, before a restart and, exactly when its order allows, after it.

**Crash consistency.** `GuestStore` is memory plus one file. A save may fail and the process may restart
between any two calls, and the guarantees range over all such runs.

## Conventions

- A Go string or byte slice is a `string` or `seq<byte>` whose characters are bytes.
- A choice of the environment (a clock reading, a random value, whether a save, send or read works, how much a
  reader drains) is a parameter of the step that meets it.
- SHA-256 is any function without collisions, MD5 any function whose output has no quote, AES any block
  cipher whose decryption undoes its encryption, Base64 any encoding that its decoding undoes. Random
  values are fresh.
- The end of an RTSP stream between two messages is told apart from its end inside one, although the source
  returns the same error for both in most places.
- 64-bit arithmetic is written out where it can wrap (`StreamRun`), as are 8-bit and 32-bit words (`Centsys`).

## What the code does differently from what one might expect

- A failed `Enroll` or `Revoke` stays in memory; `FailedSaveRestoresIff` says exactly when memory is restored,
  and two runs show what that means for a code and for a guest.
- A HomeKit stream works only for the first start after each SetupEndpoints. A second Start, a Resume or a
  Reconfigure restarts on a socket that stopping the first stream has closed, and a new SetupEndpoints
  closes the live stream's socket without stopping it. `HkSockets` has the exact conditions, over every
  interleaving and for whole calls, and the runs.
- Rings handled out of time order come back from a restart in time order; `ReloadIsWindowIff` says exactly when
  the history stays as it was.
- greeDecrypt trims at the last brace instead of removing the padding; `RoundTripIff` gives the exact
  condition under which a text survives.
- The plain product of a timestamp and a second is exact only up to about 28 hours; `NaiveOffsetIff`.

## Model

| member | source | states |
|---|---|---|
| `Rtsp.StreamRoundTrip` | rtsp.go:342-367 | for every list of messages, frames and well-formed responses mixed in any order, reading the printed stream gives exactly the frames in order and then the end of the stream between two messages, which a cut-off message never gives, so nothing is left unread; response bodies may hold '$' and line ends (section 10.12 of RFC 2326) |
| `Rtsp.FramesRecovered` | rtsp.go:342-367 | the same with arbitrary bytes behind the messages: their frames come first, then whatever reading the rest yields |
| `Rtsp.FrameSound` | rtsp.go:342-367 | conversely, over every byte stream: an accepted frame stands on the wire as a printed frame of at most 65535 bytes that nothing but well-formed responses precedes |
| `Rtsp.CleanEndSound` | rtsp.go:342-367 | over every byte stream, a reading that ends between two messages had nothing left but whole well-formed responses |
| `Rtsp.RepliesEndCleanly` | rtsp.go:342-367 | and any number of whole well-formed responses does make it end there |
| `Rtsp.ResponseParses` | rtsp.go:468-516 | a printed response with any body is read back whole, and reading stops exactly behind it whatever follows |
| `Rtsp.WrittenRead` | rtsp.go:468-516 | a response written from a code, a reason, headers and a body is read back as exactly that code, those headers under their lower-cased names and that body, for every body and every reason, whatever follows |
| `Rtsp.WrittenMeans` | rtsp.go:468-516 | such a response is well formed, wherever among its headers the length of the body stands |
| `Rtsp.UnannouncedRead` | rtsp.go:502-515 | a response without a Content-Length, such as the answer to a keepalive, is read back as its code and headers with no body, and reading goes on, also of frames, right behind its blank line |
| `Rtsp.AnnouncedRead` | rtsp.go:502-515 | the last Content-Length decides on the body: an empty value or a number that is not positive means none, a malformed number is an error, and a positive one that many bytes, or an error when the stream ends before them |
| `Rtsp.StatusLineIff` | rtsp.go:473-481 | a status line is accepted with a code exactly when it is a protocol version starting with RTSP/, one space, a number with that value, and then nothing or a space and anything |
| `Rtsp.LastLineDecides` | rtsp.go:484-500 | a header is present exactly when some line names it, case aside, and its value is that of the last such line; lines without a colon count for nothing |
| `Rtsp.ResponseSound` | rtsp.go:468-516 | every accepted response consists of an accepted status line, header lines, a blank line and a body of the announced length, and what is left unread is what stands behind it |
| `Rtsp.PacketsDelivered` | rtsp.go:298-330 | end to end: while the writers succeed, the video sink gets exactly the decodable channel-0 payloads and the audio sink the decodable channel-2 ones, in the order they were sent, and the loop stops only at the end of the stream |
| `Rtsp.SinksGetTheirChannels` | rtsp.go:309-320 | routing splits the frames by channel without loss, duplication or reordering; without an audio writer the audio sink gets nothing |
| `Rtsp.ReadResponse` | rtsp.go:468-516 | the reading loops return the response, or the first error, that the stream specification gives, and leave the reader exactly behind it |
| `Rtsp.RtspConn.ReadFrame` | rtsp.go:348-359 | reads header and payload into the connection's own 64 KiB buffer, which a 16-bit length can never overrun |
| `Rtsp.RtspConn.ReadInterleaved` | rtsp.go:342-367 | the push-back loop returns the next frame of the stream, skipping whole responses, or the first error; the reader stands exactly behind the frame |
| `Rtsp.RtspConn.ReadPackets` | rtsp.go:298-330 | what the sinks have accepted is the routed frames up to the first failing write, or all of them, and the loop says which |
| `EventAttach.PartsRecovered` | eventattach.go:184-223 | for every list of parts with filler lines before the boundary, extra headers and any body, even one that contains boundary lines, repeated reading gives exactly the bodies in order (section 5.1.1 of RFC 2046) |
| `EventAttach.WrittenRead` | eventattach.go:184-223 | a part written from filler, headers and a body, the length of the body standing anywhere among the headers, is read back as that body, for every body |
| `EventAttach.AnnouncedRead` | eventattach.go:198-222 | the last number announced decides: a negative one is refused, and else a body of exactly that length is read, or none when the stream ends before |
| `EventAttach.UnannouncedRefused` | eventattach.go:198-217 | a part without a Content-Length is refused, whatever follows its headers |
| `EventAttach.LastLengthDecides` | eventattach.go:198-211 | the length of the body is the number on the last header line that announces one, case aside; other lines and malformed numbers count for nothing |
| `EventAttach.PartSound` | eventattach.go:184-223 | conversely, every accepted part consists of filler, the boundary, header lines, a blank line and a body of the length those lines announce |
| `EventAttach.RingsIffAnnounced` | eventattach.go:225-259 | a body rings if and only if its trimmed text starts with Code= and one of the two ring codes, the code ending at a separator or at the end of the text |
| `EventAttach.CodeAnnounced` | eventattach.go:248-259 | the extracted code equals a given code exactly when the text starts with that code, whole; a longer code that merely starts alike does not match |
| `EventAttach.ReadNextPart` | eventattach.go:184-223 | the line and header loops return the body, or the error, that the stream specification gives |
| `EventAttach.Consume` | eventattach.go:161-179 | Fire is called once for each ring among the parts read, in order, and for no other part; the loop ends at cancellation or at the first read error |
| `Playlist.EraseSigned` | streamapi.go:143-164 | signing is exactly invertible: for every playlist text and clean signature, an eraser that scans the signed text again recovers the original byte for byte (sections 4.1 and 4.2 of RFC 8216) |
| `Playlist.SignKeepsStructure` | streamapi.go:143-156 | signing keeps the number of lines, every blank line and every trailing carriage return; on a tag line all text outside quoted URIs stays, and each URI, there and on URI lines, gets exactly one more parameter |
| `Playlist.RewriteMaps` | streamapi.go:148-151 | rewriting a tag line changes the captured URIs and nothing else: scanned again, the result has the same text around them |
| `Playlist.RewriteBack` | streamapi.go:148-151 | a rewrite by f is undone by a rewrite by any left inverse of f, since rewritten URIs are found again at the same places |
| `Playlist.ParsePrinted` | streamapi.go:141-151 | the leftmost-match scan of a tag line splits a printed line into exactly the pieces it was printed from |
| `Playlist.FirstCaptured` | streamapi.go:141-151 | the text captured on a tag line is what stands between the first URI=" and the next quote |
| `Playlist.NothingCaptured` | streamapi.go:141-151 | and nothing is captured on a line without that attribute or without a quote behind it |
| `Playlist.DropAddQuery` | streamapi.go:158-164 | the parameter added to a URI, with or without a query of its own, can be taken off again |
| `Playlist.ParamAdded` | streamapi.go:158-164 | a signed URI has the same path, and as parameters those it had and then the signature, whether or not it had a query |
| `Playlist.SignatureArrives` | streamapi.go:158-164 | whatever the signature: read as a query, a signed URI ends in a parameter s that unescapes to exactly that signature |
| `Playlist.EscapedIsClean` | streamapi.go:158-164 | an escaped signature never contains a quote or a line end, so signing may be given any signature at all |
| `Playlist.SignLines` | streamapi.go:144-154 | the loop over the lines array rewrites every line in place, each as its kind demands |
| `Playlist.SignPlaylistUris` | streamapi.go:143-156 | splitting, rewriting in place and joining compute the signed playlist, and erasing gives the input back, for every playlist and every signature |
| `Digest.FieldsRecovered` | digest.go:52-84 | scanning a header gives back exactly its fields, whatever the case of the keys, the white space around keys, equals signs, values and commas, and the commas, spaces and equals signs inside quoted values; a repeated key keeps its last value |
| `Digest.PartsOfFields` | digest.go:52-77 | the quote-aware split cuts such a header at the commas between fields and nowhere else |
| `Digest.ChallengeRecovered` | digest.go:32-48 | the parser inverts every such challenge, its scheme in any case and any white space around it: realm, nonce, qop and opaque are the fields of those names, and it refuses exactly when realm or nonce is missing or empty |
| `Digest.NotDigestIff` | digest.go:33-36 | a header is refused as not Digest exactly when its trimmed text does not start with the scheme and a space, in any case |
| `Digest.ResponseRecovered` | digest.go:92-125 | a server that scans the Authorization header gets back every field, finds qop, nc and cnonce if and only if a protection was chosen, and finds as response exactly the digest that sections 3.2.1 and 3.2.2 of RFC 2617 make it expect: KD of H(user:realm:password) and, with a protection, nonce:nc:cnonce:qop:H(method:uri), else nonce:H(method:uri) |
| `Digest.DigestExpected` | digest.go:92-118 | for every input the hashed strings are those of RFC 2617, with and without a protection |
| `Digest.ResponseText` | digest.go:96-124 | the header word for word: the order of its parameters, with nc and qop written without quotes and all others in quotes |
| `Digest.ScanDigestParams` | digest.go:52-84 | the character loop with its start and inQuotes variables collects exactly the parameters between unquoted commas |
| `Digest.ChooseQop` | digest.go:131-141 | the loop over the offered protections picks auth when one of them, trimmed of white space, is exactly that, and nothing otherwise |
| `Centsys.XorInvolution` | centsys_packets.go:35-41 | obfuscating is its own inverse for data and keys of any length |
| `Centsys.DeriveKey` | centsys_packets.go:24-33 | the loop fills the eight key bytes: the base key with its first half xored with the MAC |
| `Centsys.XorBytes` | centsys_packets.go:35-41 | the loop fills a fresh buffer with every byte xored with the cyclic key |
| `Centsys.WordNibbles` | centsys_packets.go:49-69 | read nibble by nibble, a packed word gives back each of its eight digits, and zero past the left end: the or-ed digits never overlap |
| `Centsys.PhoneParts` | centsys_packets.go:49-69 | the three loops compute the three words of the digits counted from the right |
| `Centsys.PhoneRecovered` | centsys_packets.go:49-79 | every digit of a phone number of at most 24 digits is read back out of the obfuscated identity packet, in the word and nibble for its place |
| `Centsys.AccountRecovered` | centsys_packets.go:49-79 | the same for an account number written with or without its plus sign |
| `Centsys.DigitFromRight` | centsys_packets.go:51-52 | the digits so recovered are the number's own, counted from the right, and zeros beyond its left end |
| `Centsys.VersionSent` | centsys_packets.go:94-98 | the gate reads exactly the version that was put into an activation packet, whatever challenge follows |
| `Centsys.ActivationSent` | centsys_packets.go:94-98 | an activation is a packet of type 3; deobfuscated, it holds the version and, in the two bytes from the third on, least significant first, the id 34 and never another one; the challenge follows in the clear |
| `Centsys.ReplyDecoded` | centsys_packets.go:108-114 | a reply body of at least two bytes is decoded to the code and version its sender put into it, a shorter one to a failure |
| `Centsys.Activate` | centsys.go:397-421 | the retry loop sends one or two activations, the first with version 0 and the second with exactly the version the gate reported, and its outcome is that of the last round |
| `Centsys.GateOpens` | centsys.go:397-421 | against a gate that accepts a single version the whole exchange ends opened: with one activation for version 0 and otherwise with two, the last carrying the version the gate wants |
| `Centsys.OpenedMeansOk` | centsys.go:397-421 | for every sequence of publishes and replies: every packet sent is such an activation with the gate's challenge; the first carries version 0; a second is sent if and only if the first reply is a mismatch, code 7, that reports another version, and carries exactly that one; the gate is reported open if and only if the last activation was published and its reply decodes to code 1 |
| `GuestStore.OneTokenPerCode` | gueststore.go:127-152 | over every run with failing saves and restarts, an enrolment code yields at most one returned token |
| `GuestStore.TokenWorks` | gueststore.go:185-196 | every returned token authenticates as its own guest, after restarts and failed saves too, until Revoke is called on that guest |
| `GuestStore.OnlyTokensWork` | gueststore.go:76-205 | and nothing else authenticates: an accepted string was minted by an earlier Enroll or EnrollDemo as a token of that very guest. The guest handed out is enrolled, not revoked, seen now, has the id, name and time of the call that created it, and is a demo guest if and only if EnrollDemo minted its token; otherwise Create made it with the code that Enroll presented |
| `GuestStore.TokenGuests` | gueststore.go:127-182 | so is the guest of every returned token: enrolled, as its creation describes it, and a demo guest if and only if EnrollDemo returned it |
| `GuestStore.RevokedForGood` | gueststore.go:114-124 | once Revoke has returned without error, that guest never authenticates again, whatever follows |
| `GuestStore.CodeWorks` | gueststore.go:76-152 | a returned code comes with a guest that is neither enrolled nor a demo guest; its first use, across restarts, is refused as expired after ten minutes, fails if the save does, and otherwise returns a token for that same guest, now enrolled |
| `GuestStore.RunsWellKept` | gueststore.go:60-218 | in every run, memory and file hold records of distinct guests and distinct live codes, every part of which an earlier call drew |
| `GuestStore.FailedSaveRestoresIff` | gueststore.go:76-196 | a call whose save fails leaves the file alone; memory is left alone exactly when the call changes no record that is already there, so a failed Enroll or Revoke, and the time a guest was last seen, stay in memory |
| `GuestStore.FailedEnrollSpendsCode` | gueststore.go:127-152 | a reachable run: an Enroll whose save fails leaves memory and file apart, the code is refused on the next try, and works again after a restart |
| `GuestStore.FailedRevokeIsForgotten` | gueststore.go:114-124 | a reachable run: a Revoke whose save fails locks the guest out until a restart, after which the token authenticates again |
| `GuestStore.GuestStore.constructor` | gueststore.go:60-73 | opening the store gives memory whatever the file holds |
| `GuestStore.GuestStore.FindRecord` | gueststore.go:198-205 | the search loop returns the first matching record |
| `GuestStore.GuestStore.Create` | gueststore.go:76-102 | takes the record out again when the save fails, leaving memory and file as they were, and hands the code out only when it succeeded, with a guest that is neither enrolled nor demo |
| `GuestStore.GuestStore.Enroll` | gueststore.go:127-152 | spends the code in place, refusing unknown, revoked and expired ones |
| `GuestStore.GuestStore.EnrollDemo` | gueststore.go:158-182 | creates an enrolled demo guest in one step and returns its token, or, when the save fails, leaves memory and file as they were |
| `GuestStore.GuestStore.Revoke` | gueststore.go:114-124 | marks the record in place and reports whether that was saved |
| `GuestStore.GuestStore.Authenticate` | gueststore.go:185-196 | knows a guest by token unless revoked, and records when it was seen whether or not that is saved |
| `StreamHub.OnePullPerWatchedCamera` | streamhub.go:111-154 | in every interleaving viewers equals the number of unreleased acquisitions, at most one uncancelled pull exists per camera, and one does whenever the hub is open and the camera has viewers |
| `StreamHub.ServeFindsRun` | streamhub.go:186-193 | a request being served finds no run if and only if the hub has been closed |
| `StreamHub.UnwatchedPullEnds` | streamhub.go:130-145 | an uncancelled pull without viewers has an idle timer that is armed or whose callback is waiting for the lock |
| `StreamHub.PullEndsIff` | streamhub.go:130-145 | in every interleaving, a step cancels a pull if and only if it is Close, or the callback of an idle timer of that camera which finds no unreleased viewer; so no acquire and no release ever ends one |
| `StreamHub.PullReturnsIff` | streamhub.go:147-184 | in every run a pull's goroutine returns only after its cancellation |
| `StreamHub.OpenUntilClose` | streamhub.go:73-234 | in every run the cameras are those the hub was made with, and it is closed if and only if Close has been called |
| `StreamHub.IdlePullStops` | streamhub.go:137-144 | at any point of any run, a pull without viewers has an idle timer whose going off and callback cancel it |
| `StreamHub.RunsJoinAndLeave` | streamhub.go:111-145 | in every run, a camera can be joined exactly while the hub is open: a join stops the camera's armed timer and starts a pull exactly when none is going; a release leaves every pull and run alone and adds a timer, one armed timer of that camera, exactly when the last viewer of an open hub leaves |
| `StreamHub.ClosedForGood` | streamhub.go:217-234 | from Close on, in every continuation, no pull is uncancelled, none starts, and no idle timer is armed |
| `StreamHub.RunInv` | streamhub.go:111-234 | the inductive invariant behind these: every armed timer, run and uncancelled pull belongs to its camera's current fields |
| `StreamHub.Hub.constructor` | streamhub.go:73-85 | a new hub has no viewers, timers or pulls and satisfies the invariant |
| `StreamHub.Hub.Acquire` | streamhub.go:111-128 | succeeds exactly for a known camera of an open hub; counts the viewer, disarms the armed idle timer and starts a pull exactly when none is going; keeps the invariant |
| `StreamHub.Hub.Release` | streamhub.go:130-145 | discounts the viewer once, leaves every pull and every run alone, and adds an armed idle timer of the camera exactly when that was the last viewer of an open hub; keeps the invariant |
| `StreamHub.Hub.IdleCallback` | streamhub.go:137-144 | cancels the run only if nobody is watching by the time it has the lock; keeps the invariant |
| `StreamHub.Hub.Close` | streamhub.go:217-233 | the loop over the cameras, in any order, stops every current timer and cancels every run |
| `StreamRun.NoWaiterMissesTheMuxer` | streamhub.go:194-213 | in every interleaving no channel is closed twice, the current one is closed exactly while a muxer exists, and a waiter can go on if and only if there is a muxer or its channel has been replaced |
| `StreamRun.ServedIff` | streamhub.go:186-213 | in every interleaving, a request gets served if and only if it looks while there is a muxer, and gives up only while it waits |
| `StreamRun.ArrivesAndEnds` | streamhub.go:186-213 | a request comes in looking, and once served or given up it stays so |
| `StreamRun.WaiterGetsServed` | streamhub.go:194-213 | in every run, a waiting request is served by two steps of its own while there is a muxer, on whichever channel it waits, and they change nothing else |
| `StreamRun.StartsAtFirstUnit` | streamhub.go:237-254 | in every run, the start of a muxer is the timestamp of the very access unit it was started with, for as long as it lives |
| `StreamRun.RunInv` | streamhub.go:237-267 | the invariant: every replaced channel was closed first, and every waiter waits on the current channel or an earlier one |
| `StreamRun.OffsetIsExact` | streamhub.go:250-253 | for |rel| < 90000 * 9223372036 no step overflows int64 and the wall offset is the exact rel * 10^9 / 90000, truncated |
| `StreamRun.OffsetMonotone` | streamhub.go:250-253 | within one muxer's life later timestamps never get earlier wall-clock times |
| `StreamRun.NaiveOffsetIff` | streamhub.go:250-253 | the product without the split is right exactly for |rel| <= 9223372036, about 28 hours, and wrong for every other timestamp in the range |
| `StreamRun.StreamRun.Write` | streamhub.go:237-255 | starts the muxer and closes the channel on the first access unit, never a closed one, and stamps each unit with its offset |
| `StreamRun.StreamRun.CloseMuxer` | streamhub.go:258-267 | replaces the channel only when there was a muxer to drop |
| `HkLock.OneTimerArmed` | hklock.go:111-132 | for any number of concurrent writes and timer firings at most one relock timer is armed |
| `HkLock.UnsecuredIsTransient` | hklock.go:78-132 | whenever the tile reads Unsecured, a timer is armed, a callback has yet to write, an unlock has yet to schedule, or a secure has cancelled but not yet written |
| `HkLock.RestsSecured` | hklock.go:78-132 | once all calls and timers have finished, in whatever order, the tile reads Secured |
| `HkLock.UnlockedByPulsesOnly` | hklock.go:78-106 | in every interleaving, a write that secures never pulses the relay, any other write gets past the relay only after a confirmed pulse, and the tile shows Unsecured only when some unlocking write had its pulse confirmed |
| `HkLock.FailedPulseEnds` | hklock.go:92-94 | a write whose pulse fails is over for good and changes nothing |
| `HkLock.UnlockTakesEffect` | hklock.go:88-119 | a confirmed pulse, undisturbed, shows Unsecured and leaves exactly its own relock timer armed |
| `HkLock.SecureTakesEffect` | hklock.go:101-106 | a write that secures, undisturbed, shows Secured in both states and leaves no relock timer armed |
| `HkLock.RelockTakesEffect` | hklock.go:108-119 | a relock timer that goes off sets both states to Secured and nothing else |
| `HkLock.HkLock.CancelPending` | hklock.go:127-132 | afterwards no timer is armed, whatever timers the invariant allowed, and those that have gone off are untouched |
| `HkLock.HkLock.Schedule` | hklock.go:111-119 | afterwards exactly the new timer is armed, so somebody is going to secure the tile, and the invariant holds |
| `HkLock.HkLock.ProceedCall` | hklock.go:88-106 | every step of an unlock or a secure keeps the invariant; a tile just shown Unsecured has somebody who will secure it, and a secure that has cancelled leaves no timer armed |
| `QualitySwitch.OneReaderOfTheRightQuality` | hub.go:127-180 | for any number of toggles and any delay in a reader's exit: at most one reader is alive, consecutive readers differ in quality, and while nobody holds the lock the published quality is that of the last reader started |
| `QualitySwitch.OneSwitchAtATime` | hub.go:127-143 | only one call is past the lock, and the reader it waits for has been cancelled |
| `QualitySwitch.ToggleTakesEffect` | hub.go:127-161 | in every run, a toggle returns with its own quality published: by the reader that was already running, left alone, or by one new reader that is alive and not cancelled |
| `QualitySwitch.SwitchSucceeds` | hub.go:127-161 | a toggle that finds the lock free returns after two steps of its own when nothing has to stop, and after three when the reader in the way exits |
| `QualitySwitch.ReaderEndsIff` | hub.go:132-157 | in every run, a reader is cancelled if and only if a call that holds the lock wants the other quality, and ends if and only if it exits after that or after the end of the whole hub |
| `QualitySwitch.TogglesCall` | hub.go:127-180 | a toggle makes one call that wants its quality; nothing else makes a call or cancels the parent context but its own cancellation |
| `QualitySwitch.StreamRunner.Check` | hub.go:132-139 | keeps the invariant and returns exactly when the wanted quality is the published one, with the last reader started in that quality; otherwise the reader in the way has been cancelled |
| `QualitySwitch.StreamRunner.Start` | hub.go:141-157 | afterwards exactly the new reader is alive, in the quality that is published, and the invariant holds for every other caller |
| `HkCamera.NothingLeaks` | hkcamera.go:287-456 | in every interleaving of setups, starts and stops, each open socket is the pending setup's or in the hands of an unfinished setup call, and each uncancelled reader context is the stored one or about to be |
| `HkCamera.AtRestOneOfEach` | hkcamera.go:287-456 | at rest at most one socket is open and at most one reader context is uncancelled |
| `HkCamera.StopLeavesSocketOpenIff` | hkcamera.go:446-457 | stopping closes the socket the live stream is on and no other |
| `HkCamera.SocketClosesIff` | hkcamera.go:345-457 | in every run an open socket is closed exactly by a setup call that fails with it or has replaced it, by a call that stops the stream live on it, or by the exit of a cancelled reader that fed it |
| `HkCamera.ContextEndsIff` | hkcamera.go:387-457 | in every run a reader context is cancelled exactly when it is the stored one and a call ends the stream or is about to install another |
| `HkCamera.ReaderRunsIff` | hkcamera.go:424-430 | in every run a reader runs from its launch on and returns only when its context has been cancelled |
| `HkCamera.EndAndSetupTakeEffect` | hkcamera.go:345-376 | End and Suspend leave nothing stored; a setup that works makes its socket the pending one and keeps the old one at hand to be closed |
| `HkCamera.StreamSession.CloseFwd` | hksrtp.go:119-131 | the forwarder ends closed; its socket is closed with it unless that had been done before, every other socket stays, and nothing leaks |
| `HkCamera.StreamSession.Stop` | hkcamera.go:446-457 | afterwards nothing is stored: the context that was is cancelled, the socket it was live on is closed, all others stay, and nothing leaks |
| `HkCamera.StreamSession.InstallStream` | hkcamera.go:413-418 | the prepared stream is the stored one, the one it replaces is cancelled and its socket closed, and nothing leaks |
| `HkSockets.StreamSocketOpenIff` | hkcamera.go:287-457 | in every interleaving, the socket the stored stream sends from is open exactly while it is the pending setup's, or in the hands of a setup call, and no stream on it has been closed |
| `HkSockets.InstalledSocketOpenIff` | hkcamera.go:387-432 | when a start call stores its stream, its socket is open exactly if just before the setup it read was still pending or yet to be closed, and no stream on that socket was live or had been closed; this covers a setup that replaces the pending one in between |
| `HkSockets.OnlyFirstStartWorks` | hkcamera.go:366-432 | from rest, a Start, Resume or Reconfigure leaves its stream on an open socket exactly when no stream has been started on the pending setup's socket before |
| `HkSockets.SetupCutsOffStream` | hkcamera.go:345-363 | from rest, a SetupEndpoints always leaves the stored stream on a closed socket, the stream itself going on |
| `HkSockets.StreamLosesItsSocket` | hkcamera.go:287-457 | the reachable runs: after a setup and a start the stream sends from an open socket, and a Reconfigure, a second Start or a second setup each leave it on a closed one |
| `HkSockets.RunSockets` | hkcamera.go:287-457 | the invariant behind these: no socket is in two hands, a socket is open exactly while owned and never streamed to an end, and every unclosed forwarder is stored or about to be |
| `BellLog.WindowAppend` | bell.go:208-221 | sliding the remembered window by one ring is the window of the longer list: memory always holds the last min(n, 50) rings in order |
| `BellLog.AnswersNewest` | bell.go:225-239 | looking up the index and then the id gives the newest ring of the stream among those remembered, or nothing, even when the index points at an evicted ring and however often the bus has been restarted |
| `BellLog.LastRingAnswers` | bell.go:225-252 | a stream whose last ring is among the last fifty rings is answered with its image and time, and found exactly if that image is not empty |
| `BellLog.NoRingNoAnswer` | bell.go:225-252 | a stream without a ring among the last fifty gets the empty answer |
| `BellLog.ByIdAnswers` | bell.go:242-252 | an id is answered with the image and time of the remembered ring of that id, and the empty answer when there is none |
| `BellLog.IndexedIsNewest` | bell.go:225-239 | the same over any tail of the list, with the index of the whole list |
| `BellLog.EventIdInjective` | bell.go:204-206 | two rings have the same id only if they have the same time and the same sequence number |
| `BellLog.TimesMakeIdsUnique` | bell.go:204-206 | strictly increasing ring times make ids unique although a restart resets the sequence |
| `BellLog.NumbersKeepSeparate` | bell.go:204-206 | a ring with the next sequence number, at any time since the last restart, has an id of its own, whatever the times of all other rings are |
| `BellHandlers.AnswersInAnyOrder` | bell.go:114-239 | in every interleaving of concurrent handlers, on a new bus or one restarted with any earlier rings, with any fire times since then appended in any order: no two rings share an id, the history is the last fifty, and LatestSnapshot gives the newest ring of the stream among those or nothing |
| `BellHandlers.HandlersCarryRings` | bell.go:139-187 | in every run, each handler carries the ring it was fired for: its stream, its time, its name or else the stream id, and a snapshot flag that is set exactly when there is an image |
| `BellHandlers.NumbersOwnRing` | bell.go:160-206 | in every run, a handler gives its own ring the time it was fired for and the next number there is as its id |
| `BellHandlers.AppendsOnce` | bell.go:160-221 | in every run, the list of rings grows by exactly the numbered ring of the handler that appends, and each handler appends once |
| `BellHandlers.RunInv` | bell.go:114-221 | the invariant: every id in the history or on its way there is an earlier ring's or was made with a number drawn so far, and none is used twice |
| `BellBus.BellBus.constructor` | bell.go:95-128 | replays what the store returns into history and index, which then agree with every list of rings the table holds in order; a failing load leaves both empty |
| `BellBus.BellBus.AppendHistory` | bell.go:208-221 | appends in place, sliding a full array down by one, and the contents become the window of the old contents and the new ring |
| `BellBus.BellBus.LatestSnapshot` | bell.go:225-239 | answers with the newest remembered ring of the stream, for every list of rings the bus agrees with |
| `BellBus.BellBus.SnapshotByEvent` | bell.go:242-252 | the backward search answers for the remembered ring with that id, if any |
| `BellBus.BellBus.History` | bell.go:256-264 | a fresh array holding the remembered events newest first |
| `BellBus.BellBus.Handle` | bell.go:160-187 | one ring, at any time: the bus remembers the last rings in append order and ids stay unique by sequence number; with increasing times and a save that works the table goes on holding them, whatever the prune does |
| `BellStore.TopIsWindow` | bellstore.go:86-128 | the fifty rows with the largest times are exactly the remembered rings, newest first, although the table may hold more, whenever those rings are in time order and newer than all other rows |
| `BellStore.LoadedIsWindow` | bellstore.go:114-161 | what LoadRecent(50) returns then is the window of all rings, oldest first |
| `BellStore.RestartChangesNoAnswer` | bell.go:114-126 | a bus rebuilt from such a table has the same history, the same latest snapshot of every stream and the same snapshot of every event as before the restart |
| `BellStore.ReloadIsWindowIff` | bellstore.go:114-161 | for rings with distinct times, the reloaded history is the remembered one if and only if every remembered ring has been saved, they were appended in time order, and no row of a forgotten ring is newer than one of them |
| `BellStore.IncreasingInOrder` | bellstore.go:114-128 | rings appended in increasing time order always meet that condition |
| `BellStore.RestartMayReorder` | bellstore.go:114-161 | two rings handled in the other order come back from a restart reordered |
| `BellStore.TablesAreRings` | bellstore.go:70-101 | whatever the times are and whichever prunes work, the table never holds anything but rings that were saved |
| `BellStore.SaveKeeps` | bellstore.go:70-81 | saving a ring keeps every remembered ring in the table |
| `BellStore.PruneKeeps` | bellstore.go:86-101 | pruning to fifty rows removes no remembered ring |
| `BellStore.TablesHold` | bellstore.go:70-101 | after any number of rings, each saved and then pruned or not, the table holds every remembered ring |
| `BellStore.BellStore.SelectRecent` | bellstore.go:121-128 | lists the rows with the largest times in descending order, up to the limit |
| `BellStore.BellStore.Save` | bellstore.go:70-81 | a save that works adds the ring to every list of rings the table held, under an id of its own, and touches no other row; one that fails changes nothing |
| `BellStore.BellStore.Prune` | bellstore.go:86-101 | keeps exactly the most recent rows, and does nothing for a limit of zero or a failure |
| `BellStore.BellStore.LoadRecent` | bellstore.go:114-161 | the most recent rows, reversed to oldest first |
| `BellStore.ReverseInPlace` | bellstore.go:157-159 | swapping from both ends reverses the array |
| `BellFanout.NewestEnqueued` | bell.go:289-302 | with the reader draining at any point between the three selects, the newest event always ends up last in the queue, so the last default is never taken, and at most one event is dropped: the oldest queued, and only out of a full channel |
| `BellFanout.OrderedAndSafe` | bell.go:270-304 | in every interleaving each reader gets events in broadcast order and none twice, no queue exceeds its capacity, and nothing is sent to a closed channel or closed again |
| `BellFanout.UnreadHoldsLast` | bell.go:270-304 | in every run, a subscriber that never reads holds exactly the last min(n, 8) of the n events broadcast since it subscribed, and the earlier ones are those dropped |
| `BellFanout.EveryEventAccounted` | bell.go:270-304 | no event is lost: in every run, whatever its reader does, the events a subscriber has received, has queued and has had dropped are together, counted with multiplicity, exactly those broadcast since it subscribed |
| `BellFanout.OpenIffSubscribed` | bell.go:270-282 | in every run the open channels are exactly the subscribers' |
| `BellFanout.ClosedHearsNothing` | bell.go:275-302 | in every run a channel is closed by its own unsubscribe and by nothing else, and nothing is sent to it afterwards |
| `BellFanout.Fanout.AddSubscriber` | bell.go:270-274 | adds a fresh open channel |
| `BellFanout.Fanout.RemoveSubscriber` | bell.go:275-282 | removes and closes a channel once, however often it is called |
| `BellFanout.Fanout.Send` | bell.go:286-304 | offers the event to every subscriber, visited in any order, and keeps the invariant |
| `GreeRuns.KeyNeverStrays` | gree.go:221-360 | in every interleaving of Status, Set and reset, a key comes with an address; the device id is the cid, or else the mac, of the accepted scan reply and, when the client has a MAC, has exactly that normal form; the accepted scan and bind replies were both sent from that address; and broadcastOnly is true if and only if the bind that issued the key went to broadcast |
| `GreeRuns.AnswersAreTheUnits` | gree.go:402-491 | whatever Status or Set hands out was sent from the address of the accepted scan reply, whose id, the cid or else the mac, has the normal form of the client's MAC when there is one, and of the bind reply that issued the key the answer opens with; the request before it took the route that bind took |
| `GreeRuns.NeverCrashes` | gree.go:402-491 | no interleaving dereferences a missing address |
| `GreeRuns.CallsBegin` | gree.go:503-587 | in every run, Set gives up at once on a parameter without a column; Status and every other Set begin with a key |
| `GreeRuns.CallsGoOn` | gree.go:464-594 | in every run, a call goes past ensureKey exactly when that leaves a key; without one Status is offline and a request resets; a request that is not answered resets |
| `GreeRuns.ResetForgets` | gree.go:221-225 | in every run, a reset forgets address, id and key, keeps the learned route and the socket, and ends its call |
| `GreeRuns.RequestNeedsKey` | gree.go:464-480 | in every run, a call that has no usable key by the time it has the lock fails in greeEncrypt whatever the network would do: the client is unchanged, nothing is handed out, and the call goes on to reset |
| `GreeRuns.ResetInBetween` | gree.go:464-480 | in every run, a reset by another call between ensureKey and the request's own lock makes the request fail so, before the missing address is used |
| `Gree.HandshakeIff` | gree.go:244-296 | a handshake yields a key exactly when the scan reaches the unit and it issues a key over the remembered route, or over the other one after a timeout or in broadcast mode; what the network does may depend on where a bind is sent |
| `Gree.RouteLearned` | gree.go:269-294 | a handshake that yields a key leaves the address scanned; the remembered route is kept if and only if the key was issued over it |
| `Gree.RequestIff` | gree.go:402-491 | a request is answered exactly when there is a key of 16, 24 or 32 bytes, a socket and an address, the send over the learned route works, and the unit answers under that key in time; the answer is the first such |
| `Gree.FindUnitIff` | gree.go:336-355 | discovery accepts exactly the first reply with an id that is, when a MAC is configured, that MAC up to case and separators, provided every read before it brought a well-formed reply without an id or with another one |
| `Gree.ScanReplyDecides` | gree.go:345-352 | reply by reply and for every configured MAC: a well-formed scan reply is accepted when its cid, or its mac where there is no cid, is not empty and has the normal form of the configured MAC, or none is configured; otherwise it is skipped |
| `Gree.FindReplyIff` | gree.go:402-421 | a reply is accepted exactly when it is the first one from the unit's address that opens with the key, while the context was alive |
| `Gree.NoReplyBlames` | gree.go:402-421 | without an answer the reported failure is that of the context's end, or else of the last turn, which is what decides about the broadcast fallback |
| `Gree.BindIgnoredIff` | gree.go:278-291 | a bind counts as ignored exactly when its send timed out, or when no turn brought an answer and what ended the wait was a timeout |
| `Gree.SeparatorsDoNotMatter` | gree.go:85-87 | a separator anywhere in a MAC makes no difference to its normal form |
| `Gree.NormalizeMeans` | gree.go:85-87 | a normal form is as long as the MAC has characters other than colons, dashes and dots, and each of these stands in it, in order and lower-cased |
| `Gree.NormalizeIdempotent` | gree.go:85-87 | a normalized MAC is its own normal form, so the configured value and the wire value are compared fairly |
| `Gree.GreeClient.constructor` | gree.go:161-174 | a new client has neither key nor address and keeps the normalized MAC |
| `Gree.GreeClient.Reset` | gree.go:221-225 | forgets address, id and key together and keeps the learned route |
| `Gree.GreeClient.ReadReply` | gree.go:402-421 | the loop returns the first acceptable reply, or the last failure |
| `Gree.GreeClient.AwaitUnit` | gree.go:336-355 | the scan loop returns the first reply whose id matches the MAC as above, or accepts any id when there is none, and gives up at the first failing read |
| `Gree.GreeClient.Discover` | gree.go:318-360 | records address and id of the unit that answered, and changes neither on failure |
| `Gree.GreeClient.BindUnit` | gree.go:271-294 | binds over the remembered route, then over the other one when the rules allow, and remembers the one that worked |
| `Gree.GreeClient.ScanAndBind` | gree.go:244-296 | discovery followed by binding, keeping the invariant even when it fails half way |
| `Gree.GreeClient.EnsureKey` | gree.go:230-241 | runs the handshake only when there is no key; success leaves one |
| `Gree.GreeClient.Request` | gree.go:464-491 | encrypts first, then sends over the learned route, then waits for the unit's reply, never touching a missing address |
| `GreePack.RoundTrip` | gree.go:632-668 | for every plaintext and key, decrypting the encrypted text gives it up to its last brace, or the padded text when it has none, because pad bytes are 1 to 16 and never a brace (section 6.3 of RFC 5652) |
| `GreePack.RoundTripIff` | gree.go:632-668 | the round trip gives the text back if and only if it ends in a brace |
| `GreePack.ReceiverReads` | gree.go:632-644 | any receiver that decrypts the blocks and takes off the padding as section 6.3 of RFC 5652 says reads exactly the text, for every text |
| `GreePack.PaddingHidesNoBrace` | gree.go:637-638 | padding never moves the last brace of a text |
| `GreePack.BlocksUndone` | gree.go:639-663 | decrypting block by block undoes encrypting block by block, for buffers of any number of blocks |
| `GreePack.EachBlock` | gree.go:639-642 | the loop over the output buffer applies the cipher to each block in turn |
| `GreePack.EncryptPack` | gree.go:632-644 | pads, encrypts and encodes, refusing keys that are not 16, 24 or 32 bytes long |
| `GreePack.DecryptPack` | gree.go:648-668 | decodes and decrypts, refusing bad Base64, bad keys and partial blocks in that order |

## Left out

- Sockets, deadlines, TLS, HTTP, MQTT, WebRTC, HAP, SIP and SQL engines: only that an operation succeeds, fails or delivers a message.
- The RTSP request side (handshake, keepalive, the 401 retry): the readers and the Digest builder are modelled on their own.
- A Content-Length too large to allocate: the reader then panics in the source, and reports the end of input here.
- Unicode: TrimSpace and ToLower are modelled on ASCII white space and ASCII letters only.
- The RTP packet decoder and the audio conversion: any partial function from payloads to packets.
- bell.go's Fire debounce, snapshots fetched over HTTP, and the WhatsApp notification behind a ring.
- A nil BellStore, which drops every ring, and a LoadRecent that fails in the middle of its rows.
- BellStore.TablesHold: about rings handled in increasing time order; a prune may drop the row of a remembered ring that is older than fifty others.
- gueststore.go's List, the JSON encoding, and a random source that fails; a missing file reads as an empty store.
- The pull's reconnect loop and back-off: StreamRun lets write and closeMuxer alternate in any order.
- WebRTC track fan-out behind the reader of QualitySwitch, and the initial start by NewHub.
- HAP characteristic objects: HkLock tracks the two lock states and HkCamera the session's fields; SRTP, the choice of stream size and the setup response are not part of the model.
- How the gate's telemetry is decoded (decodeOverview) and the time-sync packet (buildCmd05): tables of constants.
- The JSON inside Gree packs and the columns of Status and Set: the model keeps the fields cid, mac and key, and an answer's pack as it came.
- The climate mapping for HomeKit, transcoding, the web interface and the mobile apps: finite tables and thin clients.
- Centsys.PhoneRecovered: leading zeros of a number shorter than 24 digits look like absent digits in the packet, so the length is not recovered.
- Centsys.Activate: the configuration version is a byte throughout; the source keeps it in an int that only ever holds a byte.
- Digest.ResponseRecovered: no value may contain a quote, since the builder escapes nothing.
- GuestStore.TokenWorks: assumes fresh random values and a collision-free hash.
