# SubnetDesk verification model

SubnetDesk is a remote-desktop program for local networks. This project models the stateful parts of it whose
correctness depends on whole runs, on loops or on arithmetic, and proves what they keep.

Each module has a specification (a state, a total step function and `Exec` over event sequences, or a recursive
function), lemmas that hold for every run or every input, and the code itself: a class for an object that the
source updates in place, a method with loop invariants for a source loop. The contract of such a method equates its
result or its new state with the specification, so the lemmas apply to it.

- `GrabProtocol.dfy`: several windows compete for the keyboard grab under two locks, with deferred-release timers
  and operations that check ownership, unlock and only then act (`src/keyboard.rs`, Linux build). Critical sections
  are atomic events and every interleaving of them is a run. The test of the `rdev` flag happens in the source
  before the lock is taken; because the flag may change at any point of a run and guards nothing else, runs with that
  gap are included.
- `PressedKeys.dfy`: pressed keys, modifier bits, the long-press filter and the release of all keys
  (`src/keyboard.rs`, Map mode). `process_event` is four separately locked sections, and the sections of any number
  of threads interleave.
- `KeyRouting.dfy`: the same with several peers. A call looks up the layout of the session that is current then, and
  its message goes to the session that is current when it is sent. The current session changes when the cursor enters
  another window.
- `AudioBuffer.dfy`: the jitter buffer with its in-place histogram sweep (`src/client.rs`).
- `LanDiscovery.dfy`, `LanConnect.dfy`, `TrustStore.dfy`: merging a discovery scan, choosing and trying addresses,
  trust on first use (`src/lan.rs`, `src/client.rs`).
- `DecoderFailures.dfy`: the decode-failure counter (`src/client.rs`).
- `ClipboardSync.dfy`: two machines that exchange clipboards (`src/clipboard.rs`).
- `FrameMailbox.dfy`, `SessionRegistry.dfy`: the single-slot frame mailbox and the registry of sessions and windows
  (`src/flutter.rs`).
- `LogExport.dfy`: the budgeted diagnostic export (`src/diagnostics.rs`).
- `FileScan.dfy`: the chunked file scanners (`build.py`).
- `Common.dfy`, `Lists.dfy`: shared definitions and lemmas about lists.

Some expected properties hold only under a condition, which is then proved to be exact:

- A `Run` that refreshes the grab disarms older timers exactly when the clock has moved since their grab
  (`RefreshIsSafeIffClockMoved`); a stopped clock is a counterexample (`StoppedClockDefeatsRefresh`).
- A window keeps the grab while it stays inside and nobody else runs, exactly if no sleeping timer of its own remembers
  the very instant of its `Run` (`KeepsGrabWhileInside`); under the same condition at most one timer sleeps for each grab
  (`NoRedundantTimers`, `OneTimerIffNewInstant`).
- An owner's leave gets through exactly if its `Wait` finds the `rdev` flag on, or a sleeping timer that will release the
  grab anyway (`LeaveIsNeverLostIff`). The source drops a `Wait` while the flag is off (`DisabledFlagLosesLeave`), which
  happens when a window that is not the owner switches the input source.
- Pressed keys are accounted for whenever no thread is active, in every run, exactly when no layout sends two local keys
  as one code, no press of a key that a peer or the modifier table knows overlaps with a release of it, no call names
  another session than the current one, and the current session changes only in idle moments, the last two except
  between peers that no key reaches (`AccountedIff`). The code excludes none of this: a timer thread that releases a key and the listener thread that
  presses it can leave the peer's view (`PressBeforeSend`) or a modifier bit (`PressBeforeTrack`) wrong, and a key that
  is released after the cursor has entered another window stays down on the first peer (`SwitchStrandsKey`).
- The chunked version scan agrees with the whole file exactly when the largest number does not start more than the
  overlap before the chunk in which it ends (`VersionScanIsExactIff`); nine digits are always safe, ten are not
  (`NineDigitsIsTight`).
- The chunked marker search agrees with the whole file exactly for non-empty markers whose overlap fits a chunk
  (`MarkerScanExactIff`). The comment at `build.py:777` gives the overlap as the only condition.
- Audio drops keep whole frames exactly for one or two channels, or if the sample rate is divisible by 40 and 1/40 of
  a second holds an even number of samples (`DropsWholeFramesIff`); 44100 Hz with six channels is a counterexample
  (`SurroundDropSplitsFrame`).
- Clipboard content received from the peer is sent back exactly if it is read with `force`, past its marker. The program
  does so when the client sends its current clipboard and no message is cached (`EchoIff`, `ResendEchoes`);
  `check_clipboard` could also be asked to, but no caller does.
- A registry stays well-formed exactly when an inserted window id is not in use for another peer
  (`InsertKeepsInvIff`).

In the audio sweep the comment at `src/client.rs:684` calls `max` the level that took most of the time; the code
clears bin 0 first, so the model's `FirstArgmax` ranges over bins 1 to 29.

## Model

| member | source | states |
|---|---|---|
| `GrabProtocol.StepKeepsInv` | src/keyboard.rs:157-319 | every critical section, timer wake-up and check-then-act step keeps: hooked, owner and last_grab agree; the OS grab follows the owner or a queued operation will make it so; a pending deferral has a matching timer; timers wake 350 to 351 ms after the grab they remember |
| `GrabProtocol.Convergence` | src/keyboard.rs:121-146 | for every interleaving from any number of windows: with no operation queued or in flight the OS grab is on exactly when somebody owns it, and hooked, owner-present and last_grab-present agree in every state |
| `GrabProtocol.OperationsDrain` | src/keyboard.rs:121-146 | in whatever order the queued operations run: the number of their effective steps is bounded by the work left, the owner stays, and they cannot go on exactly when none is left |
| `GrabProtocol.DrainingSchedule` | src/keyboard.rs:121-146 | from every state some such sequence reaches quiescence |
| `GrabProtocol.LeaveIsNeverLost` | src/keyboard.rs:215-303 | after an owner's Wait that finds the rdev flag on, or a timer that will release the grab anyway, and no later Run: nobody owns the grab once all timers have fired, the OS grab is then off, and until then some sleeping timer is due in time and releases the grab when it wakes |
| `GrabProtocol.LeaveIsNeverLostIff` | src/keyboard.rs:158-162 | an owner's leave gets through in every continuation without a Run if and only if its Wait finds the flag on or such a timer |
| `GrabProtocol.DisabledFlagLosesLeave` | src/keyboard.rs:159-162 | a window that takes the grab and leaves while the flag is off keeps the grab, with no timer to release it |
| `GrabProtocol.TimerNeverReleasesRefreshedGrab` | src/keyboard.rs:248-276 | a timer of an earlier grab instant changes nothing but its own disappearance, after any Run and any continuation; sleeping timers never remember a later instant |
| `GrabProtocol.StoppedClockDefeatsRefresh` | src/keyboard.rs:248-276 | with a clock that stands still between two Runs of one window, the timer of the first releases the grab of the second |
| `GrabProtocol.RefreshIsSafeIffClockMoved` | src/keyboard.rs:180-189 | a sleeping timer is harmless in all continuations after a Run if and only if the clock has moved past the instant it remembers |
| `GrabProtocol.MinimumHold` | src/keyboard.rs:106-109 | a window not displaced by another window's Run keeps the grab for 300 ms after its own Run, through any Waits and timers, and the OS grab is on whenever the operations have drained |
| `GrabProtocol.StaleWaitIsIgnored` | src/keyboard.rs:216-227 | a Wait from a window that does not own the grab changes nothing at all |
| `GrabProtocol.OwnersWait` | src/keyboard.rs:235-303 | in every reachable state the owner's Wait releases at once exactly from 300 ms after its last Run on; before that the grab stays and a timer will release it |
| `GrabProtocol.KeepsGrabWhileInside` | src/keyboard.rs:216-227 | after its Run a window keeps the grab in every continuation in which it never waits and no other window runs, however long and through all late Waits of others, if and only if no sleeping timer of its own remembers that very instant |
| `GrabProtocol.NoRedundantTimers` | src/keyboard.rs:237-246 | through every run whose Runs fall on new instants at most one timer thread sleeps for each grab, however often a window waits |
| `GrabProtocol.OneTimerIffNewInstant` | src/keyboard.rs:180-189 | one more Run and Wait keep that, if and only if no timer of the window remembers the instant of the Run |
| `GrabProtocol.HandoffRegrabs` | src/keyboard.rs:121-134 | a window that takes the grab from another one lets go of the OS grab before it takes it again; one that finds no owner takes it directly |
| `GrabProtocol.GrabController.ChangeToRun` | src/keyboard.rs:173-214 | the Run branch, including the refresh by the present owner, is the specified step |
| `GrabProtocol.GrabController.ChangeToWait` | src/keyboard.rs:215-303 | the Wait branch: ignored for a non-owner, deferred within the debounce time, immediate otherwise |
| `GrabProtocol.GrabController.ReleaseOwner` | src/keyboard.rs:287-303 | the release shared by the immediate and the deferred path clears owner, grab instant, flag and hook together and queues one ungrab |
| `GrabProtocol.GrabController.DeferredRelease` | src/keyboard.rs:248-276 | the timer thread releases only if owner and grab instant are still those of its snapshot |
| `GrabProtocol.GrabController.LockAndCheck` | src/keyboard.rs:121-146 | both grab operations up to the ownership check under GRAB_OP_LOCK |
| `GrabProtocol.GrabController.CallRdev` | src/keyboard.rs:129-145 | the OS calls made after the check, with GRAB_STATE unlocked |
| `KeyRouting.PressedKeysAccounted` | src/keyboard.rs:321-346 | over every interleaving of the sections of user keys and releases on any number of threads with changes of the current session: under the condition below, with no thread active each modifier bit equals membership in TO_RELEASE, the current peer holds exactly the tracked keys, and no other peer holds any |
| `KeyRouting.AccountedIff` | src/keyboard.rs:922-1015 | those accounts are right in every run if and only if no layout gives two keys one code, a press and a release overlap at most for keys that neither a peer nor the modifier table knows, and, except between peers that no key reaches, calls are for the current session, which changes only in idle moments |
| `KeyRouting.SwitchStrandsKey` | src/keyboard.rs:993-1003 | for any two peers and any key that reaches the first: pressed at the first and released after a switch to the second, it stays down on the first while nothing is tracked |
| `KeyRouting.HarmfulWayFails` | src/keyboard.rs:993-1015 | every change of the current session that is not harmless has a run in which only that change happens in the middle of something and the accounts end up wrong |
| `KeyRouting.DoSimulates` | src/keyboard.rs:321-346 | while calls are for the current peer, each step is a step of the bookkeeping with that peer's layout, and no other peer hears of it |
| `KeyRouting.ReleaseLeavesOnlyNewPresses` | src/keyboard.rs:732-756 | once a release and all other threads are done, TO_RELEASE holds only keys pressed since it took the map or whose press was then under way, for every interleaving of sections and session changes, the Alt bounce included |
| `KeyRouting.ReleasedEverywhere` | src/keyboard.rs:732-756 | in runs that meet the condition, only those keys are down, only on the current peer, and only their modifier bits are set |
| `KeyRouting.ReleaseFollowsCurrent` | src/keyboard.rs:737-750 | through every continuation a release sends to the session that is current at that moment |
| `KeyRouting.KeyFollowsTarget` | src/keyboard.rs:332-346 | through every continuation a key is sent to the session it names, or else to the current one |
| `PressedKeys.PressBeforeSend` | src/keyboard.rs:327-329 | a press between another thread's untracking and sending of a release leaves the key tracked and the peer seeing it up |
| `PressedKeys.PressBeforeTrack` | src/keyboard.rs:922-958 | a press between another thread's clearing of the bit and untracking leaves the bit of an untracked modifier set, so that its later presses are filtered |
| `PressedKeys.OverlapLosesAccount` | src/keyboard.rs:922-958 | every key that the peer or the modifier table knows has a run in which only its own calls overlap and its accounts end up wrong |
| `PressedKeys.WholeCall` | src/keyboard.rs:321-330 | a call whose sections are not interrupted, whatever the other threads are in the middle of, is the one-step specification |
| `PressedKeys.SharedCodeLosesAccount` | src/keyboard.rs:1247-1255 | any two keys with a common code give a run of one thread after which the peer's view is wrong |
| `PressedKeys.StepKeepsInv` | src/keyboard.rs:922-958 | every section of every thread keeps, for a key without opposed overlaps: what calls in the middle have achieved still stands, and with none in the middle bit, TO_RELEASE, pending releases and the peer agree |
| `PressedKeys.StepHoldsOnly` | src/keyboard.rs:732-756 | every section of every thread keeps: TO_RELEASE holds only allowed keys and keys that some thread will take out |
| `PressedKeys.TypedIsSent` | src/keyboard.rs:717-730 | for every history of inputs exactly these messages are sent, in order: all except presses of a modifier whose previous input in the history was a press, too |
| `PressedKeys.PlainKeysRepeat` | src/keyboard.rs:717-730 | a history without modifiers, such as a letter held down, is sent input by input |
| `PressedKeys.CallFollowsHistory` | src/keyboard.rs:321-330 | one call keeps the modifier bits those of the history and sends what the history asks for |
| `PressedKeys.AltGetsAnotherStroke` | src/keyboard.rs:738-750 | a released key is sent up; either Alt is sent up, down and up |
| `PressedKeys.KeyTracker.ProcessEvent` | src/keyboard.rs:321-330 | long-press filter, modifier bit, TO_RELEASE and the message sent; what has been sent stays exactly what the history of inputs asks for |
| `PressedKeys.KeyTracker.ReleaseOne` | src/keyboard.rs:738-750 | one turn of the release loop leaves the key up everywhere, and the extra Alt stroke is really sent |
| `PressedKeys.KeyTracker.ReleaseRemoteKeys` | src/keyboard.rs:732-756 | for any map order and from any state: exactly the tracked keys go up everywhere, with the release messages of each once; from right accounts nothing stays down and no modifier set |
| `AudioBuffer.LeadingZeros` | src/client.rs:682-689 | the sweep's first water mark: the length of the longest prefix of empty bins |
| `AudioBuffer.FirstArgmax` | src/client.rs:684-697 | the sweep's second water mark: the first of the fullest bins among 1 to 29, or 0 if they are empty |
| `AudioBuffer.Sweep` | src/client.rs:682-704 | the in-place loop computes both water marks of the histogram as it was and leaves all bins zero |
| `AudioBuffer.DropBound` | src/client.rs:698-718 | the drop is even, leaves more than twice as much buffered, and less one sample lasts at most two thirds as long as any level recorded in the window, across resizes too |
| `AudioBuffer.DropAfterBound` | src/client.rs:743-746 | the same when the level recorded last is the buffered one, as after an append |
| `AudioBuffer.NoDropBelowFloor` | src/client.rs:701-708 | nothing is dropped while the commonest duration of the window is below 600 ms |
| `AudioBuffer.NoDropOfShortLevels` | src/client.rs:701-708 | in particular if no level of the window plays for 600 ms |
| `AudioBuffer.ExactDrop` | src/client.rs:698-718 | otherwise the amount is the commonest duration, at most four times two thirds of the lowest, in fortieths of a second rounded up to even, and it is dropped exactly when more than three times as much is buffered |
| `AudioBuffer.BinIsTenths` | src/client.rs:663-666 | a level is counted under the tenths of a second it plays for, from 2.9 seconds on under the last |
| `AudioBuffer.SweepsAreApart` | src/client.rs:669-680 | two sweeps, and the first call and a sweep, are at least 12 seconds apart |
| `AudioBuffer.SweptWithinInterval` | src/client.rs:669-680 | between two calls 12 seconds apart there is a sweep |
| `AudioBuffer.DropsWholeFramesIff` | src/client.rs:714 | for every format: some sequence of levels of that format, none above the capacity, makes a drop split a frame, if and only if there are more than two channels and the sample rate is not divisible by 40 or 1/40 of a second holds an odd number of samples |
| `AudioBuffer.SurroundDropSplitsFrame` | src/client.rs:714-717 | 44100 Hz, six channels and 0.7 seconds buffered: the drop leaves four samples of a frame |
| `AudioBuffer.ActualDropIsWhole` | src/client.rs:712-718 | in a format that meets the condition every drop is whole frames |
| `AudioBuffer.PushRing` | src/client.rs:724-738 | both append branches keep exactly the newest capacity samples of old and new, and report the new level |
| `AudioBuffer.AppendKeepsStream` | src/client.rs:724-738 | an append keeps the ring a suffix of everything appended, popped + dropped + buffered = appended, and both ends on frame boundaries |
| `AudioBuffer.SkipKeepsStream` | src/client.rs:712-718 | so do a drop and a pop |
| `AudioBuffer.Buffer.Resize` | src/client.rs:649-657 | a changed capacity empties the ring and restarts the frame count, the histogram stays, and capacity is always three seconds |
| `AudioBuffer.Buffer.AppendPcm2` | src/client.rs:724-738 | the stream invariant with the new samples accounted for |
| `AudioBuffer.WantedDrop` | src/client.rs:698-714 | the amount to skip, from the two water marks |
| `AudioBuffer.Buffer.Fill` | src/client.rs:948-960 | the oldest samples leave the ring in order, then silence |
| `AudioBuffer.Buffer.Play` | src/client.rs:919-961 | the device gets the oldest samples in order and then silence; if the ring runs short and there is time, what arrives during one wait counts too |
| `AudioBuffer.Buffer.Record` | src/client.rs:663-667 | the histogram keeps counting exactly the levels of the window |
| `AudioBuffer.Buffer.SweepHistogram` | src/client.rs:682-714 | the wanted drop as a function of the levels recorded since the last sweep |
| `AudioBuffer.Buffer.DropByHistogram` | src/client.rs:682-718 | the samples dropped are the oldest ones, their number is a function of the window and the level, and frames stay whole |
| `AudioBuffer.Buffer.TryShrink` | src/client.rs:659-719 | at most every 12 seconds, and then the drop bound for every level recorded since the last sweep |
| `AudioBuffer.Buffer.AppendPcm` | src/client.rs:743-746 | the recorded level is the one after the append, and the drop is a function of it and the levels since the last sweep; frames stay whole in the formats that allow it |
| `FileScan.CarriesMarker` | build.py:776-788 | the loop answers whether the marker is in the whole file, whenever the overlap fits a chunk |
| `FileScan.MarkerScanIsExact` | build.py:776-788 | for every file, non-empty marker and chunk of at least marker length minus one, a hit in some window if and only if the marker is a substring of the file |
| `FileScan.ShortChunksMissMarker` | build.py:783-788 | for every smaller chunk some file holds the marker and is missed |
| `FileScan.MarkerScanExactIff` | build.py:776-788 | the scan is exact on all files if and only if the marker is non-empty and its overlap fits a chunk |
| `FileScan.MaxOfMatches` | build.py:650-651 | resuming after each match, as the regular expression iterator does, misses no match |
| `FileScan.MaxGlibcMinor` | build.py:640-652 | the loop returns the largest minor version of the whole file exactly when that number fits, and always for numbers of at most nine digits |
| `FileScan.VersionScanIsExactIff` | build.py:640-652 | for every file: the chunked maximum is never too large, and it is the whole-file maximum if and only if that is 0 or attained by a number that starts at most 16 bytes before the chunk in which it ends |
| `FileScan.VersionScanIsExact` | build.py:640-652 | numbers of at most nine digits are never misread for good, although a split one is first read as a smaller prefix |
| `FileScan.ScanReadsDecimals` | build.py:650-651 | of a file that lists versions below one billion in decimal, with any separator, the scan returns the largest; of a file that is one version, that version |
| `FileScan.DigitsRoundTrip` | build.py:651 | reading the decimal digits of a number gives the number back |
| `FileScan.MaximumOfJoined` | build.py:650-651 | behind a separator the numbers of two joined files are the numbers of both |
| `FileScan.TenDigitsAreMisread` | build.py:652 | for every chunk size of at least the overlap some file with a ten-digit number gives too small an answer |
| `FileScan.NineDigitsIsTight` | build.py:640-652 | for every chunk size of at least the overlap, nine is the largest digit bound under which the scan is exact on every file |
| `LanDiscovery.MergedOrder` | src/lan.rs:549-570 | after any responses: heard identities most recent first, then the unheard ones in their stored order |
| `LanDiscovery.IdentitiesStayDistinct` | src/lan.rs:549-583 | the published list has no duplicate identity if and only if the stored list had none |
| `LanDiscovery.SameIdentityIff` | src/lan.rs:584-590 | peers with fingerprints are the same exactly if these are equal up to case, peers without exactly if their ids are equal |
| `LanDiscovery.RecordsStay` | src/lan.rs:561 | a hardware address on record is never overwritten by a response |
| `LanDiscovery.MergedContents` | src/lan.rs:551-564 | a heard entry repeats the last response with its identity, an unheard one is the stored one |
| `LanDiscovery.MergedAddresses` | src/lan.rs:553-561 | for every identity the known addresses are exactly the stored and the heard ones, endpoint hosts included |
| `LanDiscovery.ScanResult` | src/lan.rs:542-590 | the whole scan: order, distinct identities, seen or missed, and no address lost |
| `LanDiscovery.Receive` | src/lan.rs:549-564 | the handling of one response, with search, removal and inheritance, is the specified merge |
| `LanDiscovery.ReceiveAll` | src/lan.rs:543-570 | the receiving loop merges all responses in order and has seen exactly the heard identities |
| `LanDiscovery.MarkMissed` | src/lan.rs:574-580 | the final loop marks exactly the unheard entries missed |
| `LanDiscovery.HandleReceivedPeers` | src/lan.rs:542-582 | the loops compute the specified scan |
| `LanConnect.Resolve` | src/lan.rs:235-254 | the lower-case fingerprint of the first recent endpoint, else of the first peer, that was asked for; an ill-formed or missing one means unknown |
| `LanConnect.FingerprintIff` | src/lan.rs:253-254 | a fingerprint is accepted exactly if it writes 32 bytes in hexadecimal, in either case |
| `LanConnect.FoundByDiscovery` | src/lan.rs:240-252 | a device asked for by its endpoint or one of its addresses is found, the first in the list, unless a recent connection is known |
| `LanConnect.AddressIsCandidate` | src/lan.rs:270-282 | every IP address on record is a candidate with the port of the record's endpoint or the default port, in decimal, and in brackets if it is IPv6 |
| `LanConnect.EndpointIsCandidate` | src/lan.rs:259-269 | every non-empty endpoint on record of the device, recent or discovered, is a candidate |
| `LanConnect.OtherDevicesGiveNone` | src/lan.rs:259-268 | without a record of the device the requested authority is the only candidate |
| `LanConnect.DecimalWrites` | src/lan.rs:278-279 | a port is written in decimal digits, without leading zeros, that stand for it |
| `LanConnect.LessIff` | src/lan.rs:274 | addresses are sorted as in a dictionary |
| `LanConnect.PushUnique` | src/lan.rs:289-293 | adds a non-empty value unless present, keeping the order and no duplicates |
| `LanConnect.PushRecent` | src/lan.rs:259-264 | adds exactly the endpoints of recent connections with the resolved fingerprint |
| `LanConnect.SortedAddresses` | src/lan.rs:273-274 | exactly the addresses of the peer, in ascending order, whatever the order of the map |
| `LanConnect.PushAddresses` | src/lan.rs:275-283 | the authorities of the addresses that parse, in that order, each new one at the end |
| `LanConnect.PushPeer` | src/lan.rs:269-283 | adds exactly the endpoint of a peer and then its IP addresses in ascending order with the endpoint's port |
| `LanConnect.PushPeers` | src/lan.rs:265-284 | adds exactly those of all peers with the resolved fingerprint |
| `LanConnect.ConnectionCandidates` | src/lan.rs:226-287 | no duplicates, the requested authority first, and exactly that plus the non-empty endpoints and bracketed or plain IP authorities of records with the resolved fingerprint |
| `LanConnect.TryAll` | src/client.rs:280-331 | one pass tries in order each string not tried before, up to the first success |
| `LanConnect.ConnectLoop` | src/client.rs:276-348 | at most two rounds; the attempts are a prefix of both lists joined without repetition, and all of it on failure |
| `LanConnect.PlanOfStart` | src/client.rs:265-277 | the strings to try are exactly the candidates before and, for a known device, after discovery, requested one first |
| `LanConnect.Start` | src/client.rs:247-354 | no string is tried twice, only candidates are tried, and failure means that every candidate from before and after discovery failed |
| `TrustStore.EveryPinWasApproved` | src/client.rs:2901-2961 | over every run of connections and messages, each stored fingerprint was presented at an earlier step at which Trust was the first answer among the user's messages |
| `TrustStore.PinChangesOnlyByApproval` | src/client.rs:2916-2926 | a pinned endpoint is never forgotten, and its fingerprint changes only by explicit approval for that endpoint |
| `TrustStore.NothingPinnedWithoutTrust` | src/client.rs:2944-2960 | a visit without Trust among its messages changes nothing, except for a new endpoint of a device already stored |
| `TrustStore.RefusalStands` | src/client.rs:2956 | Reject or Close before any Trust leaves a device that the user is asked about unconfirmed and the store as it was |
| `TrustStore.TrustIsHonoured` | src/client.rs:2946-2955 | Trust before any other answer pins the endpoint to the presented fingerprint |
| `TrustStore.KnownDeviceNeedsNoAnswer` | src/client.rs:2916-2925 | a device pinned to what it presents, or known under another endpoint, is confirmed without any message |
| `TrustStore.OtherPinsStay` | src/client.rs:2919-2955 | no visit touches the pin of another endpoint |
| `TrustStore.Trusted.ConfirmLanDevice` | src/client.rs:2901-2961 | true means the endpoint is now pinned to the presented fingerprint, false means that nothing changed |
| `DecoderFailures.ExecReflects` | src/client.rs:1018-1083 | after any frames and resets the counter is the number of payloads that failed in a row, plus two if none has decoded since the reset, up to the width of usize |
| `DecoderFailures.LimitReachedIff` | src/client.rs:1018-1083 | the limit is reached if and only if three payloads failed in a row, or some were tried since the last reset and none decoded |
| `DecoderFailures.VideoThreads.ResetDecoder` | src/client.rs:2248-2252 | a reset starts the count of that display anew and touches no other |
| `DecoderFailures.VideoThreads.HandleFrame` | src/client.rs:2227-2246 | the counter step, and each codec enters the unsupported list at most once with one update message |
| `ClipboardSync.MessageProvenance` | src/clipboard.rs:238-269 | over every interleaving of copies, checks, resends and deliveries on both machines, a message carries something its sender's own user copied, or was read with force and carries what the peer sent before |
| `ClipboardSync.NoClipboardEcho` | src/clipboard.rs:379-408 | so a message read without force carries its sender's own content, whichever side's marker received content bears |
| `ClipboardSync.EchoIff` | src/clipboard.rs:539-550 | a machine sends received content back if and only if it ever reads a non-empty clipboard that the peer wrote by a forced check, or by a resend with an empty cache; otherwise all its messages are its own user's |
| `ClipboardSync.ResendEchoes` | src/clipboard.rs:544-548 | a client whose user copied nothing sends the host's text back when it first sends its current clipboard |
| `ClipboardSync.MarkedBoardIsNotRead` | src/clipboard.rs:571-593 | a clipboard with either side's marker reads as empty without force |
| `ClipboardSync.ContentOfUnmarked` | src/clipboard.rs:366-408 | a clipboard without marker is read as its texts, formatted texts, images and spreadsheets, in order, without empty texts; with files on it nothing is read in builds that copy files |
| `ClipboardSync.FilterConcat` | src/clipboard.rs:398-407 | the filter works item by item and keeps the order |
| `ClipboardSync.CopyArrives` | src/clipboard.rs:54-98 | what a user copies is sent by the next check, and delivery puts it, marked, on the peer's clipboard |
| `ClipboardSync.ResendRepeats` | src/clipboard.rs:539-559 | in every run, sending the current clipboard repeats the last message sent, whatever is on the clipboard by now |
| `ClipboardSync.GetFormatsFilter` | src/clipboard.rs:379-408 | nothing if an owner marker is present and force is off, else the supported items without markers and empty texts |
| `ClipboardSync.Clipboard.UpdateClipboard` | src/clipboard.rs:230-269 | received items are written with the marker, and the next unforced check reads nothing back |
| `ClipboardSync.Clipboard.Get` | src/clipboard.rs:366-377 | the content to send, and none if files are on the clipboard |
| `ClipboardSync.Clipboard.CheckClipboard` | src/clipboard.rs:54-98 | a message and a new cache exactly when there is content to send |
| `ClipboardSync.Clipboard.CurrentMessage` | src/clipboard.rs:539-559 | the cached message, or else what a forced read finds, which is then cached |
| `FrameMailbox.FullSlotWasAnnounced` | src/flutter.rs:1238-1297 | for every interleaving of deliveries, fetches, clears and window changes: a full slot with no delivery under way has a window that was told of its frame |
| `FrameMailbox.FullSlotKeepsBytes` | src/flutter.rs:1248-1254 | until a full slot is given back its bytes do not change, and a frame offered meanwhile changes neither buffer |
| `FrameMailbox.BlockedUntilGivenBack` | src/flutter.rs:1248-1254 | a delivered frame blocks its display through every run without a fetch or a clear, even if all told windows close |
| `FrameMailbox.ReopenedDisplay` | src/flutter.rs:2410-2414 | after any such run, inserting a window for the display gives the slot back: the next decoded frame is stored, the eligible windows are told, and the old buffer is reused |
| `FrameMailbox.DeliveredCases` | src/flutter.rs:1238-1297 | an uninterrupted delivery leaves the slot full only if it was free and some window is told |
| `FrameMailbox.ToldIff` | src/flutter.rs:1269-1284 | of several windows exactly those are told that show this display and nothing else; a single one unless it shows several; none without an event stream |
| `FrameMailbox.UnshownDisplayStaysFree` | src/flutter.rs:1285-1296 | a frame of a display that none of several windows shows on its own does not block the slot |
| `FrameMailbox.NotifyAll` | src/flutter.rs:1267-1284 | for any order of the windows exactly the eligible ones are told |
| `FrameMailbox.Mailbox.OnRgba` | src/flutter.rs:1238-1297 | the code run without interruption is the four sections in a row |
| `FrameMailbox.Mailbox.Next` | src/flutter.rs:1154-1158 | frees the slot of one display and keeps its buffer |
| `SessionRegistry.InsertKeepsInvIff` | src/flutter.rs:2366-2380 | an insertion keeps one peer per window if and only if the id is not in use for another peer |
| `SessionRegistry.InsertAddsOneWindow` | src/flutter.rs:2366-2409 | an insertion adds one window and leaves all others, of the same and of other peers, as they are |
| `SessionRegistry.WindowStays` | src/flutter.rs:2235-2256 | through every run a window stays as it is until an event names it |
| `SessionRegistry.ReachableRegistry` | src/flutter.rs:2235-2276 | with fresh ids every reachable registry gives each peer a window and each window one peer; closing a window takes its peer away exactly when predicted and touches no other entry |
| `SessionRegistry.UnusedDisplaysCheck` | src/flutter.rs:2278-2309 | asks the peer to capture exactly the union of the displays mapped by the other windows, and nothing if it is empty |
| `SessionRegistry.Sessions.Insert` | src/flutter.rs:2366-2380 | the new window joins the entry of its peer, which is created if needed |
| `SessionRegistry.Sessions.InsertPeer` | src/flutter.rs:2388-2419 | adds a window to an existing peer only, says whether it did, and gives back the frame slot of a single display |
| `SessionRegistry.Sessions.WouldRemove` | src/flutter.rs:2266-2276 | for any order of the map, true exactly if the window is the last one of its peer |
| `SessionRegistry.Sessions.RemoveWindow` | src/flutter.rs:2235-2256 | returns a session exactly when the prediction holds, and otherwise asks for the displays the remaining windows map |
| `LogExport.Collect` | src/diagnostics.rs:71-131 | for every tree: examines exactly the first entries of the depth-first walk that the budget allows, across the recursion, opens nothing below depth 4, and without a reported limit has seen the whole tree |
| `LogExport.CollectEntry` | src/diagnostics.rs:97-129 | the same for one entry and what lies below it |
| `LogExport.WalkReachesIff` | src/diagnostics.rs:78-117 | the walk reaches exactly the entries at most five names deep behind readable directories |
| `LogExport.FoundIff` | src/diagnostics.rs:118-128 | of the entries examined exactly the logs modified within the last seven days, or later, are found |
| `LogExport.SortNewestFirst` | src/diagnostics.rs:138 | a permutation of the found logs, newest first, in which logs of equal time keep their order |
| `LogExport.TakeNewest` | src/diagnostics.rs:138-148 | the selected logs are 64 of the found ones, or all, and no unselected log is newer than a selected one |
| `LogExport.ExportStart` | src/diagnostics.rs:153-168 | the exported part starts at byte 0, or just after the first newline at or behind the cut, or at the end |
| `LogExport.ExportedLinesAreWhole` | src/diagnostics.rs:161-168 | the lines of the exported part are the last lines of the file, each of them whole |
| `LogExport.ReadTail` | src/diagnostics.rs:153-170 | at most 2 MiB and at most what is left are read, and the part from the export start on is kept |
| `LogExport.RedactText` | src/diagnostics.rs:37-68 | the redacted text is the redaction of each line in order |
| `LogExport.NoLineEscapes` | src/diagnostics.rs:37-68 | the lines of an exported text are, one for one, the redactions of whole lines of the file, so what redaction guarantees of every line holds of every exported line |
| `LogExport.ExportLog` | src/diagnostics.rs:153-182 | one exported log is the line-wise redaction of whole last lines of its file |
| `LogExport.PackLogs` | src/diagnostics.rs:146-185 | each log is read with what the ones before left of 32 MiB; while some is left, all that open are exported in order |
| `LogExport.BuildBundle` | src/diagnostics.rs:133-185 | the newest 64 of the logs among the first 4096 entries, in order, at most 32 MiB in all, each exported faithfully |

## Left out

- The Windows and macOS grab paths, which have no debounce, timers or grab operations.
- Keyboard translation tables and the Translate and Legacy modes; a layout is an arbitrary map from keys to codes, and
  an event kept in TO_RELEASE is reduced to its key. The relative-mouse exit shortcut is not modelled.
- `rdev`, `ringbuf`, `cpal` and `arboard`: a grab bit, a bounded sequence that overwrites, a device callback and a list
  of items stand for them.
- AudioBuffer.Buffer.Record and AudioBuffer.Buffer.TryShrink: require a positive rate, by which the source divides.
- AudioBuffer.Buffer.Play: what arrives during the wait is appended without a sweep of the histogram.
- PressedKeys.KeyTracker.ReleaseRemoteKeys: describes a release that nobody interrupts while one session stays current;
  others are covered by `KeyRouting.ReleaseLeavesOnlyNewPresses` and `KeyRouting.ReleasedEverywhere`.
- The layouts of the connected peers do not change during a run; a session that closes while it is current is a change
  to a peer without a layout.
- `is_same_peer`, `mark_seen` and `mark_missed` are not part of this model: peers are the same when their
  `discovery_key` is equal, and a status with a time stands for the marks. The path without any discovery transport is
  left out.
- LanConnect.Start: assumes of `Endpoint::parse`, which is not part of this model, that an authority is not empty and
  parses to itself; the outcome of an attempt is a parameter, and so are the records after discovery.
- Hashing of public keys and writing of the configuration in the trust store are parameters of a visit.
- Decoding, recording and the creation of decoders; whether a decoder is valid is a parameter. Each display has one
  video thread.
- The clipboard wire format is an arbitrary function from sent to received items. The first-text fallback for old
  peers, the PRIMARY selection, file clipboards and failing clipboard calls are left out.
- Registry operations are atomic, where the source releases and retakes the map lock when it removes a window.
  `session_switch_display` is left out.
- Rgba hooks, the texture renderer and the multi-display renderer.
- Redaction of one line is an arbitrary function from line to line, which also stands for lossy decoding and carriage
  returns. ZIP encoding, the manifest and the warnings outside discovery are left out. Files do not change while they
  are read.
- Integer widths, except for the failure counter.
- IPC, command-line dispatch, the FFI layer, packaging and resource scripts.
