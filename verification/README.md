# Seven stateful components of the Traycer clients, modelled and proved in Dafny

`dafny verify dfyconfig.toml` checks the whole project. Each component has a model in the source's own form (methods
with loops, classes with the source's fields) proved against a specification, and theorems about that specification.

- **ASCII rewriter and source-map shifter.** `CodeUnits`, `StringLiterals`, `Lines`, `Vlq`, `Columns`, `Mappings`,
  `EditPlan`, `AsciiRewrite`, `AsciiTheorems`, `AsciiNames`. JavaScript text is a sequence of UTF-16 code units. What
  each unit becomes is defined one unit at a time (`EditAt`); the loop of the source is proved to produce exactly
  that. Escapes are read by a left-to-right lexer of string literals (section 12.9.4 of ECMA-262) and, between
  literals, by the escapes of names (section 12.7); line terminators are those of section 12.3, and source-map
  segments are Base64 VLQ (section 6 of ECMA-426) over the 32-bit shifts that JavaScript's `<<`, `>>>` and `&`
  perform.
- **Shard planner.** `ShardPlan`, `ShardBounds`, `ShardGreedy`. Longest-processing-time greedy dealing over exact
  reals, with Graham's 4/3 - 1/(3m) bound against every rival way of sharing out the same files.
- **Resume tracker and network path watcher.** `SystemResume`, `NetworkPath`, `NetworkPathProofs`,
  `NetworkPathBootstrap`, `NetworkPathReference`, `NetworkPathRuns`, `NetworkPathWatcher`. A transition system: one
  step is one arrival the watcher can see (a callback however late, a native read settling, a lifecycle edge, a
  registration failure). The phone's true status is an arbitrary function of native time; a read captures it when
  called, a callback when it occurred. Provenance is recorded beside each status and read by no branch.
  `NetworkPathReference` is a second, much simpler watcher, which the code is proved to refine.
- **Push registration.** `PushRegistration`, `PushRegistrationLog`, `PushRegistrationProofs`, `PushRepairs`,
  `PushRegistrationHistory`, `PushRegistrationRuns`, `MobilePush`. Suspended activations are multisets; any of them
  may continue at any time, in any order, with any answer. What the server is known to hold is read off the log, at
  indices; `PushRegistrationHistory` reads everything else off it too.
- **Download paths and names.** `FileNames`, `DownloadNames`, `DownloadClaims`, `DownloadExclusion`,
  `DownloadCollisions`, `DownloadOrder`, `DownloadSearch`. Names are measured in UTF-8 bytes (section 3 of RFC 3629);
  the claim queue, the claim set and the stats meet a file system whose writes land and fail in any order.
- **Auth invalidation binding.** `AuthInvalidation`.
- **Phone tier copier.** `PhoneTiers`, `PhoneTierTheorems`, `PhoneTierText`.

`Wrappers` and `Sequences` hold what several modules use. Every induction is written out: a lemma Dafny would induct on
by itself says `{:induction false}`, and the project verifies with `--manual-lemma-induction` as well.

An asynchronous component has a `Take` function (one step), a `Run` over any sequence of steps from a fresh start, and
a log of what the run shows from outside. The theorems quantify over every run. A continuation after an `await` runs in
one step with the settling that resumes it: no other callback can come in between, because microtasks drain first. The
classes (`MobileSystemResume`, `MobileNetworkPathWatcher`, `MobilePushRegistration`, `DownloadPaths`,
`AuthInvalidationBinding`) hold the source's fields, and each method's contract gives its whole new state as the same
function of the old one.

## What the proofs found

- Sign-out asks the server to drop the address the provider delivered last. The comment at push-registration.ts:200
  calls it the last address registered. The accepted address is dropped exactly when the two are the same
  (`PushRegistrationProofs.SignOutDropsAcceptedIff`), as they are whenever the state is "registered"
  (`PushRegistrationProofs.RegisteredSignOutDropsAccepted`); after a rotation whose upload was lost they differ, and
  the accepted address stays behind (`PushRegistrationRuns.SignOutLeavesAcceptedAddress`).
- `registrationState()` never answers "registered" wrongly, but a met want is not always reported. It is exactly when
  the settle that recorded the key found it still wanted and no attempt or resume check threw since
  (`PushRegistrationProofs.MetWantIsRegisteredIff`). Both failures are reached with nothing under way: "pending" after
  a trailing send that finds nothing to do (`PushRegistrationRuns.MetWantStaysPending`), "failed" after a resume check
  that threw (`PushRegistrationRuns.MetWantTurnsFailed`).
- The check at push-registration.ts:610-613 arms nothing that the `finally` before it has not armed already
  (`PushRegistrationHistory.SettlementIs`).
- `baselineTrusted` vouches for a native read of the current episode exactly outside the post-resume quarantine
  (`NetworkPathProofs.TrustIsHonestIff`); inside it, it can vouch for a raw callback, which no wake is compared against
  (`NetworkPathRuns.TrustInQuarantine`).
- A confirmation that still owns the commit sequence never retries its quiet read, so the raw fold at
  mobile-runner-host.ts:2279-2286 is reached only when the native read rejects (`NetworkPathProofs.OwnersNeverRetry`).
- A wake can compare against a status read in the background only in the episode in which native registration failed
  while the app was backgrounded (`NetworkPathRuns.WakeAcrossRetirement`).
- The stamped fallback name needs no assumption of uniqueness within a launch: its serial number can be read back, as
  long as no suggested name spells the launch stamp (`DownloadNames.SerialIsUnique`). Otherwise it can collide, because
  the fallback is claimed without a look at the claim set: whatever the names, downloads stay apart exactly as long as
  no search falls back to a path that is held or filled (`DownloadCollisions.ExclusionIff`), and a run in which one
  does ends with two writes on one path (`DownloadCollisions.TwoWritesMeet`).
- The VLQ codec loses nothing exactly below 2^31; outside, it returns the number cut to 31 bits of magnitude
  (`Vlq.RoundTripIffInRange`, `Vlq.RoundTrip`).

## Model

| member | source | states |
|---|---|---|
| ShardPlan.FindLightest | clients/gui-app/scripts/browser-test-shard-plan.ts:52-54 | the reduce finds the first of the lightest shares |
| ShardPlan.DealOne | clients/gui-app/scripts/browser-test-shard-plan.ts:51-57 | pushing a file into the lightest share object and adding its weight is one step of the greedy specification, every other share unchanged |
| ShardPlan.PlanShards | clients/gui-app/scripts/browser-test-shard-plan.ts:34-59 | the loop over mutable share objects yields the specified plan; dealing into no shares fails as `reduce` does |
| ShardBounds.PlanIsNearOptimal | clients/gui-app/scripts/browser-test-shard-plan.ts:44-57 | in seconds, a file without a time counting as the mean of those that have one: no share takes longer than (4/3 - 1/(3m)) times the longest share of any rival plan of the same files |
| ShardBounds.GrahamBound | clients/gui-app/scripts/browser-test-shard-plan.ts:44-57 | the same bound for the greedy loads against every assignment of the weighted items |
| ShardBounds.PlanIsBalanced | clients/gui-app/scripts/browser-test-shard-plan.ts:51-57 | in seconds, each share takes longer than any other by at most the time of one of its own files |
| ShardBounds.LoadsAreBalanced | clients/gui-app/scripts/browser-test-shard-plan.ts:51-57 | a share's weight minus its last-dealt file is at most every other share's final weight |
| ShardBounds.PlanKeepsEveryFile | clients/gui-app/scripts/browser-test-shard-plan.ts:34-59 | the plan fails exactly when there are files but no shares; else the m shares hold exactly the listed files, as a multiset, each in sorted order |
| ShardBounds.PlanIgnoresListingOrder | clients/gui-app/scripts/browser-test-shard-plan.ts:39-59 | any two listings of the same files give the same plan |
| ShardBounds.MeanIsUnknownWeight | clients/gui-app/scripts/browser-test-shard-plan.ts:39-43 | the weight of a file without a time is the one number that, times the number of timed files, gives their total; 1 when none is timed |
| ShardGreedy.PlanIsTheGreedyOne | clients/gui-app/scripts/browser-test-shard-plan.ts:34-59 | a plan is the plan if and only if it comes from dealing the files slowest first, equal ones by name, each to the first share to be done so far |
| ShardBounds.RivalAssignment | clients/gui-app/scripts/browser-test-shard-plan.ts:48-57 | every way of sharing out the files is an assignment of the dealt items with the same share weights |
| Vlq.DecodeVlqSegment | clients/gui-app/vite/ascii-only-output.ts:619-638 | the loop decodes as the recursive definition over 32-bit shifts does, or reports the first bad digit |
| Vlq.EncodeVlqSegment | clients/gui-app/vite/ascii-only-output.ts:640-652 | the loop appends, number by number, the digits of the folded value |
| Vlq.AlphabetRoundTrip | clients/gui-app/vite/ascii-only-output.ts:613-617 | the alphabet and its map are inverse, digit by digit |
| Vlq.AlphabetIsTable | clients/gui-app/vite/ascii-only-output.ts:613-617 | digit and character stand for each other exactly as the table of 64 characters says |
| Vlq.NumberIsSpelled | clients/gui-app/vite/ascii-only-output.ts:640-652 | the format itself: twice the magnitude, plus one if negative, in digits of five bits, the lowest first, each but the last marked as continued, and none to spare |
| Vlq.RoundTrip | clients/gui-app/vite/ascii-only-output.ts:619-652 | decoding an encoding, whatever text follows, gives back every number cut to 31 bits of magnitude and then decodes the rest: encodings concatenate |
| Vlq.RoundTripIffInRange | clients/gui-app/vite/ascii-only-output.ts:619-652 | decode after encode is the identity exactly when every magnitude is below 2^31 |
| Vlq.DecodedInRange | clients/gui-app/vite/ascii-only-output.ts:619-638 | whatever decodes has magnitudes below 2^31 |
| Vlq.FoldedRoundTrip | clients/gui-app/vite/ascii-only-output.ts:632-643 | folding the sign into the lowest bit and unfolding it keep 31 bits of magnitude and the sign |
| Columns.ShiftedColumn | clients/gui-app/vite/ascii-only-output.ts:603-611 | the loop over the edits, with its early exits, is the recursive shift |
| Columns.ShiftSegment | clients/gui-app/vite/ascii-only-output.ts:585-598 | one turn of the delta loop: the new column, its shifted place, and the segment re-encoded with the shifted delta |
| Columns.ShiftLine | clients/gui-app/vite/ascii-only-output.ts:580-599 | the two running columns of the loop compute the line specified by absolute positions |
| Columns.ShiftMappingColumns | clients/gui-app/vite/ascii-only-output.ts:576-601 | the whole mappings string, line by line; a line without edits is copied |
| Mappings.DecodeEncodeAll | clients/gui-app/vite/ascii-only-output.ts:585-600 | joined encoded segments split and decode back to the segments |
| Mappings.ShiftedIsMoved | clients/gui-app/vite/ascii-only-output.ts:582-599 | in absolute positions, every segment's column is exactly the shifted column and its other fields are unchanged |
| Mappings.LineIsMoved | clients/gui-app/vite/ascii-only-output.ts:580-600 | the same, decoded from the re-encoded text of a line |
| Mappings.MappingsAreMoved | clients/gui-app/vite/ascii-only-output.ts:576-601 | the output has the same lines; each untouched one is copied, each other one moved segment by segment |
| CodeUnits.UnicodeEscapeSpells | clients/gui-app/vite/ascii-only-output.ts:351-353 | `\u` and four lower-case digits that read back as the unit, all printable |
| CodeUnits.CodePointEscapeSpells | clients/gui-app/vite/ascii-only-output.ts:355-357 | the braced escape reads back as the code point |
| StringLiterals.EscapedByBackslash | clients/gui-app/vite/ascii-only-output.ts:371-385 | the right-to-left count answers whether an odd run of backslashes precedes |
| StringLiterals.LexRewritten | clients/gui-app/vite/ascii-only-output.ts:301-306 | from every place where the left-to-right lexer stands, the rewritten rest lexes to the same tokens with the changed escapes in normal form: parity and lexer agree |
| StringLiterals.RewritePreservesLiteral | clients/gui-app/vite/ascii-only-output.ts:301-306 | a literal body keeps its string value, unit for unit, surrogate halves included |
| StringLiterals.AsciiStringLiteral | clients/gui-app/vite/ascii-only-output.ts:336-349 | the loop writes the quoted text between quotes |
| StringLiterals.QuotedEvaluates | clients/gui-app/vite/ascii-only-output.ts:336-349 | the quoted text is printable ASCII and evaluates back to its input, for every sequence of units |
| StringLiterals.ConstructionEvaluates | clients/gui-app/vite/ascii-only-output.ts:326-334 | literally a call of `RegExp` whose first argument is a string literal of the pattern and, only when there are flags, whose second is one of the flags |
| StringLiterals.ConstructionIsAscii | clients/gui-app/vite/ascii-only-output.ts:326-349 | the construction is printable ASCII throughout |
| Lines.LineStartOffsets | clients/gui-app/vite/ascii-only-output.ts:522-539 | the loop lists 0 and the end of every line break, CRLF as one |
| Lines.LineIndexOf | clients/gui-app/vite/ascii-only-output.ts:541-550 | the binary search finds the last start at or before the offset |
| Lines.LineIndexIsLineOf | clients/gui-app/vite/ascii-only-output.ts:522-550 | that index is the number of line breaks that end at or before the offset |
| Lines.StartsCutLines | clients/gui-app/vite/ascii-only-output.ts:517-539 | cut at the listed starts, the text falls into lines without a terminator inside, each ended by exactly one LF, CR, CRLF, U+2028 or U+2029, but for the last, which has none |
| EditPlan.LinesAreKept | clients/gui-app/vite/ascii-only-output.ts:212-250 | every offset is on the same line after the rewrite as before |
| EditPlan.LineStartsMove | clients/gui-app/vite/ascii-only-output.ts:212-250 | the result has as many lines, each starting where the old start moved to |
| EditPlan.ListIsInOrder | clients/gui-app/vite/ascii-only-output.ts:238-245 | the edits recorded for a line are disjoint and in column order |
| EditPlan.OffsetsMove | clients/gui-app/vite/ascii-only-output.ts:212-250 | an offset's column on the rewritten line is the shifted column of its old one, and the same unit stands there unless it was replaced |
| AsciiRewrite.ReplacementAt | clients/gui-app/vite/ascii-only-output.ts:288-319 | which range is replaced by what, by span kind, backslash parity, pairs and white space |
| AsciiRewrite.PlanIsProper | clients/gui-app/vite/ascii-only-output.ts:212-250 | edits are disjoint, each replaces some unit above U+007F and no line terminator, by printable ASCII |
| AsciiRewrite.RecordEdit | clients/gui-app/vite/ascii-only-output.ts:238-245 | an edit is filed under its own line at its column there |
| AsciiRewrite.EscapeNonAsciiJavaScript | clients/gui-app/vite/ascii-only-output.ts:203-258 | the loop's joined parts and recorded edits are those of the per-unit definition; nothing to do gives null |
| AsciiTheorems.OnlyKeptUnitsRemain | clients/gui-app/vite/ascii-only-output.ts:218-226 | every unit above U+007F in the output is U+2028, U+2029 or in a tagged template, and was at that place before |
| AsciiTheorems.LiteralsKeepTheirValue | clients/gui-app/vite/ascii-only-output.ts:212-258 | in the whole output each string or untagged template text has its old value |
| AsciiTheorems.RawTextIsCopied | clients/gui-app/vite/ascii-only-output.ts:226 | tagged template text is copied unit for unit |
| AsciiTheorems.RegExpBecomesConstruction | clients/gui-app/vite/ascii-only-output.ts:288-300 | a regular expression literal with a unit above U+007F becomes such a call with its own pattern and flags; any other is copied |
| AsciiNames.NamesKeepTheirMeaning | clients/gui-app/vite/ascii-only-output.ts:308-319 | between any two literals the output, its name escapes read, is the original with its own read and each white space above U+007F as one space |
| AsciiNames.NamesAreReadBack | clients/gui-app/vite/ascii-only-output.ts:308-319 | and where the original holds no escape, that is the original itself, unit for unit |
| AsciiTheorems.SourceMapStillPoints | clients/gui-app/vite/ascii-only-output.ts:576-611 | end to end: the shifted map has the same lines and segments, every other field unchanged, and each segment points at the same character of the rewritten line |
| SystemResume.MobileSystemResume.EnterBackground | clients/mobile/src/mobile-runner-host.ts:1941-1955 | the background edge, once per episode, stamped only when asked |
| SystemResume.MobileSystemResume.EnterForeground | clients/mobile/src/mobile-runner-host.ts:1971-1995 | the foreground edge: epoch listener first, then one resume with the dwell |
| SystemResume.MobileSystemResume.EnsureTracked | clients/mobile/src/mobile-runner-host.ts:2009-2019 | installs the selected pair once |
| SystemResume.MobileSystemResume.OnNative | clients/mobile/src/mobile-runner-host.ts:2042-2082 | an owned native callback acts, a retired one does nothing |
| SystemResume.MobileSystemResume.OnRegistrationFailed | clients/mobile/src/mobile-runner-host.ts:2083-2099 | ownership changes at once and whatever a partial callback wrote is reset |
| SystemResume.MobileSystemResume.OnRemovalsSettled | clients/mobile/src/mobile-runner-host.ts:2100-2112 | the document pair takes over only then, seeded from the current state |
| SystemResume.MobileSystemResume.OnVisibilityChange | clients/mobile/src/mobile-runner-host.ts:1903-1909 | the document pair's edges, never stamped |
| SystemResume.ResumeAnswersBackground | clients/mobile/src/mobile-runner-host.ts:1941-1995 | in every run each resume answers a background edge of its own, and its dwell is the time from that very edge, never negative, unknown exactly when that edge has no stamp |
| SystemResume.RunAgrees | clients/mobile/src/mobile-runner-host.ts:1903-2113 | the invariant over every run: the app counts as backgrounded exactly while a background edge is unanswered, with that edge's stamp, and which source owns the episode is what was announced |
| SystemResume.ResumesIff | clients/mobile/src/mobile-runner-host.ts:1903-1995 | after any run, a stimulus resumes if and only if it is a foreground edge of the source that then owns the episode and a background edge is open; the epoch boundary is announced exactly then, if a listener is set |
| SystemResume.BackgroundsIff | clients/mobile/src/mobile-runner-host.ts:1903-1995 | and it announces a background edge if and only if that source says so, or takes over hidden, and none is open; stamped exactly for a native source |
| SystemResume.EpochBeforeResume | clients/mobile/src/mobile-runner-host.ts:1957-1995 | in every run, once a listener is set every later resume comes right after its epoch boundary |
| SystemResume.RetiredReportsNoDwell | clients/mobile/src/mobile-runner-host.ts:2083-2112 | after native registration failed no edge is stamped and every dwell is null |
| SystemResume.RetiredNativeIsInert | clients/mobile/src/mobile-runner-host.ts:2042-2099 | after that a queued native callback changes and announces nothing |
| NetworkPathWatcher.MobileNetworkPathWatcher.SettleQuietRead | clients/mobile/src/mobile-runner-host.ts:2380-2411 | one turn of the quiet read loop: adopt, retry, or give up |
| NetworkPathWatcher.MobileNetworkPathWatcher.EnsureListens | clients/mobile/src/mobile-runner-host.ts:2308-2330 | wires the epoch listener and calls snapshot A, once |
| NetworkPathWatcher.MobileNetworkPathWatcher.OnStatusChange | clients/mobile/src/mobile-runner-host.ts:2330-2352 | a callback is buffered, folded, or starts the confirmation that now owns the commit sequence |
| NetworkPathWatcher.MobileNetworkPathWatcher.ConfirmAndApply | clients/mobile/src/mobile-runner-host.ts:2266-2306 | what a settled confirmation writes and whether it wakes |
| NetworkPathWatcher.MobileNetworkPathWatcher.ContinueBootstrap | clients/mobile/src/mobile-runner-host.ts:2354-2372 | snapshot B is read once registration and snapshot A have settled |
| NetworkPathWatcher.MobileNetworkPathWatcher.FindForegroundRecovery | clients/mobile/src/mobile-runner-host.ts:2461-2474 | the loop over the chain finds a foreground recovery step exactly when there is one |
| NetworkPathWatcher.MobileNetworkPathWatcher.ReconcileBootstrap | clients/mobile/src/mobile-runner-host.ts:2427-2497 | the bootstrap walk: chain, baseline, trust, deferred rebaseline, at most one wake |
| NetworkPathWatcher.MobileNetworkPathWatcher.OnResumeBoundary | clients/mobile/src/mobile-runner-host.ts:2507-2522 | a resume is a commit boundary and opens the quarantine, or is remembered by a bootstrap under way |
| NetworkPathWatcher.MobileNetworkPathWatcher.OnRebaselineReadSettles | clients/mobile/src/mobile-runner-host.ts:2529-2552 | only the newest generation writes the baseline and closes the quarantine |
| NetworkPathProofs.WakesComeFromThisEpisode | clients/mobile/src/mobile-runner-host.ts:2266-2306 | in every run a live wake compares two native reads made since the last resume of a network that really recovered between them, both in the foreground unless this episode was cut short by retirement |
| NetworkPathProofs.BaselinesNeverAge | clients/mobile/src/mobile-runner-host.ts:2266-2293 | stamps of successive trusted baselines never decrease, each is at least as new as every callback delivered before, and no two wakes share a commit sequence |
| NetworkPathProofs.BaselinesAreReads | clients/mobile/src/mobile-runner-host.ts:2392-2411 | every trusted baseline is a native read of the true status at its stamp |
| NetworkPathProofs.OwnersNeverRetry | clients/mobile/src/mobile-runner-host.ts:2266-2293 | a confirmation that still owns the commit sequence is on its first attempt and settles with its own sample, or with none only on a rejected read |
| NetworkPathProofs.TrustIsHonestIff | clients/mobile/src/mobile-runner-host.ts:2185-2206 | in every run a baseline the flag vouches for is a native read of the current episode if and only if no rebaseline is active |
| NetworkPathProofs.BootWakesOnce | clients/mobile/src/mobile-runner-host.ts:2413-2497 | the bootstrap wakes at most once, never in the background, never after a resume, and only for a foreground recovery step |
| NetworkPathProofs.QuickAnswerWakesIff | clients/mobile/src/mobile-runner-host.ts:2266-2352 | from every reachable live state a callback answered by a quick read wakes exactly when the old baseline was trusted, the network truly recovered since, and the app is in the foreground |
| NetworkPathProofs.OwnersWriteBaselines | clients/mobile/src/mobile-runner-host.ts:2266-2293 | in every run the writer of a trusted baseline is the current owner: a confirmation whose callback is still the newest arrival, a rebaseline of the newest resume, or the bootstrap before any resume |
| NetworkPathProofs.WakesAnswerNewestCallback | clients/mobile/src/mobile-runner-host.ts:2266-2306 | in every run a live wake answers a callback after which no callback and no resume came |
| NetworkPathProofs.RunKeeps | clients/mobile/src/mobile-runner-host.ts:2151-2553 | the invariant of the whole watcher over every run |
| NetworkPathBootstrap.BootWakesIff | clients/mobile/src/mobile-runner-host.ts:2427-2497 | in every run the step that ends the bootstrap wakes if and only if no resume came before, the app is in the foreground, and between two sights in a row of snapshot A, the callbacks and snapshot B, both in the foreground, the socket died |
| NetworkPathBootstrap.BootLeavesNewest | clients/mobile/src/mobile-runner-host.ts:2442-2496 | it leaves the newest sight as the baseline, trusted exactly when no resume came before and it is a snapshot; after a resume the quarantine is open |
| NetworkPathBootstrap.SnapshotsAreTrue | clients/mobile/src/mobile-runner-host.ts:2322-2384 | both snapshots are true readings of the moment they were called, B no older than any callback before it |
| NetworkPathReference.NewestWins | clients/mobile/src/mobile-runner-host.ts:2151-2553 | in every run the watcher, with its counters and its maps of racing reads, stands where a reference with at most one valid read stands, and wakes at exactly the same steps, once each |
| NetworkPathRuns.WakeAcrossRetirement | clients/mobile/src/mobile-runner-host.ts:2095-2099 | a run in which a wake compares against a background read, after retirement ended the background without a resume |
| NetworkPathRuns.TrustInQuarantine | clients/mobile/src/mobile-runner-host.ts:2343-2349 | a run in which `baselineTrusted` stands beside a raw callback, inside the quarantine |
| MobilePush.MobilePushRegistration.RegistrationStateNow | clients/mobile/src/push-registration.ts:294-302 | what the Settings row is told |
| MobilePush.MobilePushRegistration.FailProviderRegistration | clients/mobile/src/push-registration.ts:347-354 | a provider failure drops the address and the recorded key and moves the revision |
| MobilePush.MobilePushRegistration.AskProvider | clients/mobile/src/push-registration.ts:356-371 | one provider request at a time |
| MobilePush.MobilePushRegistration.SendCurrentToken | clients/mobile/src/push-registration.ts:545-567 | an upload starts only with none out and something new to send, and clears the recorded key |
| MobilePush.MobilePushRegistration.OnUploadSettled | clients/mobile/src/push-registration.ts:568-613 | accept, refusal and throw: what is recorded, the state, and whether a trailing send is armed |
| MobilePush.MobilePushRegistration.OnStoredCredentials | clients/mobile/src/push-registration.ts:452-512 | the token store's answer to an ensure or a late grant |
| MobilePush.MobilePushRegistration.OnPermission | clients/mobile/src/push-registration.ts:457-526 | the OS's answer, and what is registered then |
| MobilePush.MobilePushRegistration.RevalidateOnResume | clients/mobile/src/push-registration.ts:313-333 | the checks of a resume, in order, and the repair they let through |
| MobilePush.MobilePushRegistration.UnregisterAfterSignOut | clients/mobile/src/push-registration.ts:652-671 | sign-out forgets the login and cancels the timers, and removes the cleanup address |
| MobilePush.MobilePushRegistration.OnScheduledTimer | clients/mobile/src/push-registration.ts:497-503 | the trailing send looks again unless the want is met |
| MobilePush.MobilePushRegistration.OnRegistration | clients/mobile/src/push-registration.ts:252-257 | a delivered address replaces both tokens and is sent |
| PushRegistrationLog.StandsIsStanding | clients/mobile/src/push-registration.ts:545-613 | a key sent at one index and accepted at a later one for the login still there, with no other upload, settle, sign-out, provider refresh or failure since it left, is the one the step-by-step account keeps |
| PushRegistrationLog.StandingStands | clients/mobile/src/push-registration.ts:545-613 | and whatever that account keeps has such a send and such a settle behind it |
| PushRegistrationProofs.RecordedKeyNeverLies | clients/mobile/src/push-registration.ts:545-613 | in every run a key is recorded if and only if it was sent and accepted so, undisturbed since it left; none is while an upload is out |
| PushRegistrationProofs.RegisteredMeansAccepted | clients/mobile/src/push-registration.ts:294-302 | "registered" is answered only when the wanted key is that accepted one |
| PushRegistrationProofs.MetWantIsRegisteredIff | clients/mobile/src/push-registration.ts:600-613 | in every run a recorded want is answered "registered" if and only if its settle found it still wanted and no attempt or resume check threw since |
| PushRegistrationProofs.SettleIsFollowedUp | clients/mobile/src/push-registration.ts:568-613 | after every settle, from any state at all: nothing wanted, or wanted is recorded, or a trailing send is armed, or the state is "failed" |
| PushRegistrationProofs.NoWantIsForgotten | clients/mobile/src/push-registration.ts:452-644 | in every run and at every moment an unmet want is on the wire, armed or being attempted, unless the state is "failed" or the newest attempt was turned away |
| PushRegistrationProofs.OneUploadAtATime | clients/mobile/src/push-registration.ts:545-567 | in every run there is at most one upload on the wire, exactly when the flag says so |
| PushRegistrationProofs.UploadsNeverOverlap | clients/mobile/src/push-registration.ts:545-613 | between any two uploads the first one settles |
| PushRegistrationProofs.SignOutRemovesLastDelivered | clients/mobile/src/push-registration.ts:652-671 | sign-out asks to drop exactly the address delivered last |
| PushRegistrationProofs.SignOutDropsAcceptedIff | clients/mobile/src/push-registration.ts:652-671 | in every run with a login, sign-out drops the address accepted last if and only if it is the one delivered last |
| PushRegistrationProofs.RegisteredSignOutDropsAccepted | clients/mobile/src/push-registration.ts:200-202 | while the state is "registered", sign-out drops the very address that was accepted and still stands |
| PushRepairs.ResumeRepairsIff | clients/mobile/src/push-registration.ts:313-333 | in every run a resume check that finds permission begins a repair if and only if no provider request is pending and no repair since the last sign-out began less than 900000 ms before |
| PushRepairs.RepairsAreSpaced | clients/mobile/src/push-registration.ts:325-332 | in every run two repairs without a sign-out between them begin at least 900000 ms apart |
| PushRepairs.AttemptRegistersIff | clients/mobile/src/push-registration.ts:452-526 | in every run an attempt with a login and permission asks the provider or sends what is wanted, each exactly when it is called for and not already under way |
| PushRegistrationHistory.HistoryDecides | clients/mobile/src/push-registration.ts:200-671 | in every run the phone shows exactly what its history decides, and each field of the code, flag, counter, token, timer, is what that history says |
| PushRegistrationHistory.SettlementIs | clients/mobile/src/push-registration.ts:568-613 | a settle arms a trailing send exactly when something is wanted and it is not what was sent, or the login or the provider state moved; the second check adds nothing |
| PushRegistrationHistory.RowIsTold | clients/mobile/src/push-registration.ts:294-302 | in every run "failed", "registered" and "pending" are told exactly when the history says so |
| PushRegistrationRuns.SignOutLeavesAcceptedAddress | clients/mobile/src/push-registration.ts:200-202 | a run in which the accepted address is not the one sign-out drops |
| PushRegistrationRuns.MetWantStaysPending | clients/mobile/src/push-registration.ts:294-302 | a run in which a met want is "pending" with no upload, timer, attempt or errand left |
| PushRegistrationRuns.MetWantTurnsFailed | clients/mobile/src/push-registration.ts:318-322 | a run in which a met want is "failed", likewise with nothing left, after a resume check threw |
| FileNames.TruncateToBytes | clients/mobile/src/file-save.ts:95-104 | the accumulating loop keeps the longest prefix that fits |
| FileNames.TruncatedIsLongestFit | clients/mobile/src/file-save.ts:90-104 | the cut is a prefix on a character boundary, fits the budget, and every longer prefix does not |
| FileNames.FitIsUnique | clients/mobile/src/file-save.ts:95-104 | only one prefix fits and cannot be lengthened |
| FileNames.EncodedIsRead | clients/mobile/src/file-save.ts:84-104 | the bytes that are counted are UTF-8: they decode to the name, a lone surrogate to U+FFFD |
| FileNames.BoundFits | clients/mobile/src/file-save.ts:118-134 | a bounded name fits 255 bytes and is unchanged exactly when it did; the extension is kept exactly when one character of the stem fits beside it |
| FileNames.InsertIsKeptWhole | clients/mobile/src/file-save.ts:226-238 | the result fits and holds the insert whole, between the longest fitting cut of the stem and the extension, dropped only when it cannot fit beside the insert |
| FileNames.VariantsDiffer | clients/mobile/src/file-save.ts:211-238 | different numbers give one name different variants, even where only one keeps the extension |
| FileNames.NumberedIsSpelled | clients/mobile/src/file-save.ts:341-346 | the insert reads " (n)", n in decimal digits without a leading zero |
| DownloadNames.SerialIsUnique | clients/mobile/src/file-save.ts:347-350 | a path reads back at most one serial number |
| DownloadNames.StampedHasSerial | clients/mobile/src/file-save.ts:347-350 | the fallback carries the serial number it was given |
| DownloadNames.CandidateHasNoSerial | clients/mobile/src/file-save.ts:341-346 | no plain or numbered path can be read as a fallback |
| DownloadNames.StampedCanCollide | clients/mobile/src/file-save.ts:329-335 | a name that spells the stamp is another name's fallback |
| DownloadClaims.DownloadPaths.ClaimDownloadPath | clients/mobile/src/file-save.ts:302-313 | a search waits its turn at the end of the queue |
| DownloadClaims.DownloadPaths.SearchOn | clients/mobile/src/file-save.ts:319-351 | a claimed candidate is passed over, another is asked of the file system, and past the last number the fallback is claimed |
| DownloadClaims.DownloadPaths.OnStat | clients/mobile/src/file-save.ts:269-276 | only a confirmed not-found claims the candidate; every other answer goes on |
| DownloadClaims.DownloadPaths.ReleaseDownloadPath | clients/mobile/src/file-save.ts:353-355 | a settled write gives its claim back, landed or not |
| DownloadClaims.DownloadPaths.StartWrite | clients/mobile/src/file-save.ts:533-573 | a granted path's write starts |
| DownloadExclusion.WritesExclude | clients/mobile/src/file-save.ts:278-355 | in every interleaving no two downloads hold one path, and a path is claimed exactly while one does |
| DownloadExclusion.NothingIsOverwritten | clients/mobile/src/file-save.ts:269-355 | in every interleaving no write starts on a path another download of this launch filled, nor on any existing file unless it is the fallback |
| DownloadCollisions.ExclusionIff | clients/mobile/src/file-save.ts:278-355 | in every run, whatever the names, no two downloads hold one path and none is about to write to a path another filled, if and only if no search falls back to a path that is held or filled |
| DownloadCollisions.CleanRunNeverFalls | clients/mobile/src/file-save.ts:329-351 | in a run none of whose names spells the launch stamp no search ever does |
| DownloadCollisions.FallbackKeepsOneHolderIff | clients/mobile/src/file-save.ts:347-351 | from one holder a path, claiming the fallback keeps it so if and only if its path is not claimed |
| DownloadCollisions.TwoWritesMeet | clients/mobile/src/file-save.ts:329-351 | under every launch stamp, a run in which two downloads are granted one path and both write to it |
| DownloadExclusion.SearchFindsFirstFree | clients/mobile/src/file-save.ts:336-351 | an uninterrupted search claims the first candidate neither claimed nor present, else the next fallback, in at most two steps a candidate |
| DownloadOrder.RequestsAreServedInOrder | clients/mobile/src/file-save.ts:302-313 | in every run the k-th search to begin is for the k-th request, and the k-th path granted is one for that request |
| DownloadSearch.SearchGivesIff | clients/mobile/src/file-save.ts:336-351 | in every interleaving a search is given the candidate after those refused exactly when the file system finds no such file, the next serial fallback exactly when all twenty are refused, and nothing otherwise |
| DownloadSearch.CandidatesAreAsked | clients/mobile/src/file-save.ts:269-323 | and each candidate is refused if claimed, and else that very path is asked of the file system |
| AuthInvalidation.AuthInvalidationBinding.InvalidateSettled | clients/gui-app/src/router.tsx:118-132 | invalidates when settled, arms one listener when pending, does nothing when disposed |
| AuthInvalidation.AuthInvalidationBinding.OnAuthChange | clients/gui-app/src/router.tsx:133-141 | only a changed status or user counts |
| AuthInvalidation.AuthInvalidationBinding.OnResolved | clients/gui-app/src/router.tsx:125-132 | the listener disarms and queues a microtask |
| AuthInvalidation.CompletedLoadPaysEverything | clients/gui-app/src/router.tsx:116-146 | after any run, once the load resolves and settles and the microtasks have drained: nothing armed, queued or owed, and every invalidate still to come has been made, unless disposed |
| AuthInvalidation.NothingIsOwedUntilNextChange | clients/gui-app/src/router.tsx:116-146 | and nothing is owed until the next change, whatever else happens |
| AuthInvalidation.NoChangeIsLost | clients/gui-app/src/router.tsx:116-146 | while a change is owed an invalidate, a listener is armed or a microtask queued |
| AuthInvalidation.IdleChangeInvalidatesIff | clients/gui-app/src/router.tsx:118-141 | after any run a notification invalidates at once if and only if it is a real change, the router is idle and the binding is not disposed; nothing is owed for it then |
| AuthInvalidation.NoInvalidateWithoutChange | clients/gui-app/src/router.tsx:116-146 | every invalidate done or still to come has its own change behind it |
| AuthInvalidation.OwedIsPaid | clients/gui-app/src/router.tsx:118-132 | from every reachable state with a change owed, the load resolving, settling and the microtask give exactly one invalidate |
| AuthInvalidation.OneLoadOneInvalidate | clients/gui-app/src/router.tsx:107-112 | however many changes and restarts one load sees, they share one invalidate, after it settles |
| PhoneTiers.FindClose | clients/mobile/scripts/phone-tier-css.ts:26-35 | the inner loop finds where the brace depth returns to zero, or that it never does |
| PhoneTiers.WithPhoneTiersAtEveryWidth | clients/mobile/scripts/phone-tier-css.ts:17-40 | the outer loop terminates on every text and writes the specified pieces, or fails at the specified offset |
| PhoneTierTheorems.ErasingCopiesRestores | clients/mobile/scripts/phone-tier-css.ts:17-40 | erasing the inserted copies gives the stylesheet back exactly |
| PhoneTierTheorems.UnmarkingRestores | clients/mobile/scripts/phone-tier-css.ts:37-38 | for a stylesheet that never spells the marker, erasing the marked blocks from the written text alone gives it back exactly |
| PhoneTierTheorems.CopiesFollowTheirTier | clients/mobile/scripts/phone-tier-css.ts:21-38 | each copy comes right after its tier and repeats exactly the tier's balanced body |
| PhoneTierTheorems.CloseIsFirstBalance | clients/mobile/scripts/phone-tier-css.ts:26-36 | a tier closes at the first brace where nesting returns to zero, and never exactly when none does |
| PhoneTierTheorems.ThrowsIffNeverCloses | clients/mobile/scripts/phone-tier-css.ts:28-32 | the copier fails at an offset exactly when a tier it reaches there never closes |
| PhoneTierTheorems.FirstHeadIsLeftmost | clients/mobile/scripts/phone-tier-css.ts:4-5 | the head found is the leftmost match of the anchored expression |
| PhoneTierText.FirstHeadIsLeftmostMatch | clients/mobile/scripts/phone-tier-css.ts:4-5 | the head taken is the leftmost match of `^\s*` and either query, spelled out with its line ends and white space, and none exactly when nothing matches |
| PhoneTierText.OutputIsWidened | clients/mobile/scripts/phone-tier-css.ts:17-40 | an output is written if and only if it is the stylesheet with each tier followed by its own body under `.traycer-phone-layout-only` |

## Left out

- The parser and visitor that find literal spans, the reparse of the result and the refusal to construct a rebound
  RegExp: the spans are an input, sorted, disjoint, on code point boundaries, with each regular expression on one line.
- Source maps whose generated columns reach 2^31: the end-to-end theorem asks that the rewritten text be shorter, as
  every JavaScript string is. Mapped columns are asked to lie on their line.
- `>>> 1` in the binary search is division by two, as it is for offsets of a string.
- Floating-point rounding of timings (exact reals) and the locale rules of `localeCompare` (any strict total order).
- The bound and the balance of shares for negative timings, which no measurement gives.
- Subscriber sets of the tracker, the watcher and the registration: one announcement stands for the call of every
  handler, a handler that throws is isolated by the source, and no handler calls back in.
- The tracker without a document, where it never starts.
- Native reads that never settle need no step of their own: a run may simply never contain their settling.
- Everything else in the mobile runner host: HTTP delegation, storage, sandbox, tray, step-up retention.
- Push registration before `start()`, permission prompts beyond their answer, failure reports, tap relaying, storage
  failures, and the HTTP outcome of the sign-out removal. Muted severities are a set, keys are records.
- The server behind push registration: "accepted" is its answer.
- `toFileName` (separators, reserved characters, leading dots), extension lookup, staging and the share sheet; staging
  appears only as a step that moves the shared counter.
- Deletions and writes by others in the download directory while downloads run. A file of an earlier launch at the
  fallback path is not excluded, as the source does not probe it.
- DownloadExclusion.WritesExclude: asks that no suggested name spells the launch stamp, which the source does not check; for any names at all the exact condition is `DownloadCollisions.ExclusionIff`.
- DownloadExclusion.NothingIsOverwritten: asks the same of the suggested names.
- Paths are compared as sequences of characters. Two names the file system takes for one, as names that differ only in
  case on a FAT volume or only in which surrogate stands alone (both are written as U+FFFD), count as different.
- FileNames.VariantsDiffer: asks for a name within the byte limit, as every name that reaches it is, and for numbers of at most 82 digits; the source counts to 20.
- The router's own scheduler: a load starts, resolves and settles whenever a run says so.
- Vite's plugin hooks around the phone tier copier and the ASCII rewrite.
