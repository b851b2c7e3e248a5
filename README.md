# Quectel L86 GNSS driver: transactions and power management

This project models the control logic of Zephyr's driver for the Quectel L86
GNSS module (`drivers/gnss/quectel/lx6/lx6.c`), and proves properties of that model.
The driver talks to the module in PMTK sentences over a UART pipe, through the
modem chat engine. It covers:

- the PMTK vocabulary: fix rate (PMTK220), navigation mode (PMTK886), PPS
  output (PMTK285), enabled constellations (PMTK353 and PMTK313), and the
  search-mode query (PMTK355) with its reply decoder;
- the enum and bitmask encoders that turn Zephyr's `gnss_navigation_mode`,
  `gnss_pps_mode` and `gnss_systems_t` into sentence arguments;
- the transaction engine. Every setter that sends a command, and
  `get_enabled_systems`, formats a request into a 32-byte scratch buffer
  and installs it in the shared `pmtk_script`, formats or copies the
  expected acknowledgement into the second scratch buffer and installs it
  as the match, then runs the script. The chain stops at the
  first negative return code (`goto unlock_return`), all of it under the
  per-device semaphore. `get_fix_rate` and `get_navigation_mode` only return
  `-ENOTSUP`, and `get_supported_systems` returns a constant mask;
- power management: the cold resume (open, attach, resume script, PPS
  configuration, closing the pipe again on any later failure), suspend, the
  standby exit, turn-off, the `pm_action` dispatcher with its 500 ms readiness
  deadline, and the tail of device initialisation.

Modules:

- `Fields`: `%u` decimal rendering and comma-separated fields, with their
  round trips.
- `Pmtk`: sentences, codes, requests, expected acknowledgements, the
  search-mode decoder, and the proof that every body fits its scratch buffer.
- `Chat`: the collaborators as an oracle `Env`. Each call's return code
  comes from `env.status`, and the reply a script hands to the callback from
  `env.reply`. It also holds the observable `Session` (both buffers, the
  callback slot, the response slot, the pipe and the chat attachment), and
  the early-exit chain semantics `Prefix`/`Outcome` with the effect `ApplyAll`.
- `Transactions`: the call chain of every operation, as pure functions, with
  lemmas about ordering, frames, clean-up and outcomes.
- `Lx6`: the driver instance as `class Device`. Its methods perform the
  chains call by call. Each method is proved against the chain functions:
  the returned code is `Outcome` of the chain, the new state is `ApplyAll` of
  the calls made, and a ghost `trace` records lock, sleep and call events in
  order.

The model follows the code as written, except for the 32-bit readiness
deadline (see Findings), including these behaviours of it:

- The power-management `RESUME` action runs the standby exit, not the cold
  resume (lx6.c:316-318). It therefore does not wait for the readiness
  deadline. `Transactions.PmDispatch` proves that only suspend waits.
- `exit_standby_mode` closes the pipe again only when attaching the chat
  fails; a failed wake-up script returns its error with the pipe left open
  (lx6.c:287-302). `resume`, by contrast, closes the pipe on any failure after
  the open (lx6.c:215-234). `Transactions.ColdVsWarmResume` contrasts the two
  paths.
- `set_navigation_mode` expects `PMTK001,886,<mode code>`, with the mode code
  where the acknowledgement's status field belongs (lx6.c:428-429).
  `Pmtk.NavModeAckStatusNotSuccess` shows that this match never carries the
  success status `3`.
- The PMTK355 match is copied verbatim, `$` included, instead of being
  formatted (lx6.c:575).
- A search-mode reply without exactly eight arguments leaves the previous
  response in place, and the getter still reports success with that stale
  value (lx6.c:546-548, 589).
- With satellite reporting configured, the resume script sends the same
  PMTK314 payload a second time with checksum `*29` instead of `*28`
  (lx6.c:100-104). It is modelled as written, and
  `Transactions.SatelliteSentencesRepeatOutput` proves the payloads equal.
  Its response matcher accepts any line.

## Model

| member | source | states |
|---|---|---|
| Fields.Decimal | drivers/gnss/quectel/lx6/lx6.c:351-352 | The `%u` rendering is a canonical decimal: non-empty, digits only, and a leading `0` only for zero |
| Fields.ParseDecimalOfDecimal | drivers/gnss/quectel/lx6/lx6.c:351-352 | Reading back the `%u` rendering of `n` gives `n` |
| Fields.DecimalOfParseDecimal | drivers/gnss/quectel/lx6/lx6.c:351-352 | Every canonical decimal is the `%u` rendering of the number it denotes |
| Fields.DecimalInjective | drivers/gnss/quectel/lx6/lx6.c:362-363 | Distinct numbers render to distinct texts |
| Fields.DecimalLength | drivers/gnss/quectel/lx6/lx6.c:62-63 | A number below 10^k renders in at most k characters |
| Fields.Split | drivers/gnss/quectel/lx6/lx6.c:473-476 | Splitting at the `,` separator yields at least one field, and no field contains a comma |
| Fields.SplitJoin | drivers/gnss/quectel/lx6/lx6.c:486-487 | Splitting the comma-join of comma-free fields gives those fields back |
| Fields.JoinSplit | drivers/gnss/quectel/lx6/lx6.c:473-476 | Joining the fields of any text with commas gives the text back |
| Fields.JoinConcat | drivers/gnss/quectel/lx6/lx6.c:486-487 | Joining two field lists puts exactly one separator between their joins |
| Pmtk.ParseText | drivers/gnss/quectel/lx6/lx6.c:144-145 | Every well-formed sentence body parses back to its id and arguments |
| Pmtk.TextInjective | drivers/gnss/quectel/lx6/lx6.c:155-156 | Two well-formed sentences with the same text are the same sentence |
| Pmtk.FixRateAckEchoes | drivers/gnss/quectel/lx6/lx6.c:362-363 | The expected fix-rate acknowledgement names command 220, carries status 3 and echoes exactly the interval |
| Pmtk.FixRateAckInjective | drivers/gnss/quectel/lx6/lx6.c:362-363 | No two intervals share an expected acknowledgement |
| Pmtk.FixRateText | drivers/gnss/quectel/lx6/lx6.c:351-363 | The request is `PMTK220,<ms>` and the match `PMTK001,220,3,<ms>` |
| Pmtk.FixRate500 | drivers/gnss/quectel/lx6/lx6.c:351-363 | A 500 ms interval gives `PMTK220,500` and `PMTK001,220,3,500` |
| Pmtk.NavModeCodeBijective | drivers/gnss/quectel/lx6/lx6.c:397-413 | The navigation-mode code map is a bijection between the four modes and {0, 1, 2, 4}, so balloon (3) is never sent |
| Pmtk.NavModeCode | drivers/gnss/quectel/lx6/lx6.c:397-413 | Every navigation mode maps to one of the codes 0, 1, 2 and 4, and decoding that code gives the mode back |
| Pmtk.NavModeAckStatusNotSuccess | drivers/gnss/quectel/lx6/lx6.c:428-429 | The expected PMTK886 acknowledgement has the mode code in its status field, which is never the success status, so it differs from `PMTK001,886,3` |
| Pmtk.NavModeText | drivers/gnss/quectel/lx6/lx6.c:417-429 | The request is `PMTK886,<code>` and the match `PMTK001,886,<code>` |
| Pmtk.PpsModeCodeBijective | drivers/gnss/quectel/lx6/lx6.c:126-142 | The PPS-mode code map is a bijection between the four modes and {0, 1, 2, 4} |
| Pmtk.PpsModeCode | drivers/gnss/quectel/lx6/lx6.c:126-142 | Every PPS mode maps to one of the codes 0, 1, 2 and 4, and decoding that code gives the mode back |
| Pmtk.PpsRequestRoundTrip | drivers/gnss/quectel/lx6/lx6.c:144-145 | The PMTK285 request has two arguments, from which the mode and the pulse width are recovered exactly |
| Pmtk.PpsText | drivers/gnss/quectel/lx6/lx6.c:144-156 | The request is `PMTK285,<mode>,<width>` and the match `PMTK001,285,3` |
| Pmtk.FlagText | drivers/gnss/quectel/lx6/lx6.c:475-476 | A constellation flag prints `1` when its bit is set and `0` otherwise |
| Pmtk.SearchModeEnabled | drivers/gnss/quectel/lx6/lx6.c:536-539 | An argument reads as enabled exactly when it starts with `1`: `1` is enabled; `0` and the empty argument are not |
| Pmtk.SearchModeEnabledOfFlag | drivers/gnss/quectel/lx6/lx6.c:475-476 | Reading a constellation flag as printed in PMTK353 with the reply decoder's test gives back whether its bit was set |
| Pmtk.EnableSystemsRequestRoundTrip | drivers/gnss/quectel/lx6/lx6.c:464-476 | For an accepted mask, the PMTK353 request parses back to its five arguments, and decoding them gives back exactly the mask |
| Pmtk.EnableSystemsRequestInjective | drivers/gnss/quectel/lx6/lx6.c:473-476 | Distinct accepted masks give distinct PMTK353 requests |
| Pmtk.EnableSystemsAckEchoes | drivers/gnss/quectel/lx6/lx6.c:486-489 | The expected PMTK353 acknowledgement is command 353, status 3, followed by the request's own arguments |
| Pmtk.EnableSystemsText | drivers/gnss/quectel/lx6/lx6.c:473-489 | The request is `PMTK353,<flags>` and the match `PMTK001,353,3,<flags>`, with the same flags |
| Pmtk.EnableArgsLength | drivers/gnss/quectel/lx6/lx6.c:473-476 | The five PMTK353 arguments always take nine characters |
| Pmtk.SbasRequestAlwaysOff | drivers/gnss/quectel/lx6/lx6.c:464-469 | The SBAS bit is rejected up front, so every PMTK313 request sent is `PMTK313,0` |
| Pmtk.SbasAckText | drivers/gnss/quectel/lx6/lx6.c:515-516 | The PMTK313 match is `PMTK001,313,3` |
| Pmtk.SearchModeSystems | drivers/gnss/quectel/lx6/lx6.c:550-554 | The decoded mask has no bit outside GPS, GLONASS, Galileo, BeiDou and QZSS, and never SBAS |
| Pmtk.SearchModeSystemsBits | drivers/gnss/quectel/lx6/lx6.c:536-554 | Each decoded bit is set exactly when its reply argument (argv[1] to argv[5]) begins with `1` |
| Pmtk.SearchModeRoundTrip | drivers/gnss/quectel/lx6/lx6.c:550-554 | Decoding a reply that reports the systems `s` gives back the reportable part of `s` |
| Pmtk.BodiesFitScratch | drivers/gnss/quectel/lx6/lx6.c:62-63 | For valid inputs, every request and match body, framed with `$`, `*HH` and the terminator, fits its 32-byte buffer |
| Chat.UncheckedCallsNeverStop | drivers/gnss/quectel/lx6/lx6.c:575-583 | Whatever the collaborator would return, a `strncpy` or a callback change, whose results are never checked, never stops a chain: the chain goes straight on to its next call |
| Chat.Prefix | drivers/gnss/quectel/lx6/lx6.c:351-376 | An early-exit chain makes a prefix of its calls: all before the last succeed, and it is cut short only by a failing call |
| Chat.Outcome | drivers/gnss/quectel/lx6/lx6.c:351-380 | A non-empty chain returns the code of the last call it actually made |
| Chat.OutcomeFailsIff | drivers/gnss/quectel/lx6/lx6.c:351-380 | A chain returns a negative code exactly when one of its calls fails |
| Chat.OutcomeRunsAll | drivers/gnss/quectel/lx6/lx6.c:351-380 | A chain that does not fail makes every call |
| Chat.OutcomeStopsAtFailure | drivers/gnss/quectel/lx6/lx6.c:351-380 | A failing chain stops right after the call that failed |
| Chat.OutcomeNegative | drivers/gnss/quectel/lx6/lx6.c:351-380 | The three facts above together |
| Chat.ChainCons | drivers/gnss/quectel/lx6/lx6.c:351-355 | The first call of a chain either ends it with its own code or hands over to the rest |
| Chat.ChainStopsAt | drivers/gnss/quectel/lx6/lx6.c:351-380 | A chain whose calls before `k` succeed ends at `k` with that call's code, when `k` fails or is the last call |
| Chat.ChainConcat | drivers/gnss/quectel/lx6/lx6.c:499-529 | In a chain of two parts, the second part runs only when the first succeeds, and then it decides the result |
| Chat.ChainThen | drivers/gnss/quectel/lx6/lx6.c:499-529 | After a successful first part, the second part's calls follow it both in the session and in the event trace |
| Chat.SearchModeReply | drivers/gnss/quectel/lx6/lx6.c:546-555 | A reply without eight arguments leaves the response slot unchanged; one with eight stores a mask of reportable systems only |
| Chat.Apply | drivers/gnss/quectel/lx6/lx6.c:351-376 | A failing call changes nothing. Only formats and copies touch the buffers, and only a callback change touches the callback. The response slot changes only through a script run with the search-mode callback installed. Only open and close touch the pipe, and only attach touches the attachment |
| Chat.ApplyAllConcat | drivers/gnss/quectel/lx6/lx6.c:351-380 | Running two runs of calls in sequence has the effect of the first, then the second |
| Chat.Frame | drivers/gnss/quectel/lx6/lx6.c:541-583 | The pipe, the attachment and the callback change only through their own calls; with no callback installed, the response slot does not change |
| Chat.PrefixKeeps | drivers/gnss/quectel/lx6/lx6.c:351-380 | The calls a chain actually makes keep whatever all of its calls keep |
| Chat.KeepsConcat | drivers/gnss/quectel/lx6/lx6.c:499-529 | Two runs of calls together keep what both keep |
| Chat.InvocationsConcat | drivers/gnss/quectel/lx6/lx6.c:351-380 | The trace of two runs of calls is the trace of the first followed by that of the second |
| Chat.Bracketed | drivers/gnss/quectel/lx6/lx6.c:169-181 | Calls and sleeps between one take and one give hold the lock exactly once |
| Chat.InvocationsLockedOnce | drivers/gnss/quectel/lx6/lx6.c:349-380 | Every chain run between lock and unlock holds the lock exactly once |
| Transactions.SatelliteSentencesRepeatOutput | drivers/gnss/quectel/lx6/lx6.c:100-104 | The satellite-sentence command of the resume script carries exactly the PMTK314 payload of the output selection before it, and differs from it only in the last checksum digit (`*29` against `*28`) |
| Transactions.CommandRunsOnlyAfterSetup | drivers/gnss/quectel/lx6/lx6.c:351-373 | The script runs if and only if both buffers were formatted and installed successfully |
| Transactions.CommandKeeps | drivers/gnss/quectel/lx6/lx6.c:351-373 | No call of a command opens or closes the pipe, attaches the chat or touches the callback slot |
| Transactions.CommandFrame | drivers/gnss/quectel/lx6/lx6.c:351-373 | Whatever it returns, a command leaves the callback, the pipe and the attachment unchanged, and the response too when no callback is installed |
| Transactions.CommandSucceeds | drivers/gnss/quectel/lx6/lx6.c:351-373 | A successful command made all five calls and leaves its request and its acknowledgement in the two buffers |
| Transactions.CommandPairFrame | drivers/gnss/quectel/lx6/lx6.c:473-529 | Two commands in a row have the same frame as one |
| Transactions.EnableSystemsOrder | drivers/gnss/quectel/lx6/lx6.c:499-505 | The PMTK313 step starts if and only if the whole PMTK353 command succeeded, and it then formats `PMTK313,0`; the operation's code is that of the first command that fails, or of the last |
| Transactions.QuerySetupKeeps | drivers/gnss/quectel/lx6/lx6.c:564-579 | The query setup touches neither the pipe, the attachment nor the callback |
| Transactions.QueryUnfold | drivers/gnss/quectel/lx6/lx6.c:564-586 | The query fails in its setup, before the callback is installed, or makes all its calls and returns the script's code |
| Transactions.QuerySetupEffect | drivers/gnss/quectel/lx6/lx6.c:564-579 | A setup in which every call succeeds leaves PMTK355 and the copied match in the buffers, and nothing else changed |
| Transactions.QueryTailEffect | drivers/gnss/quectel/lx6/lx6.c:581-583 | Installing the callback, running the script and removing the callback leave no callback; the reply reaches the response slot only when the script succeeds |
| Transactions.QueryRuns | drivers/gnss/quectel/lx6/lx6.c:575-589 | Once the query script is reached, the callback is removed whatever the script returned, the response is the decoded reply exactly when the script succeeded, and the buffers hold the query |
| Transactions.QueryOutcome | drivers/gnss/quectel/lx6/lx6.c:557-594 | A query leaves no callback installed and the pipe as it was; a failed query, or a reply without eight arguments, leaves the response unchanged |
| Transactions.QueryCalls | drivers/gnss/quectel/lx6/lx6.c:557-594 | A query cut short by a failed setup call installs no callback; once the script is reached, all its calls are made and the callback is removed after them |
| Transactions.ResumeOpenFails | drivers/gnss/quectel/lx6/lx6.c:209-213 | A failed open returns its code at once and makes no other call |
| Transactions.ResumeCalls | drivers/gnss/quectel/lx6/lx6.c:200-238 | The resume always starts with the open; a failed open is its only call, and a resume whose chain succeeds makes exactly the chain's calls, with no close |
| Transactions.ResumeFailureCloses | drivers/gnss/quectel/lx6/lx6.c:215-234 | Any failure after a successful open issues exactly one close, as the last call, which leaves the pipe closed when it succeeds |
| Transactions.ResumeFailedShape | drivers/gnss/quectel/lx6/lx6.c:215-237 | A failed resume after a good open makes the calls of the chain up to the failure, none of them a close, and then one close |
| Transactions.ResumeHeadEffect | drivers/gnss/quectel/lx6/lx6.c:209-222 | When open and attach succeed, the head of the resume opens the pipe and attaches the chat, and changes nothing else |
| Transactions.ResumeSucceeds | drivers/gnss/quectel/lx6/lx6.c:200-238 | A successful resume makes no close, and leaves the pipe open, the chat attached and the PPS command in the buffers |
| Transactions.ResumeFrame | drivers/gnss/quectel/lx6/lx6.c:200-238 | A resume leaves the callback slot alone, and the response slot too when no callback is installed |
| Transactions.ExitStandbyCleanup | drivers/gnss/quectel/lx6/lx6.c:274-303 | A failed attach closes the pipe again and returns its code; after a successful attach the code is the wake-up script's, and the pipe stays open |
| Transactions.ExitStandbyCalls | drivers/gnss/quectel/lx6/lx6.c:274-303 | The standby exit starts with the open and issues a close if and only if the open succeeded and the attach failed |
| Transactions.ExitStandbyFailsIff | drivers/gnss/quectel/lx6/lx6.c:274-303 | The standby exit returns a negative code exactly when one of the calls it makes fails, the clean-up close included |
| Transactions.ColdVsWarmResume | drivers/gnss/quectel/lx6/lx6.c:200-303 | When open, attach and close succeed and both the resume script and the wake-up script fail, the cold resume ends with the pipe closed and the standby exit with the pipe open |
| Transactions.PmDispatch | drivers/gnss/quectel/lx6/lx6.c:305-337 | Every action holds the lock exactly once; an unsupported action makes no call and returns -ENOTSUP; suspend waits for the deadline and no other action does |
| Transactions.PmCalls | drivers/gnss/quectel/lx6/lx6.c:305-337 | No action's calls touch the callback slot; turn-on and an unsupported action make no call |
| Transactions.PmResult | drivers/gnss/quectel/lx6/lx6.c:305-337 | The code is negative exactly when the action is unsupported or one of the calls it makes fails; an action that makes no call returns -ENOTSUP when unsupported and 0 otherwise |
| Transactions.PmOpensOnlyOnResume | drivers/gnss/quectel/lx6/lx6.c:311-331 | Of all the actions, only a resume makes a call that opens the pipe |
| Transactions.PmFrame | drivers/gnss/quectel/lx6/lx6.c:305-337 | No action touches the callback slot, nor the response slot when no callback is installed |
| Transactions.ReadyAtAhead | drivers/gnss/quectel/lx6/lx6.c:183-190 | The stamped deadline always lies 500 ms ahead, and agrees with the 32-bit value until that wraps |
| Transactions.ReadyAtAsWrittenWraps | drivers/gnss/quectel/lx6/lx6.c:186-188 | With the deadline truncated to 32 bits, an uptime of 2^32 - 1 ms gives a deadline of 499 ms, in the past |
| Transactions.ReadyAtAsWritten | drivers/gnss/quectel/lx6/lx6.c:186-188 | The 32-bit deadline never exceeds the true one and differs from it by a multiple of 2^32 |
| Lx6.Device.constructor | drivers/gnss/quectel/lx6/lx6.c:687 | A fresh instance has the lock free, the pipe closed, no callback, empty buffers and an empty trace |
| Lx6.Device.Lock | drivers/gnss/quectel/lx6/lx6.c:169-174 | Taking the free lock holds it and records a take |
| Lx6.Device.Unlock | drivers/gnss/quectel/lx6/lx6.c:176-181 | Giving the lock back frees it and records a give |
| Lx6.Device.PmChanged | drivers/gnss/quectel/lx6/lx6.c:183-190 | The new deadline is the uptime plus 500 ms, later than the uptime; this is the intended deadline, not the 32-bit value the code stores (see Left out) |
| Lx6.Device.AwaitPmReady | drivers/gnss/quectel/lx6/lx6.c:192-198 | A sleep until the current deadline is recorded |
| Lx6.Device.OnSearchModeReply | drivers/gnss/quectel/lx6/lx6.c:541-555 | The callback's updates, field by field, leave the response slot as `SearchModeReply` of the old slot and the reply |
| Lx6.Device.Perform | drivers/gnss/quectel/lx6/lx6.c:351-376 | One collaborator call returns the collaborator's code, changes the instance as `Apply` says, and records itself in the trace |
| Lx6.Device.Step | drivers/gnss/quectel/lx6/lx6.c:351-376 | A call made as the next call of a chain extends the chain's state and trace by that call; a successful format or copy leaves its text in the buffer it targets |
| Lx6.Device.InstallRequest | drivers/gnss/quectel/lx6/lx6.c:351-360 | The format-and-install chain for the request, with its code; on success the request buffer holds the request; the match buffer and the callback are untouched |
| Lx6.Device.InstallMatch | drivers/gnss/quectel/lx6/lx6.c:362-371 | The format-and-install chain for the match, with its code; on success the match buffer holds the acknowledgement; the request buffer is untouched |
| Lx6.Device.InstallCommand | drivers/gnss/quectel/lx6/lx6.c:351-371 | The four setup calls as one early-exit chain; on success both buffers hold the command |
| Lx6.Device.SendCommand | drivers/gnss/quectel/lx6/lx6.c:351-376 | The state and the trace are those of the five-call command chain up to its first failure, and the code is the chain's |
| Lx6.Device.ConfigurePps | drivers/gnss/quectel/lx6/lx6.c:119-167 | The PMTK285 command for the instance's PPS mode and pulse width, as a command chain |
| Lx6.Device.LockedCommand | drivers/gnss/quectel/lx6/lx6.c:349-380 | A command chain between one take and one give of the lock; the callback stays uninstalled and the response reportable |
| Lx6.Device.SetFixRate | drivers/gnss/quectel/lx6/lx6.c:340-381 | An interval outside 200 to 1000 ms returns -EINVAL and changes nothing, not even the lock; otherwise the PMTK220 chain runs under the lock |
| Lx6.Device.GetFixRate | drivers/gnss/quectel/lx6/lx6.c:384-389 | Always -ENOTSUP, with no value |
| Lx6.Device.SetNavigationMode | drivers/gnss/quectel/lx6/lx6.c:391-447 | The PMTK886 chain for the mode's code runs under the lock and its code is returned |
| Lx6.Device.GetNavigationMode | drivers/gnss/quectel/lx6/lx6.c:450-456 | Always -ENOTSUP, with no value |
| Lx6.Device.SendCommands | drivers/gnss/quectel/lx6/lx6.c:473-529 | Two commands as one early-exit chain: the second is sent only when the first succeeded |
| Lx6.Device.LockedCommands | drivers/gnss/quectel/lx6/lx6.c:499-529 | Two commands as one chain between one take and one give of the lock; the callback stays uninstalled and the response reportable |
| Lx6.Device.SetEnabledSystems | drivers/gnss/quectel/lx6/lx6.c:458-534 | A mask with any bit outside GPS, GLONASS, Galileo and BeiDou returns -EINVAL and changes nothing; otherwise PMTK353 then PMTK313 run under the lock as one chain |
| Lx6.Device.InstallQuery | drivers/gnss/quectel/lx6/lx6.c:564-579 | The PMTK355 setup as an early-exit chain; on success the request is formatted and the match copied; the callback is untouched |
| Lx6.Device.RunQueryScript | drivers/gnss/quectel/lx6/lx6.c:581-582 | With the query installed, the callback is installed and the query script runs, returning its code |
| Lx6.Device.Query | drivers/gnss/quectel/lx6/lx6.c:564-586 | The query's state and trace are `QueryCalls`: the callback is removed after the script whatever it returned |
| Lx6.Device.GetEnabledSystems | drivers/gnss/quectel/lx6/lx6.c:557-594 | The query runs under the lock; the caller gets the response slot only on success, and nothing on failure |
| Lx6.Device.GetSupportedSystems | drivers/gnss/quectel/lx6/lx6.c:596-601 | Returns 0 with a mask containing every settable and every reportable system and SBAS, and nothing else |
| Lx6.Device.StartSession | drivers/gnss/quectel/lx6/lx6.c:209-227 | Open, attach and resume script as a chain; a failed attach or script is followed by one close |
| Lx6.Device.FinishResume | drivers/gnss/quectel/lx6/lx6.c:229-237 | After a successful head, the PPS command completes the resume chain, and a failure closes the pipe |
| Lx6.Device.ResumeSession | drivers/gnss/quectel/lx6/lx6.c:209-237 | The state and trace of the whole resume chain, close included, and its code |
| Lx6.Device.Resume | drivers/gnss/quectel/lx6/lx6.c:200-238 | A sleep until the deadline, then the resume chain with its clean-up; the code is the chain's |
| Lx6.Device.Suspend | drivers/gnss/quectel/lx6/lx6.c:241-258 | A sleep until the deadline, then the PMTK161 script; the pipe and the chat attachment stay as they were whatever it returns |
| Lx6.Device.TurnOff | drivers/gnss/quectel/lx6/lx6.c:265-272 | Returns the close's code, and the pipe is closed when it succeeded |
| Lx6.Device.ExitStandby | drivers/gnss/quectel/lx6/lx6.c:274-303 | Open, attach and wake-up script as a chain, with a close only after a failed attach, and no sleep |
| Lx6.Device.Dispatch | drivers/gnss/quectel/lx6/lx6.c:311-331 | Each action's calls and code; only suspend sleeps |
| Lx6.Device.DispatchValid | drivers/gnss/quectel/lx6/lx6.c:311-331 | Dispatching any action leaves no callback installed and the response slot reportable |
| Lx6.Device.HandlePmAction | drivers/gnss/quectel/lx6/lx6.c:305-337 | Under one take and one give of the lock, the action's calls, then a new deadline 500 ms after the current uptime whatever the outcome |
| Lx6.Device.Boot | drivers/gnss/quectel/lx6/lx6.c:703-715 | The deadline is stamped. A powered device resumes after waiting for it, and on success is stamped again. The code is a failed resume's, else runtime enabling's. An unpowered device makes no call |

## Left out

- The `$` prefix and the `*HH` checksum that `gnss_nmea0183_snprintk` adds, and the NUL terminator, are not modelled. Buffers hold the sentence body; `FitsScratch` accounts for those five bytes.
- The modem chat engine, the UART backend and the formatter are outside the model. Their return codes and the reply handed to the callback are the parameters `Env`. The model assumes the same call always returns the same code.
- The contents of a buffer after a failed format are not modelled: a failing call changes nothing.
- Concurrency is modelled only as the lock events in the ghost trace. Real blocking, the 10 s script and pipe timeouts, and the unsolicited GGA, RMC and GSV matches (lx6.c:111-117) are left out.
- The clock is not modelled. Uptime is a parameter of `PmChanged`, `HandlePmAction` and `Boot`. The sleep is recorded as an event, not performed.
- Logging (`LOG_INF`, `LOG_ERR`) is left out.
- The field layout of the PMTK314 output selection (which of the 19 fields enable GGA and RMC) is not decoded. The resume script keeps it as literal text; only the equality of the two payloads in the script is proved.
- Lx6.Device.PmChanged: the instance stamps the intended deadline `ReadyAt` (uptime plus 500 ms, unbounded), not the 32-bit `ReadyAtAsWritten` that lx6.c:186-189 stores. `HandlePmAction` and `Boot` therefore carry the corrected deadline. The wrap is modelled separately, in the Findings row (`Transactions.ReadyAtAsWrittenWraps` against `Transactions.ReadyAtAhead`).
- Lx6.Device.Boot: models only the tail of `quectel_lx6_init` from line 703. The failures of `init_nmea0183_match` and `init_chat`, `init_pipe`, `init_pmtk_script` and `pm_device_init_off` are not modelled. `pm_device_is_powered` is the parameter `powered`, and the code of `pm_device_runtime_enable` is the parameter `runtimeEnable`.
- The enum switches' unreachable fall-through (an out-of-range `gnss_navigation_mode` or `gnss_pps_mode` sending code 0) is not modelled, because the Dafny enums are closed.
- Device instantiation from the devicetree, the driver API table and the NMEA0183 parsing of position and satellite sentences are not part of this model.
- Lx6.Device.GetEnabledSystems: the caller's output is `None` where the driver leaves it unwritten.

## Findings

| source | as written | input that shows it | evidently intended | confidence | as-written member | corrected member |
|---|---|---|---|---|---|---|
| drivers/gnss/quectel/lx6/lx6.c:186-189 | The readiness deadline `k_uptime_get() + 500` is stored in a `uint32_t` before it becomes an absolute timeout, so it wraps | uptime 0xFFFF_FFFF ms (about 49.7 days) gives a deadline of 499 ms, long past, and the next transition does not wait | The deadline lies 500 ms after the current uptime at any uptime | medium, not executed | Transactions.ReadyAtAsWrittenWraps | Transactions.ReadyAtAhead |
