# Verified model of the LiminalOSAI cores

This project models, in Dafny, the parts of LiminalOSAI that keep state under rules, and proves what those
rules give over whole runs.

| Part | Files | What it is |
|---|---|---|
| Resonant bus | `BusModel`, `BusRuns`, `BusDelivery`, `ResonantBus` | A queue of at most 32 messages in parallel arrays, ordered by energy and arrival, with a delivery mask for each broadcast and a sensor registry that grows while the bus is in use. |
| Reflect phase | `Reflect`, `EchoCascade`, `EchoRounds` | Sensors 1, 2 and 3 drain the bus and send weaker echoes round again. |
| Episode recorder | `RecorderModel`, `RecorderRuns`, `RecorderGaps`, `RecorderTriggers`, `EpisodeRecorder`, `TagText` | A ring of 256 ticks, a capture buffer of 128, a ring of 32 episodes, and the text form of tag words. |
| Session to verdict | `Records`, `SessionModel`, `SessionProofs`, `BundleModel`, `BundleProofs`, `AdapterModel`, `PipelineProofs`, `PipelineTools`, `EndToEnd`, `PacketVerdicts`, `BundleVerdicts` and `SessionVerdicts` (in `Verdicts.dfy`), `ExportContents`, `BetterSessions`, `SessionExamples` | Live-session export, bundle normalisation and the response gate, alone and in a row. |
| External validation graph | `ReviewModel`, `ReviewRuns`, `ReviewPaths`, `ReviewTools` | The graph validator, the event validator and the step that applies a review event. |
| Collective memory | `Crc`, `CrcBursts`, `CrcDivision`, `Nearest` | CRC-32 signatures (section 2.3.1 of RFC 1952), Hamming distance and the nearest trace. |
| Weave and median | `WeaveModel` (in `Weave.dfy`), `WeavePlaces`, `PhaseGrid`, `Median` | Assignment of clock phases to modules; the weighted median of a resonance graph. |
| Gate and smoother | `GateModel`, `GateOpenings`, `ConsentGate`, `SmootherModel`, `SmootherLaws`, `Smoother` | The consent gate and the adaptive smoothing filter. |

`Options`, `Signals` and `Text` hold what several parts share.

The shape is the same everywhere. State is modelled on values by functions (`Emit`, `Poll`, `Apply`, `Update`,
`Tick`, ...). The program's own form, classes over arrays and fields and methods with loops, is proved to do
exactly what those functions say. The properties are lemmas about the functions, over every input and every run.

## How the model reads the source

- Delivery masks and tag words are the sets of their one-bits. Signatures stay 32-bit vectors.
- Floating-point values are reals. Infinities and NaN are one explicit case (`Signals.Signal`) wherever the code
  tests for them. Python's `round` is rounding half to even on reals; `lroundf` is rounding half up on shifts,
  which are never negative.
- Text fields that the code only compares with fixed texts (schema versions, statuses, event types, repository
  names, enumerations) are datatypes with one case for any other text. Field-type checks of the Python tools are
  absorbed by these types.
- `datetime.fromisoformat` is not modelled; an event's date-time text comes with the result of that call, and
  every text it reads begins with four digits.
- Validator messages are kept as lists of errors for the graph and the event, and as accept or reject for the
  three stages of the session pipeline.
- A graph that was never validated can make the apply step fail with a `KeyError` or `ValueError` on an unknown
  status or a missing weight; these failures are the rejections `UnknownStatus` and `MissingWeight`.

## Where the code differs from what one would expect

- An exported bundle is not always accepted by the next stage: `PipelineProofs.ExportAcceptedIff` gives the exact
  condition, `SessionExamples.RepeatedTextsRejected` and `ClashingClaimRejected` a valid session for each way to
  fail it.
- ALLOW does not always mean that the citations are real: a source may take the text `unresolved:z` as its
  handle and so back a citation of `z` that names no event. `EndToEnd.AllowVouchedIff` gives the exact condition,
  `SessionExamples.ShadowedAllow` such a session.
- Echoes of energy 1 or less are not sent, so `EchoCascade.CascadeDies` and `CascadeLasts` meet at the same bound.
- A listener on the broadcast target -1 takes a broadcast off the bus at once (`BusModel.BroadcastListener`), and a
  listen on an empty bus does not register the listener (`BusModel.EmptyListen`).
- When a poll of a running capture comes more than 256 pushes after the poll before it, ticks are lost for good:
  `RecorderGaps.WholeIffPaced` gives the exact condition, `RecorderGaps.BurstOverruns` the schedules that fail it.
- With an opening bias below -0.05 the consent gate can open and close under a constant input:
  `GateModel.ConstantInputSettles` says for which inputs, `GateModel.EagerGateFlaps` gives one.

## Model

| member | source | states |
|---|---|---|
| BusRuns.RunInvariant | bus/resonant.c:47-205 | After any interleaving of registrations, emits and listens: the queue is ordered and at most 32 long; every copy ever emitted is in exactly one of queued, evicted, retired; no copy reaches the same sensor twice; the mask of a queued copy is exactly the set of sensors it has been delivered to; every queued broadcast still lacks a registered sensor once there is one; a retired copy was consumed by its addressee or reached precisely the sensors registered when it retired. |
| BusRuns.StrongestFirst | bus/resonant.c:152-205 | A listen hands out the strongest, earliest copy the sensor may have, and nothing only if there is none. |
| BusRuns.RetirementIsLastDelivery | bus/resonant.c:176-199 | A broadcast leaves the queue with a delivery if and only if every registered sensor has then received it. |
| BusRuns.TopK | bus/resonant.c:89-123 | After any sequence of emits the queue is the first 32 of the stable descending sort of everything emitted, for any stable sort of it. |
| BusRuns.StableSortUnique | bus/resonant.c:89-123 | There is only one order by descending energy and arrival. |
| BusRuns.InsertPrefix | bus/resonant.c:89-123 | Cutting to 32 before or after a further insertion makes no difference, which is why both branches of the emit are one operation. |
| BusDelivery.RegistryIs | bus/resonant.c:47-62 | After any run the registry holds sensors that asked for a place, by a registration or by a listen while something was queued, and no others: all of them as long as at most 32 asked, and else 32 of them. |
| BusDelivery.NothingIsWithheld | bus/resonant.c:152-205 | As long as at most 32 sensors ask for a place, a listen by any real sensor hands out the strongest, earliest copy that is addressed to it or is a broadcast not yet delivered to it, and comes back empty only if there is none; told from what was sent, what is queued and the log. |
| BusDelivery.WeakestIsDropped | bus/resonant.c:89-123 | In every state a run can reach an emit adds its copy; the 33rd copy goes, the one all others precede, and nothing else changes. |
| BusModel.EmitKeeps | bus/resonant.c:89-123 | An emit keeps order, capacity and marks. |
| BusModel.ListenKeeps | bus/resonant.c:152-205 | A listen, with its registration and retirement, keeps order, capacity and marks. |
| BusModel.RegisterKeeps | bus/resonant.c:47-62 | A registration keeps the queue valid: a new sensor has received nothing yet. |
| BusModel.EmptyListen | bus/resonant.c:154-158 | A listen on an empty bus changes nothing, not even the registry. |
| BusModel.BroadcastListener | bus/resonant.c:158-170 | A listener on the broadcast target takes the strongest broadcast off the queue, whoever still lacks it, and is not registered. |
| ResonantBus.ResonantBus.constructor | bus/resonant.c:80-87 | The arrays start as the empty bus. |
| ResonantBus.ResonantBus.FindSensor | bus/resonant.c:32-45 | The registry position of a sensor, -1 for none and for the broadcast target. |
| ResonantBus.ResonantBus.RegisterSensor | bus/resonant.c:47-62 | The arrays do what registration does on values; 0, the broadcast target, known sensors and a full registry change nothing. |
| ResonantBus.ResonantBus.ShiftRightFrom | bus/resonant.c:64-70 | Every message and its mask from the index on move one slot up together, the rest stays. |
| ResonantBus.ResonantBus.ShiftLeftFrom | bus/resonant.c:72-78 | Every message and its mask after the index move one slot down together, the rest stays. |
| ResonantBus.ResonantBus.Emit | bus/resonant.c:89-123 | Both branches, shifting and replacing, leave exactly the stable insertion cut to 32. |
| ResonantBus.ResonantBus.EmitInto | bus/resonant.c:114-122 | The branch with room left is the stable insertion. |
| ResonantBus.ResonantBus.EmitFull | bus/resonant.c:95-112 | Overwriting the weakest and bubbling up equals inserting and dropping the weakest. |
| ResonantBus.ResonantBus.BubbleUp | bus/resonant.c:102-110 | The newcomer ends in the slot a search from the front would give it, and what it passed moved down one. |
| ResonantBus.ResonantBus.Listen | bus/resonant.c:152-205 | The arrays, masks and registry do what listening does on values, and the message handed out is that one. |
| ResonantBus.ResonantBus.Deliver | bus/resonant.c:162-204 | The scan hands out the first entry the sensor may have, marks or removes it, and leaves the others. |
| ResonantBus.ResonantBus.Remove | bus/resonant.c:195-199 | Taking an entry out closes the gap, masks included. |
| ResonantBus.ResonantBus.AllDelivered | bus/resonant.c:186-193 | The loop over the sensors tells whether every registered one is marked. |
| Reflect.DrainDelivers | core/pulse_kernel.c:2127-2144 | Listening until nothing is left hands a sensor exactly what was waiting for it, in queue order; nothing is added and no mark is taken back. |
| Reflect.ListenTakesHead | bus/resonant.c:152-205 | One listen takes the head of what is waiting for the sensor and leaves the rest waiting, which is why the drain ends. |
| Reflect.ReflectRound | core/pulse_kernel.c:2115-2151 | The loops over sensors and messages, on the array bus, compute one round: the three drains, then the first 32 echoes emitted in order. |
| Reflect.DrainAll | core/pulse_kernel.c:2127-2144 | The loop over the sensors drains the bus for each in turn and remembers the first 32 echoes of all of them. |
| Reflect.DrainInto | core/pulse_kernel.c:2128-2143 | The inner loop leaves nothing for the sensor and appends the echo of each message it received, as far as there is room. |
| Reflect.Remember | core/pulse_kernel.c:2139-2142 | An echo is remembered if there is one and fewer than 32 are. |
| Reflect.EmitPending | core/pulse_kernel.c:2146-2148 | The remembered echoes are emitted in order. |
| Reflect.BoundedLength | core/pulse_kernel.c:311-318 | The length of a payload text, positive exactly when it does not start with a zero byte. |
| EchoCascade.RoundWeakens | core/pulse_kernel.c:2115-2151 | With sensors 1 to 3 registered, a round leaves nothing deliverable from before, and what is deliverable after it are new broadcasts of strictly smaller energy. |
| EchoCascade.NothingDeliverable | bus/resonant.c:176-199 | With nothing left for any of the three sensors no broadcast is left at all. |
| EchoCascade.CascadeDies | core/pulse_kernel.c:2115-2151 | With E the greatest deliverable energy, nothing deliverable is left after max(1, E) rounds, in spite of threefold fan-out and eviction. |
| EchoCascade.CascadeLasts | core/pulse_kernel.c:2115-2151 | One text broadcast of energy E keeps the cascade alive for E - 1 rounds, so the bound is exact. |
| EchoRounds.RoundIs | core/pulse_kernel.c:2115-2151 | One round on the kernel's bus leaves exactly the messages for none of the three sensors, untouched, and emits the first 32 of: the answers of sensor 1 to all it was owed when the round began, then those of 2, then those of 3. |
| EchoRounds.RoundLeaves | core/pulse_kernel.c:2115-2151 | After the round the queue holds, in order, the best 32 of what was left and the answers sent, numbered as they were sent. |
| EchoRounds.EchoIs | core/pulse_kernel.c:2137-2140 | A sensor answers a message exactly when its energy is above 1 and its text not empty; the answer comes from that sensor, goes to all, is one unit weaker and has the text, zeros after it. |
| EchoRounds.KernelRuns | bus/resonant.c:47-62 | After any run in which 1, 2 and 3 and no others have asked for a place, the bus is the kernel's. |
| RecorderRuns.RunInvariant | core/erb.c:206-506 | After any schedule of pushes and polls, whatever the number the episodes start from: episode k has number first + k, its size is the lead plus one plus the post-window, its tag is the union of all tags from trigger to last poll, episodes do not overlap, and a running capture is on course. |
| RecorderRuns.EpisodesAreGapFree | core/erb.c:110-145 | With at most 256 pushes between polls every finished episode is one unbroken stretch of the tick history: min(pre, available) ticks, the trigger and post ticks after it; never more than 128. |
| RecorderRuns.PacedRun | core/erb.c:206-227 | A schedule with at most 256 pushes between polls keeps every running capture in pace with the ring. |
| RecorderGaps.WholeIffPaced | core/erb.c:413-443 | For every schedule of pairwise different ticks: all finished episodes are gap-free and the running capture is an unbroken stretch if and only if no poll of a running capture came more than 256 pushes after the poll before it. |
| RecorderGaps.BurstOverruns | core/erb.c:413-443 | A tick, a poll that triggers, n more ticks and a poll: nothing is lost exactly when n is at most 256. |
| RecorderRuns.TriggersAreSpaced | src/introspect.c:686-708 | With one push for each poll an episode ends post polls after its trigger, and triggers are at least 2 x post polls apart. |
| RecorderTriggers.PollStartsIff | core/erb.c:483-506 | In every run a poll starts an episode if and only if its tag is not empty, a tick has been pushed, nothing is being captured and `post` polls have passed since every episode was finished; it starts and undoes no other. |
| RecorderTriggers.NextTriggerIsFirst | src/introspect.c:686-708 | When every tick is polled once, a poll starts an episode if and only if its tag is not empty and it comes at least max(2 x post, 1) polls after each poll that started one. |
| RecorderTriggers.CapturesEndOnTime | core/erb.c:413-443 | In a run that kept pace a capture is still running after a poll only while fewer than `post` ticks have been pushed since its trigger. |
| RecorderTriggers.WindowsAre | core/erb.c:110-145 | Both windows lie between 0 and 127; the pre-window is taken as asked for, the post-window as far as 127 ticks leave room. |
| RecorderModel.PollKeeps | core/erb.c:483-506 | Windows and capture never outgrow the capture buffer. |
| EpisodeRecorder.EpisodeRecorder.constructor | core/erb.c:147-171 | The arrays and counters start as the empty recorder with sanitised windows. |
| EpisodeRecorder.EpisodeRecorder.SanitizeWindows | core/erb.c:110-145 | The overflow arithmetic gives: pre clamped to 0..127, post clamped to what is left of 127. |
| EpisodeRecorder.EpisodeRecorder.TickRingPush | core/erb.c:218-227 | The ring shows the last 256 ticks of the history with their numbers. |
| EpisodeRecorder.EpisodeRecorder.Recent | core/erb.c:206-216 | The tick so many steps back, with its number, exactly while the ring still has it. |
| EpisodeRecorder.EpisodeRecorder.Oldest | core/erb.c:423-425 | The i-th oldest tick of the ring, however it has wrapped. |
| EpisodeRecorder.EpisodeRecorder.StoreInBuffer | core/erb.c:229-240 | The episode ring shows the last 32 finished episodes. |
| EpisodeRecorder.EpisodeRecorder.FinalizeCapture | core/erb.c:396-411 | The captured ticks and tag become the newest episode under the next number; the capture is cleared and the debounce set to the post-window. |
| EpisodeRecorder.EpisodeRecorder.TakeUnseen | core/erb.c:413-443 | The pass over the ring appends exactly the ticks not looked at before, in order, up to the number still wanted. |
| EpisodeRecorder.EpisodeRecorder.LookAt | core/erb.c:425-440 | One turn of that pass. |
| EpisodeRecorder.EpisodeRecorder.TakeTick | core/erb.c:429-435 | One tick is appended and counted. |
| EpisodeRecorder.EpisodeRecorder.CaptureProgress | core/erb.c:413-443 | Progress of a capture, finishing it when as many ticks as wanted have come. |
| EpisodeRecorder.EpisodeRecorder.CopyLead | core/erb.c:454-472 | The capture starts with min(pre, available) ticks and the trigger, oldest first, however the ring has wrapped. |
| EpisodeRecorder.EpisodeRecorder.StartCapture | core/erb.c:445-481 | A trigger starts a capture, or finishes the episode at once when nothing is to follow. |
| EpisodeRecorder.EpisodeRecorder.CountDown | core/erb.c:488-495 | Every poll counts the debounce down and adds its tag to a running capture. |
| EpisodeRecorder.EpisodeRecorder.MaybeCapture | core/erb.c:483-506 | One poll: debounce, tag, progress, then a start if triggered; reports whether an episode was finished. |
| EpisodeRecorder.EpisodeRecorder.Get | core/erb.c:508-518 | The i-th most recent of the last 32 finished episodes, and nothing beyond. |
| EpisodeRecorder.EpisodeRecorder.IdAt | core/erb.c:528-538 | Its number. |
| TagText.TagToString | core/erb.c:242-289 | The text printed is the joined names of the flags, cut to the buffer. |
| TagText.ParseTagMask | core/erb.c:311-337 | The parsing loops compute the union of what the pieces between separators mean. |
| TagText.ReadPiece | core/erb.c:320-334 | One turn of the parser takes one piece off the text and its flags off the mask still to come. |
| TagText.MaskJoined | core/erb.c:311-337 | Parsing a, a bar, comma or semicolon and b gives the union of parsing a and parsing b. |
| TagText.PrintParse | core/erb.c:266-337 | Printing the three defined flags and parsing the text gives them back if and only if the text fits the buffer (or there is no flag). |
| TagText.MaskOfPiece | core/erb.c:291-337 | A text without separators means, in whatever case, the flags of one of five names, and nothing if it is none of them. |
| TagText.FullTexts | core/erb.c:266-289 | No flag prints as NONE, all three in the order SPIKE, ALIGN, LOW_HARM with bars between. |
| SessionProofs.OrderDoesNotMatter | tools/chatgpt_live_session_exporter.py:342-417 | Every permutation of the event list is accepted or rejected alike and exports the same bundle. |
| SessionProofs.SortedInSequence | tools/chatgpt_live_session_exporter.py:342-351 | Sorting events with unique sequence numbers puts them in strictly increasing sequence. |
| SessionProofs.InSequenceIsCanonical | tools/chatgpt_live_session_exporter.py:342-351 | There is only one such order of the same events. |
| SessionProofs.FindMeans | tools/chatgpt_live_session_exporter.py:342-361 | With unique ids a lookup finds the event of that id and nothing else. |
| PipelineTools.ValidateSession | tools/chatgpt_live_session_exporter.py:142-417 | The validator accepts exactly the valid sessions and returns the sorted events and the authorization edges. |
| PipelineTools.CheckSelection | tools/chatgpt_live_session_exporter.py:352-358 | The selected request is a user message and the selected draft an assistant draft. |
| PipelineTools.CheckBound | tools/chatgpt_live_session_exporter.py:360-369 | Every claim, proposal and contradiction names an existing draft. |
| PipelineTools.CheckHandles | tools/chatgpt_live_session_exporter.py:371-385 | Source handles are distinct and none is a tool event's id. |
| PipelineTools.CollectEdges | tools/chatgpt_live_session_exporter.py:387-410 | The edges of all authorizations, or nothing when one does not name a later tool event or proposal. |
| PipelineTools.EdgeTargets | tools/chatgpt_live_session_exporter.py:387-410 | The targets of the edges are exactly the events some authorization names. |
| PipelineTools.Sort | tools/chatgpt_live_session_exporter.py:349 | The events in order of their sequence numbers. |
| PipelineTools.ExportSession | tools/chatgpt_live_session_exporter.py:420-543 | The loops and comprehensions build exactly the exported bundle, or nothing for an invalid session. |
| PipelineTools.ExportClaims | tools/chatgpt_live_session_exporter.py:462-488 | The claims of the draft with the handles of what they cite. |
| PipelineTools.ExportHandle | tools/chatgpt_live_session_exporter.py:465-477 | The handle a reference is exported under. |
| PipelineTools.ExportActions | tools/chatgpt_live_session_exporter.py:505-514 | The proposals of the draft, authorized when an edge leads to them. |
| PipelineTools.ExportTools | tools/chatgpt_live_session_exporter.py:527-542 | The tool events, authorized when an edge leads to them. |
| PipelineProofs.HandleIs | tools/chatgpt_live_session_exporter.py:457-477 | What handle a cited event id is exported under: a source's handle, an eligible tool event's id, or the placeholder. |
| PipelineProofs.HandlesDistinctIff | tools/chatgpt_live_session_exporter.py:462-477 | The handles of a claim are distinct exactly when none of its unresolved citations has the placeholder that a resolved one has as handle. |
| PipelineProofs.ExportAcceptedIff | tools/chatgpt_live_session_exporter.py:457-543 | An exported bundle is accepted by the next stage if and only if the draft's contradiction texts are distinct and no claim of the draft has such a clash. |
| PipelineTools.ValidateBundle | tools/chatgpt_conversation_normalizer.py:122-303 | The validator accepts exactly the valid bundles. |
| PipelineTools.NormalizeBundle | tools/chatgpt_conversation_normalizer.py:306-402 | The loops build exactly the packet that resolves every handle and turns tool events into evidence and actions. |
| PipelineTools.SourceItems | tools/chatgpt_conversation_normalizer.py:318-329 | The evidence items of the sources and the reference table after them. |
| PipelineTools.ToolItems | tools/chatgpt_conversation_normalizer.py:331-343 | The evidence items of the eligible tool events and the reference table after them. |
| PipelineTools.NormalClaims | tools/chatgpt_conversation_normalizer.py:349-371 | The claims with every handle resolved. |
| PipelineTools.NormalActions | tools/chatgpt_conversation_normalizer.py:376-401 | The proposed actions, then the successful writes as performed ones. |
| BundleProofs.NormalizedIsAccepted | tools/chatgpt_conversation_normalizer.py:306-446 | Every packet made from an accepted bundle is accepted by the gate, without any condition. |
| BundleProofs.ResolvesTo | tools/chatgpt_conversation_normalizer.py:314-371 | A handle resolves to the id of exactly the evidence items it stands for; ids of sources, tools and missing handles never coincide. |
| BundleProofs.SupportedIff | tools/chatgpt_conversation_normalizer.py:351-371 | A claim of the bundle is supported in terms of handles exactly when its translation is supported in terms of evidence ids. |
| BundleProofs.AllowMeans | tools/chatgpt_liminal_adapter.py:259-405 | The verdict on a normalised bundle is ALLOW if and only if the bundle itself gives every ground for it. |
| PipelineTools.ValidateInput | tools/chatgpt_liminal_adapter.py:103-230 | The validator accepts exactly the valid packets. |
| PipelineTools.EvaluatePacket | tools/chatgpt_liminal_adapter.py:259-405 | The gate's loops give exactly the decision, revision reasons and verification reasons, in order, or nothing for an invalid packet. |
| PipelineTools.HeaderReasons | tools/chatgpt_liminal_adapter.py:272-289 | The reasons that do not depend on single claims or actions. |
| PipelineTools.ClaimReasons | tools/chatgpt_liminal_adapter.py:291-334 | The reasons of all claims, in order. |
| PipelineTools.ActionReasons | tools/chatgpt_liminal_adapter.py:336-361 | The reasons of all actions, in order. |
| PipelineTools.ClaimIssues | tools/chatgpt_liminal_adapter.py:293-320 | The issues found in one claim through the table of evidence by id are those it has. |
| AdapterModel.AllowMeans | tools/chatgpt_liminal_adapter.py:259-405 | ALLOW is given to exactly the packets with a signal, enough alignment, no contradiction, every claim supported and every action harmless. |
| AdapterModel.SupportedMeans | tools/chatgpt_liminal_adapter.py:292-335 | No issue is raised against a claim if and only if all it cites exists and is verified, and it cites what its kind demands. |
| AdapterModel.BetterEvidenceHelps | tools/chatgpt_liminal_adapter.py:291-374 | Verifying evidence or making it current only removes reasons, and the verdict moves only from REVISE to VERIFY to ALLOW or NO_SIGNAL. |
| EndToEnd.AllowIff | tools/chatgpt_liminal_adapter.py:259-405 | For every accepted session without a shadowed citation: all three stages run exactly when the contradiction texts are distinct, and the verdict is ALLOW if and only if the session justifies it: every claim backed by verified sources or successful eligible tool events, fact claims citing at least one, current where demanded, no contradiction, every successful write authorized earlier and recoverable. |
| EndToEnd.AllowAlways | tools/chatgpt_live_session_exporter.py:387-410 | Whatever the citations, ALLOW means that every successful write was named by an authorization of smaller sequence, no contradiction was declared and every fact claim cites something. |
| EndToEnd.AllowVouchedIff | tools/chatgpt_live_session_exporter.py:462-477 | Behind an ALLOW every citation of the draft is real if and only if none of them is shadowed by a handle that equals its placeholder. |
| EndToEnd.NoReservedNamesNoShadow | tools/chatgpt_live_session_exporter.py:475-477 | If no source handle and no tool id starts with `unresolved:` nothing is shadowed. |
| SessionExamples.ShadowedAllow | tools/chatgpt_live_session_exporter.py:475-477 | A session that gets ALLOW although its only citation names no event. |
| SessionExamples.RepeatedTextsRejected | tools/chatgpt_live_session_exporter.py:515 | A valid session whose export is rejected for two contradictions with the same text. |
| SessionExamples.ClashingClaimRejected | tools/chatgpt_live_session_exporter.py:462-477 | A valid session whose export is rejected for two citations exported under the same handle. |
| BetterSessions.BetterSessionHelps | tools/chatgpt_liminal_adapter.py:291-374 | When sources turn verified, evidence current or tool events that do not write successful, all stages still run and the verdict moves only from REVISE to VERIFY to ALLOW or NO_SIGNAL, in every session. |
| BetterSessions.ExportBetter | tools/chatgpt_live_session_exporter.py:420-543 | Such a change reaches the exported bundle in the same sources and tool events and nowhere else. |
| SessionVerdicts.VerdictIff | tools/chatgpt_liminal_adapter.py:363-374 | For every session without shadowed citations, told from its events: no verdict if and only if the draft repeats a contradiction; REVISE if and only if there is a fault and no repetition; VERIFY if and only if there is no fault and evidence is missing; NO_SIGNAL and ALLOW if and only if there is neither, as the draft is silent or not. |
| PacketVerdicts.VerdictMeans | tools/chatgpt_liminal_adapter.py:363-374 | On every packet: REVISE if and only if alignment is below 0.65, a contradiction is declared, a silent draft has content, a claim is overconfident or an action harmful; VERIFY if and only if none of these and evidence is missing; NO_SIGNAL or ALLOW if and only if neither. |
| PacketVerdicts.RevisionGrounds | tools/chatgpt_liminal_adapter.py:263-361 | A reason for revising is given if and only if its ground is there, with the claim or action it is about. |
| PacketVerdicts.VerificationGrounds | tools/chatgpt_liminal_adapter.py:283-334 | A reason for verifying is given if and only if the draft or the claim lacks that evidence. |
| BundleVerdicts.SameGrounds | tools/chatgpt_conversation_normalizer.py:314-402 | A valid bundle and its packet have the same grounds for revising and for verifying. |
| ExportContents.HeaderIsCarried | tools/chatgpt_live_session_exporter.py:420-503 | The bundle has the text of the requested message, the response, silence and alignment of the selected draft and the flags of the session. |
| ExportContents.BundleCarriesSession | tools/chatgpt_live_session_exporter.py:427-543 | Its lists are the claims, proposals and contradictions of that draft and all sources and tool events, by their numbers, field for field, each citation under its handle, each action with whether the user named it. |
| ExportContents.EvidenceIsCarried | tools/chatgpt_conversation_normalizer.py:314-347 | The packet offers the sources and then the eligible tool events under their prefixed ids, a tool event verified when it succeeded. |
| ExportContents.ActionsAreCarried | tools/chatgpt_conversation_normalizer.py:376-402 | Its actions are the proposed ones and then the writes that succeeded. |
| EndToEnd.CitationIff | tools/chatgpt_live_session_exporter.py:457-477 | A citation that is not shadowed is backed, and current, in the bundle exactly when it is in the session. |
| EndToEnd.AuthorizedIff | tools/chatgpt_live_session_exporter.py:387-410 | An event is exported as authorized if and only if an authorization of smaller sequence names it. |
| ReviewRuns.ApplyPreserves | tools/apply_review_event.py:124-239 | On a valid graph the candidate passes the whole validator, so the post-apply rejection is unreachable and only the guards reject. |
| ReviewRuns.ApplyRaises | tools/apply_review_event.py:148-222 | An applied event raises the rank of its own target to the event's status and changes no other target. |
| ReviewRuns.ApplyRaisesWeight | tools/apply_review_event.py:91-121 | It strictly raises the exact weighted sum. |
| ReviewRuns.RunKeeps | tools/validate_review_event.py:163-184 | In every run, with any transition table, the graph stays valid, every event ever applied still passes the event validator against the graph, and there are at most 5 x targets applies. |
| ReviewRuns.ReplayIsNoop | tools/apply_review_event.py:155-169 | Applying an applied event again is a noop that returns the same graph. |
| ReviewRuns.ApplyCommutes | tools/apply_review_event.py:124-239 | Two events accepted for different targets can be applied in either order, with the same graph and score up to the date of the last update. |
| ReviewRuns.UpdatedTargetIsValid | tools/validate_external_graph.py:149-232 | The updated target has the evidence its new status needs. |
| ReviewPaths.AppliedExactly | tools/apply_review_event.py:124-185 | On a valid graph an event is applied if and only if it is valid, for the graph's claim, about a target of the same organization whose status is its starting point and less mature than its end, and the table lists that transition. |
| ReviewPaths.NoopExactly | tools/apply_review_event.py:127-169 | It is a no-op if and only if it is valid, for the claim, and its target and organization have that status and mention its evidence. |
| ReviewPaths.StatusesFollowTheTable | tools/apply_review_event.py:170-185 | In every run every target goes from its first status to its last along listed transitions, each to a more mature status. |
| ReviewPaths.TargetsRecordTheirLastEvent | tools/apply_review_event.py:187-219 | After every run a target no applied event was about is unchanged; any other is its first state with the findings of the last applied event about it written in, whatever came between. |
| ReviewPaths.ScoreTells | tools/apply_review_event.py:91-121 | Once an event has been applied the score tells the number of targets, their exact weight to eight places, the percentage to two, and how many are at least at feedback, reproduced and validated. |
| ReviewPaths.RoundsToNearest | tools/apply_review_event.py:91-121 | Rounding goes to the nearest number, from the middle to the even one. |
| ReviewTools.ValidateGraph | tools/validate_external_graph.py:56-274 | The one-pass validator finds no error if and only if the graph is valid. |
| ReviewTools.CheckModel | tools/validate_external_graph.py:71-99 | The status model has exactly the six statuses with strictly growing weights in [0, 1]. |
| ReviewTools.CheckTransitions | tools/validate_external_graph.py:101-125 | Transitions join known, different statuses, with evidence, and no edge occurs twice. |
| ReviewTools.CheckTargets | tools/validate_external_graph.py:127-232 | With a sound model and claim id, no error is found if and only if every target is valid and ids are unique; the sum is the exact weight of all targets. |
| ReviewTools.CheckTarget | tools/validate_external_graph.py:149-232 | The checks of one target, field by field. |
| ReviewTools.CheckFields | tools/validate_external_graph.py:155-157 | Every required field is filled in. |
| ReviewTools.CheckLadder | tools/validate_external_graph.py:197-232 | The evidence a status needs: feedback, then reproduction, then validation. |
| ReviewTools.CheckScore | tools/validate_external_graph.py:234-259 | Count, sum and percentage are within their tolerances. |
| ReviewTools.ValidateEvent | tools/validate_review_event.py:64-186 | The event validator finds no error if and only if the event is valid and, when a graph is given, consistent with it. |
| ReviewTools.CheckTransition | tools/validate_review_event.py:92-116 | The transition fits the event type and moves to a stronger status, from nothing for SENT. |
| ReviewTools.CheckEvidence | tools/validate_review_event.py:118-141 | The evidence is what the target status demands. |
| ReviewTools.CheckAgainst | tools/validate_review_event.py:163-184 | Claim, target and organization agree with the graph, and the status is not beyond it. |
| ReviewTools.ApplyEvent | tools/apply_review_event.py:124-239 | The guards, the field updates, the rescoring and the recheck, in the source's order, compute the apply step. |
| ReviewTools.AllowedEdges | tools/apply_review_event.py:47-56 | The allowed transitions between known statuses. |
| ReviewTools.NextHighValueState | tools/apply_review_event.py:68-76 | The strongest status an allowed transition leads to, VALIDATED if there is none. |
| ReviewTools.RecomputeScore | tools/apply_review_event.py:91-121 | Count, rounded sum, percentage and the three counts of the score. |
| ReviewTools.UpdateTarget | tools/apply_review_event.py:187-219 | The fields of the target after the event, evidence records included. |
| Crc.SignatureHash | collective/memory.c:436-448 | The two loops with the branch-free bit step compute the CRC-32 of the message. |
| Crc.SignatureAffine | collective/memory.c:436-448 | For equal lengths the signature of the exclusive or of three messages is the exclusive or of their signatures. |
| Crc.BitsLinear | collective/memory.c:441-444 | Any number of bit steps is linear over exclusive or. |
| Crc.BitsInjective | collective/memory.c:441-444 | Any number of bit steps is one to one. |
| CrcDivision.SignatureIsChecksum | collective/memory.c:436-448 | The bits of the signature are the inverted remainder of long division by the CRC-32 generator of the message's bits times x^32 with the first 32 inverted, for every message; long division is defined on coefficient lists, without the register. |
| CrcDivision.ChecksumIsSignature | collective/memory.c:436-448 | Only the signature has those bits. |
| CrcDivision.ResidueIsConstant | collective/memory.c:436-448 | Every message followed by its own signature, low byte first, has signature 0x2144DF1C, and the empty message has signature 0. |
| CrcBursts.RegisterFeeds | collective/memory.c:436-448 | The register takes a message as a stream of bits, each byte from its lowest bit. |
| CrcBursts.FeedWord | collective/memory.c:439-445 | Feeding up to 32 bits one by one is feeding their word at once. |
| CrcBursts.BurstsAreDetected | collective/memory.c:436-448 | Two messages of equal length that differ only within 32 consecutive bits, wherever these begin and whatever the length, never share a signature. |
| CrcBursts.LongerBurstsCanCollide | collective/memory.c:436-448 | Two messages that differ within 33 consecutive bits and do: 32 is the limit. |
| Nearest.PopCount | collective/memory.c:407-419 | Clearing the lowest one-bit until none is left counts the one-bits. |
| Nearest.DistanceIsMetric | collective/memory.c:421-424 | The signature distance is zero exactly for equal signatures, symmetric, keeps the triangle inequality and never exceeds 32. |
| Nearest.SimilarityOrdersByDistance | collective/memory.c:426-434 | Greater similarity is smaller distance, always within [0, 1]: the clamp is never reached. |
| Nearest.DistanceIsDifferences | collective/memory.c:407-434 | The distance is the number of the 32 places at which two signatures differ, the similarity the share at which they agree. |
| Nearest.SimilarityOf | collective/memory.c:426-434 | The similarity computed through the one-bit count. |
| Nearest.BestMatch | collective/memory.c:450-497 | The selection loop returns the first of the nearest traces; a stored trace with the very signature is found. |
| WeaveModel.ProbeFinds | synchrony/weave.c:131-137 | Circular probing stops at the free phase nearest after the target and misses only when every phase is taken. |
| WeaveModel.AssignmentIsFair | synchrony/weave.c:123-147 | For any numbers of phases and modules and any shifts every phase gets a module, and the module of rank j owns exactly the j-th share of the phases. |
| WeaveModel.AssignmentIsBalanced | synchrony/weave.c:123-147 | Numbers of phases differ by at most one, and with at least as many phases as modules every module owns one. |
| WeaveModel.SharesAreBalanced | synchrony/weave.c:140-147 | Shares differ by at most one and go to earlier ranks first. |
| WeaveModel.NoCollisionNoDrift | synchrony/weave.c:123-147 | If no two targets coincide every module owns the phase nearest to its shift. |
| WeavePlaces.TargetIsNearest | synchrony/weave.c:126-130 | The target phase is the one nearest to the shift on the circle, at most half a phase away, the later one from the middle. |
| WeavePlaces.AssignmentIs | synchrony/weave.c:123-147 | Each of the first modules by shift, as many as there are phases, sits at its target or right after phases held by modules of smaller shift, and the phases left go to the modules in order of shift, round and round. |
| PhaseGrid.NormalizeDegrees | synchrony/weave.c:61-73 | The two loops bring an angle into [0, 360) without changing it modulo a full turn; not finite gives 0. |
| PhaseGrid.NormalizedIsSameAngle | synchrony/weave.c:61-73 | The normalised angle lies in [0, 360) and differs from the given one by full turns. |
| PhaseGrid.SortEntries | synchrony/weave.c:113-121 | The exchange loops sort by shift and only reorder. |
| PhaseGrid.WeaveGrid.CollectEntries | synchrony/weave.c:107-111 | One entry for each module with its own or default shift. |
| PhaseGrid.PlaceModule | synchrony/weave.c:131-137 | The probing loop with its break places the module and touches nothing else. |
| PhaseGrid.PlaceModules | synchrony/weave.c:123-138 | The modules are placed in the order of the entries. |
| PhaseGrid.FillRest | synchrony/weave.c:140-147 | The round-robin loop deals the free phases. |
| PhaseGrid.WeaveGrid.RebuildAssignment | synchrony/weave.c:90-148 | The phase count is clamped to 4..16, the owners are the assignment for the modules in order of shift, and that assignment is total and balanced. |
| PhaseGrid.WeaveGrid.Init | synchrony/weave.c:160-190 | Initialising gives a total and balanced assignment for the clamped phase count. |
| PhaseGrid.WeaveGrid.SetPhaseShift | synchrony/weave.c:192-200 | A new shift for one module leaves the other shifts alone and gives a total and balanced assignment again; an unknown module changes nothing. |
| Median.WeightedMedian | core/pulse_kernel.c:748-791 | The result is the least harmony whose cumulative flux reaches half of the total, 0 without edges, the group coherence without usable edges. |
| Median.FindHalf | core/pulse_kernel.c:779-788 | The accumulating loop over any sorted order finds that harmony. |
| Median.Collect | core/pulse_kernel.c:760-771 | The edges with positive flux, harmony clamped to [0, 1], and their total. |
| Median.SortByHarmony | core/pulse_kernel.c:735-746 | What the sort promises: ordered by harmony, the same edges. |
| Median.OrderDoesNotMatter | core/pulse_kernel.c:735-791 | Neither the order of the edges nor the order the sort gives to ties changes it. |
| Median.MedianOfEdges | core/pulse_kernel.c:748-791 | In terms of the edges as given: the least harmony up to which at least half of all positive flux has been seen. |
| GateModel.EventsTellState | core/consent_gate.c:27-151 | In every run, with thresholds and hysteresis changed at any time, the events add up to whether the gate is open, and an open gate has no countdown, so the close that tests for one is never taken. |
| GateModel.OpeningsAreSpaced | core/consent_gate.c:27-39 | With fixed settings and refractory R >= 0 no opening comes fewer than R calls after a close or a block, and R + 1 after an invalid reading. |
| GateModel.ConstantInputSettles | core/consent_gate.c:117-141 | A constant input causes at most one event, for ever, if and only if its score is not at or above the opening threshold and below the closing one. |
| GateModel.EagerGateFlaps | core/consent_gate.c:117-141 | With default thresholds and a bias of -0.2 a constant input of score 0.7 causes more than one event. |
| GateModel.SmallBiasNeverFlaps | core/consent_gate.c:117-141 | With a bias of at least -0.05 no constant input causes more than one event, whatever the thresholds. |
| GateOpenings.OpenAfterCall | core/consent_gate.c:87-151 | After any run, with settings changed at any time, the next call leaves the gate open if and only if the readings are fit and come within 0.05 of every threshold, when it was open, or reach every threshold plus the bias with the warm-up over and no rest left, when it was not; the weights and limits are spelled out. |
| GateOpenings.OpenUnderConstantInput | core/consent_gate.c:99-150 | With a bias of at least -0.05 a gate under constant readings is open after n calls if and only if they are fit and high enough and the warm-up is over. |
| GateOpenings.ReopensOnTime | core/consent_gate.c:27-39 | With fixed settings a gate that closed opens again under good readings at the call its refractory time says, and not before. |
| ConsentGate.Consent.constructor | core/consent_gate.c:41-59 | The defaults and the closed initial state. |
| ConsentGate.Consent.SetThresholds | core/consent_gate.c:61-71 | Only the four thresholds change. |
| ConsentGate.Consent.SetHysteresis | core/consent_gate.c:73-85 | A running countdown is cut to the new refractory time. |
| ConsentGate.Consent.GreatestThreshold | core/consent_gate.c:11-25 | The greatest of the four thresholds. |
| ConsentGate.Consent.CloseGate | core/consent_gate.c:27-39 | Closing restarts the countdown, reports an event only when the gate was open, and never shortens a countdown. |
| ConsentGate.Consent.Mix | core/consent_gate.c:111-119 | The weighted score, always within [0, 1]. |
| ConsentGate.Consent.Update | core/consent_gate.c:87-151 | One call: the new state of every field and the event are those of the gate function. |
| SmootherModel.RatesStayInRange | core/trs_adapt.c:62-109 | After any readings the rate lies between its bounds and the integral term within its window. |
| SmootherModel.WarmsUp | core/trs_filter.c:76-80 | As many ticks as the warm-up asks for, whatever the readings, end it with the rate between its bounds. |
| SmootherModel.WarmupFollows | core/trs_filter.c:76-80 | While the warm-up lasts the smoothed values follow the readings exactly. |
| SmootherModel.GapShrinks | core/trs_filter.c:71-109 | Past the warm-up and under a constant reading the greatest error after n ticks is at most (1 - alpha_min)^n times the first, whatever rates the adaptation chooses. |
| SmootherModel.GapVanishes | core/trs_filter.c:71-109 | With a positive least rate the error is within any tolerance after a number of ticks that depends only on the first error. |
| SmootherModel.SpikesAreChased | core/trs_adapt.c:68-77 | An error above 0.15 shrinks by the factor 1 - alpha_max in the next step. |
| SmootherModel.BlendApproaches | core/trs_filter.c:82-85 | A smoothed value moves towards the reading by the rate and never past it. |
| SmootherLaws.RateIsDue | core/trs_adapt.c:62-109 | As long as no bound is met, the rate after any number of ticks is the start rate plus the proportional part of all excess, the integral part of all integral terms and the derivative part of the last excess, less 0.01 for every tick that ends twenty quiet ones. |
| SmootherLaws.IntegralIsTotal | core/trs_adapt.c:62-109 | The integral is the total excess as long as that stays within 0.05 of zero. |
| SmootherLaws.QuietIsCounted | core/trs_adapt.c:79-87 | The counter is the number of distances below 0.002 at the end of the run, up to a million. |
| SmootherLaws.WarmupCopies | core/trs_filter.c:76-80 | While the warm-up lasts each smoothed value is its own reading, 0 for a reading that is no number. |
| Smoother.TrsFilter.Step | core/trs_filter.c:50-110 | One step of the filter and the greatest distance from the readings afterwards. |
| Smoother.TrsFilter.Reset | core/trs_filter.c:39-48 | Back to zero values and a warm-up of five steps, at the same rate. |
| Smoother.TrsAdapt.constructor | core/trs_adapt.c:27-60 | Bounds out of [0, 1] or in the wrong order are put right and the start rate clamped between them. |
| Smoother.TrsAdapt.Update | core/trs_adapt.c:62-109 | One adaptation step, which keeps the rate in range. |
| Smoother.Introspection.constructor | src/introspect.c:354-401 | Every setting after its clamps; in particular the least rate is at least 0.01 whatever was asked for. |
| Smoother.Introspection.Tick | src/introspect.c:550-592 | One tick with adaptation on: filter step, adaptation by its error, new rate in the filter. |

## Left out

- Log, trace and state files, disk loading of episodes, sockets, clocks, sleeping and command lines. Parsed records and time stamps are inputs.
- Manifests, hashes, warnings, next-step texts, the lists of blocked claims, missing evidence and unresolved references, and the two summary flags of the gate; the outputs that decide are modelled.
- The message text of Python errors, and which of several faults of one item is named first.
- The payload constructor, `bus_broadcast` and `bus_emit_wave`, which only build a message and emit it.
- Null arguments and failed allocations.
- Wrap-around of tick, poll, episode and call counters: runs are taken to be shorter than the counters.
- Rounding of floating-point sums and products. In particular `normalize_degrees` may not end for floats so large that subtracting 360 changes nothing; on reals it always ends.
- A tag buffer of size 0, for which the printer writes nothing.
- The last branch of the window arithmetic, which both clamps make unreachable, is kept in the code of `SanitizeWindows` but never taken.
- The introspection tick with smoothing or adaptation switched off, the lazy initialisation at the first tick, and tuning of a running filter.
- Phase times, drift and latency of the weave; the ring of samples and the volatility snapshot of collective memory; the leader pulse and the other collective measures of the kernel. They add only clamps and means.
- The waveform, mood, council and dream modules, the soil and diagnostic rings, and the `sdk/` packages with the scripts that only call them.
