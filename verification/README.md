# Smart-site interactive components in Dafny

This project models the interactive logic of a one-page marketing site for a
business-automation consultancy. The site is a React application. Its logic
sits in small state transitions inside components, and each one is written
here as a pure function `(state, inputs, random draws / I/O outcome) -> state`.
The model covers:

- **Cyber Runner** (`CyberGame`): the falling-items mini game. It covers the per-frame step, the spawn rule, pointer clamping and restart.
- **Profit Engine** (`ProfitEngine`): the toggle list of automation modules, with the savings, efficiency and call-to-action figures derived from it.
- **AI Blueprint** (`AIBlueprint`): a three-step option wizard with a progress indicator.
- **System Terminal** (`SystemTerminal`): a rolling log window and a random load figure.
- **Hero typewriter** (`Hero`): the `(index, subIndex, reverse)` machine that types and deletes the rotating headline words.
- **ROI calculator** (`ROICalculator`): integer savings arithmetic over two sliders.
- **CountUp** (`Stats`): the counting loop of the statistics strip, written as a method with loop invariants.
- **Request lifecycles**: the chat send (`ChatWidget`), the contact form (`ContactForm`) and the audit tool (`AIAuditTool`).
- **Chat translation**: widget history to the endpoint's payload (`GeminiService`), and payload to the upstream LLM message list (`ChatProxy`).

`ChatTypes` transcribes the `Message` record of `types.ts`. `Wrappers` holds `Option`. `Text` gives
JavaScript's `trim`, `includes` and the part of `toLowerCase` that matters here.

Randomness (`Math.random()`) enters as draws in `[0, 1)`. Timers and animation
frames become one call of a step function each. Network calls become outcome
datatypes: ok, not ok, or threw with a message. Positions, the 16.6 efficiency
factor and the CountUp accumulator use exact `real` arithmetic.

Two observations about the code:

- The background animation (`components/BackgroundAnimation.tsx`) is presentational CSS (glows and keyframes) with nothing to simulate.
- In `CyberGame.tsx`, `lastTimeRef` starts as `null` and is compared with `undefined`. So the guard always passes, every animation frame steps, and `deltaTime` is never used. `CyberGame.Frame` therefore takes no time input.

## Model

| member | source | states |
|---|---|---|
| CyberGame.SpawnItem | components/CyberGame.tsx:32-40 | a spawned item starts at y = -10 with a column in [5, 95) for any draw in [0, 1); it is a node exactly when its type draw exceeds 0.3 |
| CyberGame.SpeedAtLeastHalf | components/CyberGame.tsx:50 | the fall per frame, `Speed(score)`, is at least 0.5 for a non-negative score and grows with every point |
| CyberGame.Moved | components/CyberGame.tsx:50 | each item keeps its position in the list and all its fields except `y`, which grows by exactly the frame's fall |
| CyberGame.Survivors | components/CyberGame.tsx:61-69 | an item survives iff it was among the inputs, is not in the collision window (`IsHit`: 85 < y < 95 and within 10 of the player's column) and has y < 100 |
| CyberGame.SurvivorsAppend | components/CyberGame.tsx:61-69 | filtering distributes over concatenation, so survivors keep their original order |
| CyberGame.NodeHits | components/CyberGame.tsx:58-66 | the score boost is positive iff some node is in the collision window, and never exceeds the item count |
| CyberGame.NodeHitsAppend | components/CyberGame.tsx:58-66 | each node hit is counted exactly once |
| CyberGame.Frame | components/CyberGame.tsx:46-80 | the collision test runs over `Candidates`, the moved items followed by the spawned one when the spawn draw is under 0.05; identity before start or after game over; the player never moves; score never decreases; the game ends exactly on a bug hit, and then items are cleared and the score kept; otherwise the score grows by the node hits and the items are the survivors |
| CyberGame.BugHitEndsGame | components/CyberGame.tsx:71-73 | one bug in the window ends the game with no items and an unchanged score, whatever nodes were also hit |
| CyberGame.HitItemsNeverSurvive | components/CyberGame.tsx:61-69 | after a live frame no remaining item is in the collision window or below y = 100 |
| CyberGame.Clamp | components/CyberGame.tsx:98 | the result lies in [5, 95], equals x inside that band and the nearer bound outside it |
| CyberGame.PointerMove | components/CyberGame.tsx:93-99 | pointer moves are ignored after game over; otherwise only `playerX` changes, to the clamped column |
| CyberGame.StartGame | components/CyberGame.tsx:101-109 | a (re)start gives a running game with score 0, no items and the player at 50 |
| CyberGame.ApplyKeepsInv | components/CyberGame.tsx:20-109 | frames, pointer moves and restarts keep the player in [5, 95], the score non-negative, a lost game empty and every item in [5, 95) x (-inf, 100) |
| CyberGame.RunKeepsInv | components/CyberGame.tsx:20-109 | every state reachable from mount satisfies that invariant |
| ProfitEngine.RemoveAll | components/ProfitEngine.tsx:29 | the id no longer occurs, every other id that occurred still does, and the list is never longer, strictly shorter when the id was present |
| ProfitEngine.RemoveAllCounts | components/ProfitEngine.tsx:29 | every other id keeps its exact number of occurrences |
| ProfitEngine.RemoveAllAppend | components/ProfitEngine.tsx:29 | removal distributes over concatenation, so the remaining ids keep their order |
| ProfitEngine.Toggle | components/ProfitEngine.tsx:27-31 | an absent id is appended at the end; a present id is removed entirely; other ids keep their multiplicity |
| ProfitEngine.ToggleKeepsNoDuplicates | components/ProfitEngine.tsx:27-31 | toggling never introduces a duplicate into a duplicate-free list |
| ProfitEngine.ToggleTwiceAbsent | components/ProfitEngine.tsx:27-31 | toggling an inactive id twice gives back exactly the same list |
| ProfitEngine.ToggleTwiceSameIds | components/ProfitEngine.tsx:27-31 | toggling any id twice restores the same set of active ids |
| ProfitEngine.ToggleTwiceMayReorder | components/ProfitEngine.tsx:27-31 | the order is not restored: toggling "crm" twice in ["crm", "whatsapp"] moves it to the end |
| ProfitEngine.SelectedFrom | components/ProfitEngine.tsx:19 | a module is selected iff it is listed and its id is active |
| ProfitEngine.SelectedFromAppend | components/ProfitEngine.tsx:19 | selection distributes over concatenation, so the selected modules keep the list order |
| ProfitEngine.SelectedDependsOnIdsOnly | components/ProfitEngine.tsx:19 | the selection depends only on which ids are active, not on their order or repetition |
| ProfitEngine.TotalSavingsBounded | components/ProfitEngine.tsx:4-20 | `TotalSavings`, the sum of the selected modules' savings, never exceeds 83, the sum over all six modules |
| ProfitEngine.SavingsAddId | components/ProfitEngine.tsx:19-20 | adding one id to the active set adds exactly the savings of the modules carrying it |
| ProfitEngine.IdsDistinct | components/ProfitEngine.tsx:4-11 | no two modules on offer share an id |
| ProfitEngine.SavingsOfKnownId | components/ProfitEngine.tsx:4-11 | each listed id names exactly one module, so its savings are that module's |
| ProfitEngine.ModuleSavesSomething | components/ProfitEngine.tsx:4-11 | every module on offer saves a positive number of hours |
| ProfitEngine.ToggleSavings | components/ProfitEngine.tsx:18-31 | switching a module on adds its savings and switching it off removes them |
| ProfitEngine.SavingsOfUnknownId | components/ProfitEngine.tsx:19-20 | an id no listed module carries contributes no savings |
| ProfitEngine.UnknownIdSavesNothing | components/ProfitEngine.tsx:18-31 | toggling an id outside the module list leaves the total savings unchanged |
| ProfitEngine.Efficiency | components/ProfitEngine.tsx:21 | efficiency is 16.6 times the number of selected modules, lies in [0, 99.6] and is 0 exactly when no module is selected |
| ProfitEngine.CountAddId | components/ProfitEngine.tsx:19 | adding one id to the active set selects exactly the modules carrying it in addition |
| ProfitEngine.CountOfUnknown | components/ProfitEngine.tsx:19 | an id no listed module carries selects no module |
| ProfitEngine.CountOfIdAt | components/ProfitEngine.tsx:19 | with distinct ids, the id of the module at k is carried by exactly one module |
| ProfitEngine.ToggleEfficiency | components/ProfitEngine.tsx:18-31 | switching module k on raises the efficiency by exactly 16.6 and switching it off lowers it by exactly 16.6 |
| ProfitEngine.MonthlyHours | components/ProfitEngine.tsx:98 | displayed monthly hours are four times the total savings, so at most 332 |
| ProfitEngine.ToggleKeepsReachable | components/ProfitEngine.tsx:27-51 | clicking module buttons keeps the list duplicate-free and made only of module ids |
| ProfitEngine.CtaIffSavings | components/ProfitEngine.tsx:110-112 | on a reachable list the call to action (`CtaEnabled`: some module active) is live exactly when the savings are positive |
| ProfitEngine.NothingActiveSavesNothing | components/ProfitEngine.tsx:19-20 | with no module active nothing is selected and the savings are 0 |
| ProfitEngine.ActiveModuleSaves | components/ProfitEngine.tsx:19-20 | an active module contributes at least its own savings |
| AIBlueprint.WriteAt | components/AIBlueprint.tsx:37-38 | the write puts the value at the index, leaves every other slot unchanged and leaves holes when it grows the array |
| AIBlueprint.Select | components/AIBlueprint.tsx:36-45 | the option is recorded at the current step and other selections stay; steps 0 and 1 advance by one; the last step starts the simulation and stays put |
| AIBlueprint.Reset | components/AIBlueprint.tsx:47-51 | reset returns to step 0, no selections, not simulating |
| AIBlueprint.Progress | components/AIBlueprint.tsx:82-84 | the indicator has one segment per step |
| AIBlueprint.ApplyKeepsInv | components/AIBlueprint.tsx:36-51 | the step stays in [0, 2]; selections count the finished steps (3 while simulating), have no holes, and each belongs to its own step's options |
| AIBlueprint.ProgressIsPrefix | components/AIBlueprint.tsx:82-84 | on reachable states a segment is lit (`SegmentLit`) exactly when it is among the first activeStep + 1 |
| AIBlueprint.InitialInv | components/AIBlueprint.tsx:5-7 | the opening state (step 0, no selections, not simulating) satisfies the invariant |
| AIBlueprint.RunKeepsInv | components/AIBlueprint.tsx:36-106 | every state reached by clicking offered options or the reset button satisfies the invariant |
| AIBlueprint.ReachedProgressIsPrefix | components/AIBlueprint.tsx:82-84 | in every state reached from the opening one, the indicator lights exactly the first activeStep + 1 segments |
| AIBlueprint.ThreeChoicesSimulate | components/AIBlueprint.tsx:36-45 | three choices from the start reach the simulation with exactly those three selections |
| SystemTerminal.Initial | components/SystemTerminal.tsx:5-6 | the terminal opens with exactly three log lines and load 0 |
| SystemTerminal.Last | components/SystemTerminal.tsx:24 | for n ≥ 1, `slice(-n)` is the suffix of length min(len, n) (the page only uses n = 20) |
| SystemTerminal.TemplateIndex | components/SystemTerminal.tsx:23 | a draw in [0, 1) picks a template index in [0, 8], the floor of 9 times the draw |
| SystemTerminal.Load | components/SystemTerminal.tsx:25 | a draw in [0, 1) gives an integer load in [60, 99]: the floor of 40 times the draw, plus 60 |
| SystemTerminal.Push | components/SystemTerminal.tsx:24 | the new line is last; it follows exactly the last min(n, 20) earlier lines in order, so there are at most 21 |
| SystemTerminal.Entry | components/SystemTerminal.tsx:24 | a log line is the time stamp in brackets, one space, then the template, and both can be read back from it |
| SystemTerminal.Tick | components/SystemTerminal.tsx:21-26 | a tick keeps the last min(n, 20) lines and appends the stamped line of the template `TemplateIndex` picks from the log draw; the load is `Load` of the load draw, in [60, 99] |
| SystemTerminal.WindowOfHistory | components/SystemTerminal.tsx:24 | the log is always the last (at most) 21 lines of everything ever logged |
| SystemTerminal.PushWindow | components/SystemTerminal.tsx:24 | one push onto a window of at most 21 lines keeps the same last-21 view of the history |
| SystemTerminal.LogLengthAfterTicks | components/SystemTerminal.tsx:5-24 | after k ticks from boot the log holds min(3 + k, 21) lines |
| Hero.Step | components/Hero.tsx:10-27 | a full word only turns on reversal; a finished deletion moves to the next word mod 4 with cursor 0, typing forward; otherwise the cursor moves by one (forward +1, reverse -1) |
| Hero.StepKeepsInv | components/Hero.tsx:5-24 | the word index stays in [0, 4) and the cursor in [0, len + 1] |
| Hero.Displayed | components/Hero.tsx:48 | the headline is the prefix of the current word of length min(subIndex, len), clamped at 0 |
| Hero.TypeOut | components/Hero.tsx:11-24 | typing from cursor k reaches len + 1 in len + 1 - k steps |
| Hero.DeleteOut | components/Hero.tsx:16-24 | deleting from cursor k reaches 0 in k steps |
| Hero.WordCycle | components/Hero.tsx:10-27 | one word takes 2 len + 4 steps and ends at the start of the next word |
| Hero.FullRotation | components/Hero.tsx:5-27 | after 128 steps the headline is back at its initial state |
| ROICalculator.Compute | components/ROICalculator.tsx:8-10 | monthly hours are 4h, monthly money is 4hw, and yearly savings are 12 times that, 48hw |
| ROICalculator.YearlyBounds | components/ROICalculator.tsx:8-40 | on the slider ranges the yearly savings lie in [2,400, 4,800,000] |
| ROICalculator.Monotone | components/ROICalculator.tsx:8-10 | all three figures are non-decreasing in hours and wage |
| ROICalculator.InitialFigures | components/ROICalculator.tsx:5-10 | the initial sliders give 40 hours, 4,000 a month and 48,000 a year |
| Stats.Increment | components/Stats.tsx:20 | the per-tick increment is non-negative and `duration` ticks of it make 16 times `end` |
| Stats.AccumulatedFacts | components/Stats.tsx:19-23 | the accumulator grows by one increment per tick and reaches a positive `end` exactly when 16k >= duration |
| Stats.CountUp | components/Stats.tsx:17-31 | nothing ticks while invisible; counts stay in [0, end], never decrease and stay below `end` until the last tick; each count before the last is the floor of the accumulator after that tick; the last count is `end`, reached after ceil(duration/16) ticks (one tick for end 0) |
| ChatProxy.UpstreamMessages | api/chat.ts:36-40 | the upstream list is the system prompt, then the history in order, then the user's text: length + 2 |
| ChatProxy.Handle | api/chat.ts:6-67 | non-POST gives 405 with no upstream call; an unreadable body gives 500 with the prefixed message; a missing key gives 500; otherwise the list is sent upstream, and a reply gives 200 with the trimmed content while a failure gives 500 with the prefixed message |
| ChatProxy.NonPostIgnoresEverythingElse | api/chat.ts:7-9 | a non-POST request is answered before the body, key or upstream matter |
| ChatProxy.HistoryDefaultsToEmpty | api/chat.ts:12 | an absent history behaves as the empty list |
| ChatProxy.ReplyIsTrimmed | api/chat.ts:57-62 | a POST with a readable body, a key and an upstream reply is answered 200 with a reply that has no leading or trailing white space |
| GeminiService.WireRole | services/geminiService.ts:16 | `user` maps to "user" and `model` maps to "assistant" |
| GeminiService.WireHistory | services/geminiService.ts:15-18 | the posted history has the same length and order; each content is the text and each role is translated |
| GeminiService.WireHistoryRoundTrip | services/geminiService.ts:15-18 | reading the posted history back gives exactly the original messages |
| GeminiService.RequestOf | services/geminiService.ts:13-19 | the posted text is the user's message and the history keeps its length |
| GeminiService.Thrown | services/geminiService.ts:9-28 | a fetch failure or an unreadable body throws its own message; a non-ok JSON response throws its `error`, or "Server error" when that is absent or empty; only an ok JSON response returns |
| GeminiService.RubyResponse | services/geminiService.ts:8-39 | never throws: an ok response gives its reply; an error mentioning (`Text.Contains`) "fetch" or "Network" gives the connectivity text; any other error gives the generic text |
| GeminiService.EndToEndMessages | services/geminiService.ts:13-19 | through the endpoint, the upstream model sees the history in order, after the system prompt and before the user's text |
| GeminiService.ClientView | services/geminiService.ts:21-27 | the client reads the endpoint's response as ok exactly for a 2xx status, with the reply or the error field taken from the body |
| GeminiService.UpstreamFetchFailureLooksLikeConnectivity | services/geminiService.ts:29-38 | when the endpoint's own upstream fetch fails with a message mentioning "fetch", the user sees the connectivity text |
| ChatWidget.MessageText | components/ChatWidget.tsx:26 | the text is the quick reply when one is given and non-empty, otherwise the input |
| ChatWidget.BeginSend | components/ChatWidget.tsx:25-32 | a blank text or a send while typing is ignored; otherwise the untrimmed user bubble is appended, typing starts, the input clears unless a non-empty quick reply was used, and the service gets the history from before this bubble |
| ChatWidget.FinishSend | components/ChatWidget.tsx:34-41 | exactly one bot bubble follows, holding the reply or the fixed fallback, and typing stops |
| ChatWidget.SendAddsTwoBubbles | components/ChatWidget.tsx:25-42 | a whole send (`HandleSend`) changes nothing, or keeps the earlier bubbles and adds the user's bubble then one bot bubble |
| ChatWidget.BlankOrBusyIgnored | components/ChatWidget.tsx:27 | a blank text, or any send while waiting, leaves the state unchanged |
| ChatWidget.UserTextUntrimmed | components/ChatWidget.tsx:29-30 | the user's bubble keeps the surrounding white space |
| ChatWidget.QuickRepliesGoneAfterSend | components/ChatWidget.tsx:62 | the quick replies (`QuickRepliesShown`: only while there are no messages) are not offered again once a message has been sent |
| Text.Trim | api/chat.ts:57 | the trimmed string is an infix of the input with only white space (`IsSpace`: the WhiteSpace and LineTerminator code points of ECMAScript) before and after it; it is empty iff the input is blank, and otherwise neither starts nor ends with white space |
| Text.TrimIdempotent | api/chat.ts:57 | trimming twice is trimming once |
| Text.ContainsInfix | components/AIAuditTool.tsx:66 | `includes` (`Contains`: some position where the needle occurs) holds of every string that has the needle as an infix |
| Text.ToLower | components/AIAuditTool.tsx:65 | lower-casing keeps the length and maps each character on its own |
| ContactForm.Step | components/ContactForm.tsx:5-32 | a valid submit moves to sending; the request settles to success iff ok and to error otherwise; the only way out of success is back to idle; while sending only settling changes anything; no other event changes the status (`SubmitEnabled`: not while sending) |
| ContactForm.SuccessNeedsOkResponse | components/ContactForm.tsx:5-32 | over any sequence of events, the success screen is reached only through a request that settled with a 2xx response |
| ContactForm.Body | components/ContactForm.tsx:10-11 | the posted object has the entries name, email, message in that order |
| ContactForm.BodyRoundTrip | components/ContactForm.tsx:10-11 | each field can be read back under its own name from the posted object |
| ContactForm.SubmitThenSettle | components/ContactForm.tsx:5-23 | from a fresh form, submit then settle shows success for an ok response and error otherwise |
| AIAuditTool.Begin | components/AIAuditTool.tsx:21-29 | a blank input or missing key refuses, setting the key-missing error only when the key is missing and otherwise changing nothing; a request sets loading and clears the error |
| AIAuditTool.Classify | components/AIAuditTool.tsx:65-70 | the filter message is chosen iff the lower-cased serialisation contains (`Text.Contains`) "418" or "blocked"; otherwise the generic message |
| AIAuditTool.Finish | components/AIAuditTool.tsx:30-73 | loading is off afterwards; success stores the roadmap; failure keeps the old roadmap and sets the classified error |
| AIAuditTool.RefusedLeavesLoading | components/AIAuditTool.tsx:23-26 | a refused generate leaves loading and result untouched |
| AIAuditTool.RequestEndsNotLoading | components/AIAuditTool.tsx:27-73 | after a whole `Generate` that made a request, loading is false on every path, with either the new roadmap and no error, or the old roadmap and an error |
| AIAuditTool.UpperCaseBlockedRecognised | components/AIAuditTool.tsx:65-66 | "BLOCKED" in any case anywhere in the error selects the filter message |
| AIAuditTool.Status418Recognised | components/AIAuditTool.tsx:65-66 | "418" anywhere in the error selects the filter message |
| AIAuditTool.AnotherAnalysis | components/AIAuditTool.tsx:144 | "another analysis" clears both the roadmap and the input and leaves the rest |
| AIAuditTool.EnabledIffNotBlank | components/AIAuditTool.tsx:99 | the generate button (`GenerateEnabled`) is enabled exactly when nothing is loading and the description is not blank |
| AIAuditTool.EnabledMeansRequestUnlessKeyMissing | components/AIAuditTool.tsx:23-28 | with nothing loading and a non-blank description the button is enabled, and a click sends a request exactly when the key is present |

## Left out

- Randomness, timers and animation frames: `Math.random()`, `setInterval`, `setTimeout` and `requestAnimationFrame` are not modelled. Draws are parameters in [0, 1), and each timer or frame firing is one call of a step function. The 80/40/2500 ms typewriter delays, the 1200 ms terminal interval and the 16 ms CountUp interval are left out.
- Network and foreign calls: `fetch`, the form collector, the generative-AI SDK and the upstream chat-completion API are not modelled. Their results are opaque outcome values.
- Locale formatting: `toLocaleString` and `toLocaleTimeString` are left out. A log line's time stamp is an input string.
- IEEE floating point: the model uses exact reals, so rounding in `16.6 * n`, in the CountUp accumulator and in item positions is not modelled.
- React runtime: re-render batching and effect scheduling are not modelled. The one visible consequence is kept: the chat history passed to the service excludes the message just sent.
- Presentational and DOM-driven files are not modelled: `App.tsx`, `Navbar.tsx`, `Projects.tsx`, `Services.tsx`, `Testimonials.tsx`, `TechStack.tsx`, `BackgroundAnimation.tsx` (CSS only) and `vite.config.ts`.
- `constants.tsx` holds data only and is not modelled. `types.ts` is transcribed only for `Message`.
- Content is not modelled: the system prompt text (a parameter of `ChatProxy.Handle`), the quick-reply texts, the Hebrew copy and all styling. The error and fallback strings the logic returns are kept verbatim.
- The chat widget's open/close toggle and its scrolling, the terminal's auto-scroll, and every `onClose` callback are left out. They hold no logic.
- CyberGame.PointerMove: takes the pointer column as a percentage. The conversion from client coordinates is left out, and so are a zero-width container and the NaN it would produce.
- CyberGame.SpawnItem: random item ids are kept, but whether React keys stay unique is not modelled.
- Stats.CountUp: requires `duration > 0` and a non-negative integer `end` (every use on the page passes 50, 1000, 100 or 24 with the default 2000). A zero duration gives an infinite increment in JavaScript, and a negative one never finishes, so neither is modelled.
- Hero.Step: requires the word index to be in range. Out of range, `words[index]` would throw. The invariant shows this never happens.
- ChatProxy.Handle: assumes `text` is a string and `history` (when present) is a list of `{ role, content }` entries. A missing `text` or a malformed history is not modelled. Every upstream failure (network, bad JSON, no first choice, non-string content) is one outcome carrying the thrown message.
- GeminiService.Thrown: assumes the `error` field is a string or absent. Other JSON values in it are not modelled.
- ChatWidget.FinishSend: the service's reply is a string. An `undefined` reply (an ok response without `reply`) would become a bubble with undefined text, and that is not modelled.
- ContactForm.Step: browser validation is only the `required` non-empty check. Email-format validation is left out. The posted body is modelled as its object entries, not as JSON text with escaping.
- AIAuditTool.Finish: parsing the model's JSON reply and checking its schema are folded into the outcome: a parsed roadmap, or a failure with its serialisation. For a plain `Error`, `JSON.stringify` gives "{}"; that serialisation is an input and is not computed.
- Logging: the `console.error` calls in `services/geminiService.ts` and `components/AIAuditTool.tsx` are left out. They change no state.
- AIAuditTool.Finish: when `JSON.stringify(err)` throws (a circular error object) or yields `undefined`, the catch block throws before `setError`, and only the `finally` clause's `setLoading(false)` runs. The serialisation is a string input here, so that path is not modelled.
- Text.ToLower: maps only `A`-`Z` and the Kelvin sign (U+212A, which JavaScript lower-cases to `k`). Every other character is unchanged. That is enough to decide whether "418" or "blocked" occurs. No other character lower-cases to one of the characters in those two needles. U+0130 lower-cases to "i" plus a combining dot, and neither of those appears in a needle.
- ProfitEngine: the modules' `cost` is transcribed but never used in a computation, as in the code. The rounded percentage and the gauge's stroke offset are presentation.
