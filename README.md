# go-browser-ai-agent: a Dafny model of the agent's control logic

This project models in Dafny the control logic of the browser agent in
go-browser-ai-agent, and proves properties of it. The agent drives a web
page step by step towards a task. At each step it:

1. takes a text snapshot of the page, where every interactive element has a
   small integer handle;
2. asks a language model for the next action;
3. runs the action past a loop guard that refuses repetitions;
4. asks the user before a destructive action;
5. executes the action;
6. records it in a step memory that feeds the next prompt.

Three loops are modelled:
- the single-agent loop (`Agent.Run`);
- the object-based runner (`Runner.Runner.Run`);
- the plan-driven orchestrator (`Orchestrator.Run`), which works through
  the planner's steps with a cursor and hands each one to a navigation or
  an interaction sub-agent.

There is one Dafny module per Go source file:

- `Base` (—): `Option` and `Result`
- `Text` (uses of Go's `strings`, `strconv` and `fmt`): functions
- `LlmTypes` (`Action`, `Decision`, and the rate-limit retry rule both decision clients share): datatypes and a function
- `LoopGuard` (the counters shared by both step memories): pure specification: `Record`, `Replay`, `BlockedAfter`
- `Memory` (internal/agent/memory.go): class `StepMemory`
- `LegacyMemory` (internal/agent/step_memory.go): class `StepMemory`

memory.go and step_memory.go both declare `StepMemory` and `NewStepMemory` in the same Go package, so they cannot be built together. The loops use memory.go's version: it is the one with `FullHistory`, which reporter.go:97 and orchestrator.go:47 call. Both are modelled, each in its own module, and the loops use `Memory`.

Each client keeps its own constants (attempt limit, pause, error texts). The rate-limit test and the first-settled attempt are the same in both, so `LlmTypes` holds them once.
- `Snapshot` (internal/browser/snapshot.go): loops over nodes as methods, checked against rendering functions
- `Planner` (internal/planner/planner.go): in-place array loop
- `Reason` (internal/agent/reason.go): function
- `AgentActions` (internal/agent/actions.go): the guard chain, and the confirmation read loop
- `Agent` (internal/agent/agent.go): step loop, cart tally loop
- `Runner` (internal/agent/runner.go, step_execution.go): class `Runner`
- `OpenAIClient` (internal/llm/openai_client.go): retry loop
- `DecisionClient` (internal/llm/decision.go): retry loop
- `Orchestrator` (internal/agent/orchestrator.go): plan-cursor loop

The following outside systems are parameters of the model. Each is a value, or a function indexed by the step number:
- the browser: location, accessibility tree, DOM query, action outcomes;
- the language model: decisions, sub-agent proposals, plans;
- the terminal used for confirmation;
- the Ctrl+C signal.

Each loop is a method with invariants, proved equal to a specification function:
- `Agent.EventAt` for the single-agent loop;
- `Agent.StepEvent` for the runner;
- `Orchestrator.TurnAt` and `Orchestrator.Outcome` for the orchestrator.

The loop guard's counters are kept concrete in the memory classes. A ghost history of keys, with the invariant `Guard() == Replay(keys)`, gives `ShouldBlock` its meaning as `BlockedAfter(keys, key, threshold)`. That meaning holds when:
- the last key is proposed again after at least `threshold` consecutive executions, or
- the pair (last key, proposed key) has already occurred in the history.

## Model

| member | source | states |
|---|---|---|
| `Text.TrimSpace` | internal/agent/memory.go:120 | the result is no longer than the input and has no white space at either end |
| `Text.TrimSpaceMeaning` | internal/agent/memory.go:120 | the result is the slice of the input between its leading and its trailing run of white space |
| `Text.TrimSpaceBlank` | internal/agent/memory.go:120-123 | a text trims to nothing exactly when all of it is white space |
| `Text.TrimSpaceKeeps` | internal/agent/agent.go:436-437 | a string with no surrounding white space is unchanged by trimming |
| `Text.TrimChar` | internal/llm/decision.go:76 | the result is no longer than the input and neither starts nor ends with the trimmed character |
| `Text.TrimCharMeaning` | internal/llm/decision.go:76 | the result is the slice of the input after its leading run of the character, followed in the input only by that character |
| `Text.ToLower` | internal/planner/planner.go:125 | same length; every character is mapped to lower case (ASCII and Cyrillic) |
| `Text.ToUpper` | internal/agent/step_execution.go:63 | same length; every character is mapped to upper case (ASCII and Cyrillic) |
| `Text.ToLowerKeeps` | internal/planner/planner.go:125-126 | lower-case identifiers are unchanged by `ToLower` |
| `Text.ReplaceChar` | internal/browser/snapshot.go:166 | same length; exactly the occurrences of one character are replaced |
| `Text.NatToString` | internal/agent/memory.go:45 | `%d` of a natural number is non-empty and all digits |
| `Text.IntToString` | internal/agent/memory.go:45 | `%d` of an integer is non-empty, made of digits and the minus sign |
| `Text.NatToStringRoundTrip` | internal/agent/memory.go:45 | the decimal digits of a natural number read back as that number |
| `Text.IntToStringRoundTrip` | internal/agent/memory.go:45 | `%d` of any integer, sign included, reads back as that integer, so distinct targets give distinct texts |
| `Text.HexRoundTrip` | internal/agent/memory.go:50 | a code written as `w` lower-case hexadecimal digits (the `\x`, `\u` and `\U` escapes of `%q`) reads back as that code |
| `Text.EscapeChar` | internal/agent/memory.go:50 | one character as `strconv.Quote` writes it: never empty and never a raw line break; kept as itself exactly when it is printable and not a quote or backslash |
| `Text.EscapeCharPrintable` | internal/agent/memory.go:50 | every character of an escaped character is printable |
| `Text.Escape` | internal/agent/memory.go:50 | the escaped body of `%q` has no raw line break |
| `Text.EscapePrintable` | internal/agent/memory.go:50 | the escaped body of `%q` consists of printable characters only |
| `Text.EscapePlain` | internal/agent/memory.go:50 | text of printable characters without quotes or backslashes is written unchanged |
| `Text.DecodeEscapeChar` | internal/agent/memory.go:50 | decoding the front of an escaped character followed by anything gives back that character and the escape's length |
| `Text.EscapeRoundTrip` | internal/agent/memory.go:50 | unescaping the escaped body gives back the original text |
| `Text.Quote` | internal/agent/memory.go:50 | `%q` is enclosed in double quotes and has no raw line break |
| `Text.QuotePrintable` | internal/agent/memory.go:50 | every character of `%q` output is printable |
| `Text.QuoteRoundTrip` | internal/agent/memory.go:50 | unquoting `%q` output gives back the original text, so the `text=` field loses nothing |
| `LoopGuard.MakeKey` | internal/agent/memory.go:44-46 | definition: the key of an action on a page is the triple of its type, the URL and its target handle |
| `LoopGuard.KeyString` | internal/agent/memory.go:44-46 | definition: the key as the text `type`, bar, `url`, bar, decimal target, as the guard notes print it |
| `LoopGuard.StepHead` | internal/agent/memory.go:49-50 | definition: the fields `step=`, ` url=`, ` action=`, ` target=` and ` text=` of a history line, with `%d` numbers |
| `LoopGuard.StepLine` | internal/agent/memory.go:49-52 | definition: the history line of an executed action, its fields followed by the `%q` of its text |
| `LoopGuard.PatternString` | internal/agent/memory.go:78 | definition: a window as the key texts joined by `->`, the pattern text of memory.go:78 and :104 |
| `LoopGuard.RepeatNote` | internal/agent/memory.go:87-92 | definition: the repeat refusal note, naming the key text and the repeat count |
| `LoopGuard.PatternNote` | internal/agent/memory.go:106-110 | definition: the pattern refusal note, naming the pattern length and the pattern text |
| `LoopGuard.KeyStringInjective` | internal/agent/memory.go:44-46 | keys whose type and URL hold no bar character or `>` and whose texts are equal are the same key |
| `LoopGuard.StepLineOneLine` | internal/agent/memory.go:49-52 | a history line of a URL and type without line breaks is one line, and it ends with the quoted text, which reads back as the action's text |
| `LoopGuard.KeyStrings` | internal/agent/memory.go:78 | each window entry becomes that key's text, in order |
| `LoopGuard.PatternOfPair` | internal/agent/memory.go:78 | a pattern of two keys is their texts joined by `->` |
| `LoopGuard.JoinInjective` | internal/agent/memory.go:78 | joining by `->` equally many parts free of `>` loses nothing: equal joins have equal parts |
| `LoopGuard.PatternStringInjective` | internal/agent/memory.go:44-78 | for keys without a bar character or `>` in type and URL, equal pattern texts come from equal windows, so counting texts is counting windows |
| `LoopGuard.PatternStringCollides` | internal/agent/memory.go:78 | two different windows, with bar characters and `->` in their URLs, have the same pattern text |
| `LoopGuard.Tail` | internal/agent/memory.go:56-59 | the window keeps the last `n` lines (all of them when fewer), in order |
| `LoopGuard.TailAppend` | internal/agent/memory.go:56-59 | appending to a trimmed window equals trimming after appending to the whole history |
| `LoopGuard.ReplayAppend` | internal/agent/memory.go:61-80 | the counters after a history plus one key are that key recorded after the history |
| `LoopGuard.PairTableCounts` | internal/agent/memory.go:75-80 | the pattern table counts exactly how often each pair of consecutive keys occurred |
| `LoopGuard.PairTableWindows` | internal/agent/memory.go:75-80 | every entry of the pattern table is a pair that occurred at least once |
| `LoopGuard.RecordRun` | internal/agent/memory.go:63-68 | the repeat counter equals the length of the trailing run of equal keys |
| `LoopGuard.RecordWindow` | internal/agent/memory.go:70-80 | recording a key bumps exactly the pair (previous key, key), and nothing for the first key |
| `LoopGuard.RecordCounts` | internal/agent/memory.go:70-80 | recording keeps the pattern table equal to the pair counts of the history |
| `LoopGuard.RecordSummarizes` | internal/agent/memory.go:48-81 | `Add` keeps the counters a faithful summary of the key history |
| `LoopGuard.ReplaySummarizes` | internal/agent/memory.go:48-81 | the counters rebuilt from a history summarise it |
| `LoopGuard.RepeatHitMeaning` | internal/agent/memory.go:86 | the repeat check fires iff the proposal equals the last key and its trailing run reaches the threshold |
| `LoopGuard.PatternHitMeaning` | internal/agent/memory.go:95-105 | the pattern check fires iff the pair (last key, proposal) has occurred before |
| `LoopGuard.SummaryBlocks` | internal/agent/memory.go:83-117 | the counter-based decision equals `BlockedAfter` on the history they summarise |
| `LoopGuard.BlocksMeaning` | internal/agent/memory.go:83-117 | blocking on replayed counters is blocking by the history |
| `LoopGuard.PairCountAppend` | internal/agent/memory.go:75-80 | appending a key adds exactly one occurrence of the pair it closes |
| `LoopGuard.PairCountGrows` | internal/agent/memory.go:79 | pattern counts never decrease: a pattern once seen stays seen |
| `LoopGuard.PairCountMembers` | internal/agent/memory.go:75-80 | a pair that occurred consists of keys of the history |
| `LoopGuard.RepeatBlocks` | internal/agent/memory.go:83-117 | after the same action ran twice in a row, a third proposal of it is blocked |
| `LoopGuard.PatternRoundTrip` | internal/agent/memory.go:95-114 | after A, B, A ran, proposing B again is blocked |
| `LoopGuard.AlternationVerdict` | internal/agent/memory.go:95-114 | after A then B, proposing A is blocked iff B was already followed by A |
| `LoopGuard.FreshKeyAllowed` | internal/agent/memory.go:83-117 | a key never executed before is never blocked |
| `LoopGuard.RepeatResetByNewKey` | internal/agent/memory.go:63-68 | one new key in between lets a repeated action through again |
| `LoopGuard.FinishNeverBlocked` | internal/agent/memory.go:83-117 | when no finish was ever recorded, a finish proposal is never blocked |
| `LoopGuard.LastWindow` | internal/agent/memory.go:95-104 | the recent-key window holds the history's last key, so the proposed pattern is (last key, proposal) |
| `LoopGuard.Record` | internal/agent/memory.go:61-80 | definition: the repeat counter grows on the same key and restarts at 1 on a new one; the key joins the last 10 recent keys; the closing pair is counted |
| `LoopGuard.RepeatHit` | internal/agent/memory.go:86 | definition: a positive threshold, the proposal equal to the last key, and its count at the threshold |
| `LoopGuard.PatternHit` | internal/agent/memory.go:95-105 | definition: the last recent key and the proposal form a pair already counted at least once |
| `LoopGuard.Blocks` | internal/agent/memory.go:83-117 | definition: the repeat rule or the pattern rule fires |
| `LoopGuard.BlockedAfter` | internal/agent/memory.go:83-117 | definition on the key history: the last key proposed again after a trailing run of at least `threshold`, or the pair (last key, proposal) already in the history |
| `Memory.StepMemory.constructor` | internal/agent/memory.go:28-42 | defaults of 5 lines and threshold 2 for out-of-range arguments; ring of 10 keys, pairs as patterns; empty history |
| `Memory.StepMemory.AppendLine` | internal/agent/memory.go:54-59 | the line goes to the full history and to the window, which keeps the last `maxLines` |
| `Memory.StepMemory.RecordKey` | internal/agent/memory.go:61-80 | the counters change exactly as `Record` says |
| `Memory.StepMemory.Track` | internal/agent/memory.go:61-80 | the key joins the key history, the counters change as `Record` says and stay its summary, and the loop flag is untouched |
| `Memory.StepMemory.Add` | internal/agent/memory.go:48-81 | the step line is appended to both histories, the action's key to the key history, and the counters stay its summary |
| `Memory.StepMemory.ShouldBlock` | internal/agent/memory.go:83-117 | blocked iff `BlockedAfter(keys, key, threshold)`; the reason is the repeat note, the pattern note, or empty when not blocked |
| `Memory.StepMemory.AddSystemNote` | internal/agent/memory.go:119-131 | a blank note changes nothing; otherwise the trimmed note is appended to both histories |
| `Memory.StepMemory.HistoryLines` | internal/agent/memory.go:133-140 | the last `maxLines` lines of the full history |
| `Memory.StepMemory.HistoryString` | internal/agent/memory.go:142-148 | those lines joined by line breaks; empty for an empty history |
| `Memory.StepMemory.FullHistory` | internal/agent/memory.go:150-157 | every line ever added, in order |
| `Memory.StepMemory.MarkLoopTriggered` | internal/agent/memory.go:159-161 | the loop flag is set and nothing else changes |
| `Memory.StepMemory.LoopTriggered` | internal/agent/memory.go:163-165 | returns the loop flag |
| `LegacyMemory.StepMemory.constructor` | internal/agent/step_memory.go:31-45 | the same defaults as the newer memory; empty history |
| `LegacyMemory.StepMemory.AppendLine` | internal/agent/step_memory.go:56-60 | the window is the last `maxLines` of every line written |
| `LegacyMemory.StepMemory.RecordKey` | internal/agent/step_memory.go:62-87 | the counters change exactly as `Record` says |
| `LegacyMemory.StepMemory.Track` | internal/agent/step_memory.go:62-87 | the key joins the key history, the counters change as `Record` says and stay its summary, and the loop flag is untouched |
| `LegacyMemory.StepMemory.Add` | internal/agent/step_memory.go:55-88 | the step line is written, the key appended to the key history, and the counters stay its summary |
| `LegacyMemory.StepMemory.ShouldBlock` | internal/agent/step_memory.go:92-129 | blocked iff `BlockedAfter(keys, key, threshold)`, with the same reasons as the newer memory |
| `LegacyMemory.StepMemory.AddSystemNote` | internal/agent/step_memory.go:132-140 | a blank note changes nothing; otherwise the note is written as given, untrimmed |
| `LegacyMemory.StepMemory.HistoryLines` | internal/agent/step_memory.go:143-150 | the last `maxLines` lines written |
| `LegacyMemory.StepMemory.HistoryString` | internal/agent/step_memory.go:153-159 | those lines joined by line breaks; empty when nothing was written |
| `LegacyMemory.StepMemory.MarkLoopTriggered` | internal/agent/step_memory.go:162-164 | the loop flag is set |
| `LegacyMemory.StepMemory.LoopTriggered` | internal/agent/step_memory.go:167-169 | returns the loop flag |
| `Snapshot.ValueString` | internal/browser/snapshot.go:186-204 | an absent value is the empty text |
| `Snapshot.ShouldSkip` | internal/browser/snapshot.go:206-217 | definition: a node is skipped when it is ignored, or when its role is generic, none or empty and it has no name |
| `Snapshot.IsInteractiveRole` | internal/browser/snapshot.go:219-228 | definition: exactly the ten roles button, link, checkbox, radioButton, searchBox, textBox, comboBox, menuItem, slider and switch |
| `Snapshot.CleanName` | internal/browser/snapshot.go:165-171 | line breaks become spaces; a name over 80 characters is cut to 77 plus `...` |
| `Snapshot.Marker` | internal/browser/snapshot.go:147-158 | the handle or dash prefix has no line break |
| `Snapshot.RoleText` | internal/browser/snapshot.go:160-163 | the role part has no line break when the role has none |
| `Snapshot.NameText` | internal/browser/snapshot.go:165-171 | the quoted name part never has a raw line break |
| `Snapshot.ValueText` | internal/browser/snapshot.go:173-178 | the value part has no line break when the value has none |
| `Snapshot.Describe` | internal/browser/snapshot.go:142-178 | a node's description is one line when its role and value are |
| `Snapshot.NodeLine` | internal/browser/snapshot.go:155-180 | every rendered node ends with exactly one line break |
| `Snapshot.CountWith` | internal/browser/snapshot.go:145-149 | at most one handle per node |
| `Snapshot.SerializeAXNode` | internal/browser/snapshot.go:137-181 | one node: its line, the counter advanced iff interactive, the table extended iff interactive with a backend id |
| `Snapshot.SerializeAXNodes` | internal/browser/snapshot.go:130-184 | the tree text, the final counter and the handle table are those of the rendering specification |
| `Snapshot.SkippedInvisible` | internal/browser/snapshot.go:138-140 | a skipped node adds no text, no handle and no table entry |
| `Snapshot.RenderedEndsLine` | internal/browser/snapshot.go:180 | the tree text is empty or ends with a line break |
| `Snapshot.CountPrefix` | internal/browser/snapshot.go:147-149 | the handle count before a later node is at least the count before an earlier node plus that node's own handle |
| `Snapshot.HandlesIncrease` | internal/browser/snapshot.go:147-149 | two interactive nodes get distinct, increasing handles |
| `Snapshot.AssignedDomain` | internal/browser/snapshot.go:151-153 | every table entry is an old one or a handle of this snapshot mapped to a non-zero backend id |
| `Snapshot.AssignedHandle` | internal/browser/snapshot.go:147-153 | every interactive node with a backend id is in the table under its own handle |
| `Snapshot.EveryHandleUsed` | internal/browser/snapshot.go:147-149 | every handle below the final counter was taken by some interactive node |
| `Snapshot.DomLine` | internal/browser/snapshot.go:259 | a fallback line ends with a line break |
| `Snapshot.DomElement` | internal/browser/snapshot.go:250-260 | each queried node takes the next handle, with a table entry only for a non-zero backend id |
| `Snapshot.BuildDOMFallback` | internal/browser/snapshot.go:232-263 | a failed query gives empty text and changes nothing; otherwise consecutive handles, one per node |
| `Snapshot.DomAssignedDomain` | internal/browser/snapshot.go:254-256 | every new fallback entry is a handle of this query mapped to a non-zero id |
| `Snapshot.DomAssignedHandle` | internal/browser/snapshot.go:254-256 | the i-th queried node with a backend id sits at handle start + i |
| `Snapshot.TakeSnapshot` | internal/browser/snapshot.go:47-126 | a browser error fails the snapshot; otherwise the AX rendering from handle 1, or the DOM fallback when the tree is empty or failed; every handle is at least 1 and maps to a non-zero id |
| `Planner.NormalMode` | internal/planner/planner.go:125-136 | always a known mode; a mode that is known after trimming and lower-casing is kept in that form; otherwise navigation exactly when the goal mentions search, go to or open, and interaction when it does not |
| `Planner.NormalizeStep` | internal/planner/planner.go:122-137 | goal kept; a zero index becomes the position plus one and any other index is kept; the mode as `NormalMode` says |
| `Planner.StepRepairedUnique` | internal/planner/planner.go:122-137 | the repair is fully determined: any step meeting the repair conditions is the normalised step |
| `Planner.LooksLikeNavigation` | internal/planner/planner.go:128-131 | definition: the lower-cased goal contains search, go to or open |
| `Planner.Normalized` | internal/planner/planner.go:121-138 | the repaired plan has as many steps as the decoded one |
| `Planner.NormalizedAt` | internal/planner/planner.go:121-138 | step `i` of the repaired plan is step `i` repaired at position `i`, independently of the other steps |
| `Planner.NormalizedKeeps` | internal/planner/planner.go:121-138 | every step of the repaired plan keeps its goal, gets the index and mode `NormalizeStep` gives at its position, and its mode is one of the two known modes |
| `Planner.RepairStep` | internal/planner/planner.go:122-137 | the loop body repairs one step as `NormalizeStep` says |
| `Planner.RepairAt` | internal/planner/planner.go:122-137 | one iteration overwrites position `i` with its repaired step and touches no other position |
| `Planner.NormalizeSteps` | internal/planner/planner.go:121-138 | the in-place loop leaves the array equal to the repaired plan of its old contents |
| `Planner.BuildPlan` | internal/planner/planner.go:104-140 | API error, no choices and JSON error each give their error; otherwise exactly the repaired plan of the decoded steps |
| `Planner.KnownModesCanonical` | internal/planner/planner.go:13-16 | both mode names are already trimmed and lower case |
| `Planner.NormalizeStepIdempotent` | internal/planner/planner.go:121-138 | normalising a normalised step changes nothing |
| `Planner.NormalizedIdempotent` | internal/planner/planner.go:121-138 | normalising a normalised plan changes nothing |
| `Reason.HumanizeReason` | internal/agent/reason.go:3-18 | the five known exit reasons get their explanation, any other text is returned unchanged (the same switch is at agent.go:399-414) |
| `Reason.ExplanationsNotReasons` | internal/agent/reason.go:3-18 | no explanation is itself a known reason |
| `Reason.HumanizeIdempotent` | internal/agent/reason.go:3-18 | humanizing twice is humanizing once |
| `AgentActions.ConfirmDestructiveAction` | internal/agent/actions.go:169-205 | the read loop returns the answer the confirmation specification gives for the terminal (the same code is at agent.go:361-397) |
| `AgentActions.Classify` | internal/agent/actions.go:191-201 | definition: the trimmed, lower-cased line approves for y, yes or д, denies for n, no, н or nothing, and is unclear otherwise |
| `AgentActions.ConfirmedFrom` | internal/agent/actions.go:184-204 | definition: the verdict of the first clear line from `i` on, a refusal when the lines run out |
| `AgentActions.Confirmed` | internal/agent/actions.go:174-204 | definition: a terminal is present and its lines give approval |
| `AgentActions.ConfirmedFromMeans` | internal/agent/actions.go:184-204 | approved iff some line says yes and every earlier line was neither yes nor no |
| `AgentActions.ConfirmedMeans` | internal/agent/actions.go:174-204 | without a terminal never approved; with one, approved iff the first clear answer is yes |
| `AgentActions.GateOf` | internal/agent/actions.go:19-39 | scroll first; then no target, declined destructive, unknown handle, each exactly in its case; otherwise the handle's backend id |
| `AgentActions.NotFound` | internal/agent/actions.go:39 | the message names the missing handle |
| `AgentActions.Outcome` | internal/agent/actions.go:19-165 | definition: the error `executeAction` returns once the guards decided: the scroll's result; none without a target or after a refusal; "not found" for an unknown handle; the browser call's result for click and type, and none for any other type |
| `AgentActions.ExecuteAction` | internal/agent/actions.go:18-167 | the gate taken, whether the user was asked (exactly for destructive targeted actions), and the error of that gate (the same code is at agent.go:210-359) |
| `OpenAIClient.ValidateAction` | internal/llm/openai_client.go:124-132 | only the type changes, to a valid one; click or type without a target becomes scroll, unknown types become scroll |
| `OpenAIClient.ValidateIdempotent` | internal/llm/openai_client.go:124-132 | validating twice is validating once |
| `OpenAIClient.Interpret` | internal/llm/openai_client.go:113-134 | no choices and JSON errors are errors; a success is the decoded decision with its action validated |
| `OpenAIClient.DecideAction` | internal/llm/openai_client.go:88-134 | attempts made, a 5-second pause per rate-limited attempt, and the result of the settling attempt or the last error |
| `DecisionClient.NormalizeActionType` | internal/llm/decision.go:86-99 | only the type changes; the four known names match without regard to case, anything else becomes scroll |
| `DecisionClient.KindsLowerCase` | internal/llm/decision.go:87-95 | the four type names are their own lower case |
| `DecisionClient.NormalizeIdempotent` | internal/llm/decision.go:86-99 | normalising twice is normalising once |
| `DecisionClient.NormalizeIgnoresTarget` | internal/llm/decision.go:86-99 | the target handle has no influence on the type chosen |
| `DecisionClient.TruncateDom` | internal/llm/decision.go:24-27 | a short tree is kept; a long one is its first `limit` characters followed by the truncation marker |
| `DecisionClient.Backoff` | internal/llm/decision.go:65 | every pause is at least 3 seconds |
| `DecisionClient.BackoffValues` | internal/llm/decision.go:65 | the pauses are 3, 6, 12, 24 and 48 seconds |
| `LlmTypes.FirstSettled` | internal/llm/decision.go:46-69 | the first attempt whose reply is not a rate-limit error, or the limit when all are; the same loop shape is at openai_client.go:90-109, with three attempts |
| `LlmTypes.RateLimited` | internal/llm/decision.go:64 | definition: an API error whose text mentions 429 (openai_client.go applies the same test) |
| `DecisionClient.Interpret` | internal/llm/decision.go:71-83 | no choices is an error and a decode error is returned; a success is exactly the decoded first choice, backticks trimmed, with its action type normalised, and so of a known type |
| `DecisionClient.DecideAction` | internal/llm/decision.go:43-83 | attempts made, doubling pauses, and the result of the settling attempt |
| `DecisionClient.AllRateLimitedIsError` | internal/llm/decision.go:46-73 | five rate-limited attempts end in "no choices", not in the rate-limit error |
| `Agent.LeadingDigits` | internal/agent/agent.go:440 | the length of the leading run of decimal digits |
| `Agent.ScanInt` | internal/agent/agent.go:439-443 | definition of `%d` scanning: an optional sign and at least one leading digit, failing when the value does not fit 64 bits |
| `Agent.Fit` | internal/agent/agent.go:439-440 | a value is accepted exactly when it fits a 64-bit int |
| `Agent.ScanIntRoundTrip` | internal/agent/agent.go:439-443 | `%d` scanning reads back every 64-bit integer it printed |
| `Agent.CountRoundTrip` | internal/agent/agent.go:436-443 | a printed count survives trimming and scanning |
| `Agent.TallyGrows` | internal/agent/agent.go:432-450 | the tally never removes or lowers an entry, and adds only non-empty names with a positive count |
| `Agent.MentionsCart` | internal/agent/agent.go:422-429 | definition: the lower-cased observation mentions cart or sepet, or the lower-cased URL mentions /sepet |
| `Agent.Tally` | internal/agent/agent.go:431-450 | definition: the matches added one after another to the map |
| `Agent.CartUpdate` | internal/agent/agent.go:418-451 | definition: the tally of the matches when the observation is about the cart, otherwise the map unchanged |
| `Agent.AddCartMatch` | internal/agent/agent.go:433-449 | one regex match adds its count to its name as `AddMatch` says |
| `Agent.RecordCount` | internal/agent/agent.go:441-449 | a count that failed to scan, is not positive, or has an empty name is skipped |
| `Agent.TallyMatches` | internal/agent/agent.go:432-450 | the loop over the matches adds them in order, as `Tally` says |
| `Agent.ExtractCartItems` | internal/agent/agent.go:418-451 | a nil map stays nil; otherwise the tally of all matches when the text or URL mentions the cart |
| `Agent.RuleAfterNothing` | internal/agent/runner.go:30 | with an empty memory the runner's step rule is the single agent's |
| `Agent.ExitOf` | internal/agent/agent.go:112-207 | definition: Ctrl+C, snapshot and decision failures and a finish give their report reason and error, the finish no error |
| `Agent.EventAt` | internal/agent/agent.go:101-196 | definition: a Ctrl+C stops, otherwise the step's own event |
| `Agent.StepEvent` | internal/agent/agent.go:112-194 | definition: a snapshot failure, then a decision failure, otherwise what `Decided` gives |
| `Agent.Decided` | internal/agent/agent.go:171-194 | definition: blocked when `BlockedAfter` the keys with threshold 3, else finished on a finish, else executed with the error of the gated action |
| `Agent.RunStep` | internal/agent/agent.go:101-194 | one iteration gives the event `EventAt` says, records exactly the key of an action executed without error, and sets the loop flag exactly when the action was blocked |
| `Agent.Act` | internal/agent/agent.go:171-194 | blocked, finished or executed as `Decided` says; the loop flag is set exactly on a block; the snapshot is kept only after a success |
| `Agent.Observe` | internal/agent/agent.go:118-194 | after a snapshot: a failed decision is the step's error; otherwise the event `Decided` gives; the keys grow only by an executed action, the loop flag is set exactly on a block, and the cart is updated by the observation |
| `Agent.Execute` | internal/agent/agent.go:187-194 | the error of the gated action; a success is recorded |
| `Agent.Advance` | internal/agent/agent.go:101-196 | one iteration extends the trace by the event its step gives, keeps the trace following the step rule, records its key, and sets the loop flag exactly on a block |
| `Agent.Steps` | internal/agent/agent.go:101-196 | the loop stops at the first event that ends the run, or after exactly `maxSteps` steps; the trace follows the step rule; the cart is the tally of the steps taken; the loop flag is set iff some step was blocked |
| `Agent.AnyBlockedAppend` | internal/agent/agent.go:171-178 | a trace has a blocked step after one more event iff it had one before or the new event is a block |
| `Agent.Run` | internal/agent/agent.go:31-208 | the trace follows `EventAt`; only its last event can end the run; the exit is that event's, or max steps after exactly `maxSteps` steps; the exit reason is a known one; success iff the trace ends in a finish; the cart is the tally of the steps taken |
| `Agent.ExecutedAllowed` | internal/agent/agent.go:171-191 | an executed action was allowed by the guard and is not a finish |
| `Agent.WorldGuarded` | internal/agent/agent.go:171-191 | every world's step rule only records actions the guard allowed |
| `Agent.AllowedKeepsUnique` | internal/agent/agent.go:171-191 | recording an allowed action keeps every transition at most once in the history |
| `Agent.UniqueUnder` | internal/agent/agent.go:171-191 | under a guarded rule no transition is ever recorded twice |
| `Agent.NoFinishUnder` | internal/agent/agent.go:181-191 | under a guarded rule no finish is ever recorded |
| `Agent.NoRepeatedTransition` | internal/agent/agent.go:171-191 | in any run, every pair of consecutive recorded actions occurs at most once and no finish is recorded |
| `Agent.FinishHonoured` | internal/agent/agent.go:171-185 | a finish proposed with a good snapshot and decision always ends the run as finished |
| `Agent.CartPositive` | internal/agent/agent.go:439-449 | every cart entry has a non-empty name and a positive count |
| `Agent.CartGrows` | internal/agent/agent.go:139 | the cart never loses or lowers an entry from one step to the next |
| `Runner.StepError` | internal/agent/step_execution.go:19-39 | a step reports an error exactly when its snapshot or decision failed |
| `Runner.Runner.constructor` | internal/agent/runner.go:25-34 | a fresh memory with a 10-line window and threshold 3, with no lines, no keys and the loop flag cleared, and no previous snapshot |
| `Runner.Runner.ExecuteStep` | internal/agent/step_execution.go:16-74 | the step does what `StepEvent` says; finished only by a finish; records only a successful action; keeps the snapshot exactly when an action was attempted; sets the loop flag exactly on a block |
| `Runner.Runner.Observe` | internal/agent/step_execution.go:24-55 | after a snapshot: a failed decision is the step's error; otherwise the guard, finish and execution as `Decided` says, with the loop flag set exactly on a block |
| `Runner.Runner.Proceed` | internal/agent/step_execution.go:43-73 | blocked, finished or executed as `Decided` says; the loop flag is set exactly on a block; the snapshot is kept after every attempted action |
| `Runner.Runner.Perform` | internal/agent/step_execution.go:57-71 | the error of the gated action; success is recorded; the snapshot is kept either way |
| `Runner.Runner.Next` | internal/agent/runner.go:40-55 | one iteration extends the trace by one event that follows the step rule after the prior keys; it reports finished exactly on a finish; the loop flag is set exactly on a block |
| `Runner.Runner.Run` | internal/agent/runner.go:36-61 | the trace follows the step rule from the memory's prior keys; step errors do not stop the run; Ctrl+C gives "execution interrupted", a finish success, otherwise "max steps reached" after exactly `maxSteps` steps; the loop flag ends set iff it was set or some step was blocked |
| `Runner.Runner.StopAppend` | internal/agent/runner.go:41-45 | a Ctrl+C event follows the step rule and changes neither the recorded keys nor whether some step was blocked |
| `Orchestrator.EffectiveMode` | internal/agent/orchestrator.go:108-114 | interaction iff the step is interaction, or navigation under an open dialog; the only change is navigation to interaction |
| `Orchestrator.SubAgentFor` | internal/agent/orchestrator.go:125-130 | the interaction sub-agent iff the mode is interaction |
| `Orchestrator.DialogSelectsInteraction` | internal/agent/orchestrator.go:108-130 | under an open dialog every plan step goes to the interaction sub-agent |
| `Orchestrator.NoDialogKeepsMode` | internal/agent/orchestrator.go:108-114 | without a dialog the plan step's mode is used unchanged |
| `Orchestrator.Dispatch` | internal/agent/orchestrator.go:202-241 | per type: click fails iff scrolling or clicking fails; type iff filling or the requested Enter fails; navigate as the page load; finish never; other types give "unknown action type" |
| `Orchestrator.DispatchKnownTypes` | internal/agent/orchestrator.go:210-240 | only the four known types can succeed; a scroll proposal is rejected as unknown |
| `Orchestrator.DispatchUsesOwnCalls` | internal/agent/orchestrator.go:210-240 | the result depends only on the browser calls the action's type makes |
| `Orchestrator.Skip` | internal/agent/orchestrator.go:155-175 | a block adds one to its plan step's count and to no other; below 2 the cursor stays; at 2 it moves on, or the run succeeds when no plan step is left |
| `Orchestrator.HasDialog` | internal/agent/orchestrator.go:108-109 | definition: the tree contains the dialog context attribute or the active-dialog banner |
| `Orchestrator.TurnAt` | internal/agent/orchestrator.go:87-193 | definition of one iteration: a snapshot failure stops with its error; a cursor past the plan stops with success; a sub-agent failure stops with its error; otherwise as `Respond` says |
| `Orchestrator.Respond` | internal/agent/orchestrator.go:146-193 | definition: a block is handled as `Skip` says; a finish stops with success; a failed execution continues unchanged; a success records the key and advances the cursor iff the step is done |
| `Orchestrator.Outcome` | internal/agent/orchestrator.go:78-199 | definition: the first stopping iteration's error, or "max steps reached" after the last step |
| `Orchestrator.RunOutcome` | internal/agent/orchestrator.go:63-199 | definition: the plan error, or the outcome from step 1 with a fresh state |
| `Orchestrator.TurnKeepsSound` | internal/agent/orchestrator.go:78-199 | each iteration keeps the cursor within the plan, moves it by 0 or 1, only appends an allowed action to the memory, never records a finish, and leaves other steps' block counts alone |
| `Orchestrator.FailedExecutionKeepsProgress` | internal/agent/orchestrator.go:183-193 | a failed execution leaves cursor, block counts and memory unchanged |
| `Orchestrator.FinishSucceeds` | internal/agent/orchestrator.go:146-181 | a finish proposal is never blocked and ends the run with success, without execution |
| `Orchestrator.ExhaustedPlanSucceeds` | internal/agent/orchestrator.go:100-103 | once the cursor is past the plan, the next step with a snapshot succeeds |
| `Orchestrator.StopForms` | internal/agent/orchestrator.go:87-199 | an iteration that ends the run ends it with success or with the snapshot or sub-agent error of its own step |
| `Orchestrator.ContinueForms` | internal/agent/orchestrator.go:78-199 | an iteration that goes on hands the run's outcome to the next step unchanged |
| `Orchestrator.OutcomeForms` | internal/agent/orchestrator.go:78-199 | a run ends in success, in a snapshot or sub-agent error of one of its steps, or in "max steps reached" |
| `Orchestrator.LastStepCompletionFails` | internal/agent/orchestrator.go:189-199 | a plan completed by the last allowed step still ends in "max steps reached" |
| `Orchestrator.NoStepsNoSuccess` | internal/agent/orchestrator.go:78-199 | with fewer than one step allowed, a planned run fails with "max steps reached" |
| `Orchestrator.Execute` | internal/agent/orchestrator.go:183-193 | a successful action is recorded and advances the cursor iff its step is done; a failure changes neither |
| `Orchestrator.NoteBlock` | internal/agent/orchestrator.go:149-166 | a block sets the loop flag and leaves the memory's keys alone |
| `Orchestrator.Block` | internal/agent/orchestrator.go:146-176 | the block is handled as `Skip` says, without recording anything |
| `Orchestrator.Guarded` | internal/agent/orchestrator.go:146-193 | guard, finish and execution as `Respond` says; a stop here is always a success; the loop flag is set exactly when the action is blocked |
| `Orchestrator.Iteration` | internal/agent/orchestrator.go:87-193 | one iteration does what `TurnAt` says, with its error |
| `Orchestrator.Next` | internal/agent/orchestrator.go:78-199 | one iteration keeps the state sound; a stop returns the run's outcome, otherwise the outcome from the next step is the same |
| `Orchestrator.Run` | internal/agent/orchestrator.go:37-200 | the error is `RunOutcome`: the planner's error, or the outcome of the iterations from cursor 0 with no actions recorded |

## Behaviours of the code worth knowing

The following behaviours follow from the code as written. No comment in the source explains them. The model follows the code in each case.

- **The no-effect note.** The code adds the note whenever the tree is unchanged (agent.go:118-120, step_execution.go:24-26). This includes the steps after a scroll or a targetless action, which need not change the tree.
- **The repeat counter** is consecutive. A key that has run `loopThreshold` times in a row is blocked. One different action in between lets it through again (`LoopGuard.RepeatResetByNewKey`). Only the pattern rule then remembers it.
- **A declined destructive action** returns no error in the code (actions.go:31-35). The single-agent loop therefore records it and leaves a state note as if it had run, instead of an error note.
- **Snapshot and decision failures** end the single-agent loop and the orchestrator. The runner only reports them and continues (runner.go:46-49).
- **The orchestrator cannot scroll.** Its `executeAction` treats `scroll_down` as an unknown type (orchestrator.go:238-239).
- **The decision client cannot propose `navigate`.** Its normaliser turns `navigate` into a scroll (decision.go:86-99).

## Left out

- Browser driving is an oracle returning ok or an error. This covers chromedp and playwright calls, the screenshot and base64, node resolution, the embedded JavaScript helpers, `highlight`, waiting for the network to go idle, and the scroll the loop guard triggers after a block.
- The language model, the planner service, prompt assembly, the sub-agents' prompts (subagents.go, env.go, prompts.go) and the run summary are left out. Decisions, sub-agent proposals and plans arrive as oracles indexed by the step number. So the history text given to the model has no effect on the model's answers.
- JSON decoding is an oracle parameter `decode`. The cart regular expression is an oracle `matches` giving the submatches.
- `Agent.ExtractCartItems`: `fmt.Sscanf` is modelled for a token that is already trimmed: an optional sign, then leading decimal digits, with 64-bit overflow an error, which is what the `%d` verb accepts.
- `Agent.ExtractCartItems`: the addition into the cart map is unbounded; Go's 64-bit wrap-around on overflow is not modelled.
- Console output, `printReport`, the run report lines, the Reporter and `log` calls are left out.
- The text of notes added to the memory is not stated in the loop methods' contracts. Only the key history is. The notes are written as the code writes them.
- Ctrl+C is an oracle checked at the top of each iteration. `time.Sleep` pacing and signal plumbing are left out.
- `normalizeURL` (orchestrator.go:255-272) relies on Go's `net/url` reference resolution (section 5.2 of RFC 3986). The navigate call is an oracle, so that resolution is not modelled.
- The `float64` branch of `axValueString` (snapshot.go:194-195) is left out because it is floating point. Accessibility values are strings or booleans.
- Lengths are counted in Unicode code points, not UTF-8 bytes. This affects `CleanName`'s 80-character cut and `TruncateDom`.
- `Text.Quote`: `strconv.Quote`'s escapes are modelled: quote, backslash, the seven C escapes, `\x`, `\u` and `\U`. Go's `unicode.IsPrint` is exact up to U+00FF. Above that, `Text.IsPrint` treats only white space, format and control blocks, private use, non-characters and planes 15 and 16 as unprintable. Other unassigned or format code points are written raw where Go would escape them. Text is a sequence of code points, so the `\x` escapes Go writes for invalid UTF-8 bytes are not modelled.
- `LoopGuard.MakeKey`: keys are counted as tuples, not as the text Go builds from them. Go counts patterns by their `->`-joined key text (memory.go:78). Two different windows can share that text when a URL or action type contains `|` or `>`, and Go would then merge them. `LoopGuard.PatternStringInjective` proves the two views agree when no key has those characters, and `LoopGuard.PatternStringCollides` exhibits a pair of windows for which they differ.
- `Text.ToLower`, `Text.ToUpper`: the case mapping covers ASCII and Cyrillic letters only.
- `safeDOMLimit` is not part of this model's source. It is the parameter `limit` of `DecisionClient.TruncateDom`.
- internal/llm/types.go is an older shape of the action record: its `TargetID` is a string, and it has no scroll type but a `read_content` type that no core file handles. The model follows the shape the core files use: an integer target, destructive flag and submit flag. The values of the type constants `click`, `type`, `scroll_down` and `finish` are those of `normalizeActionType`'s mapping (decision.go:87-97). `navigate` is the value types.go:11 gives.
- Live end-to-end tests and the command-line entry point are left out.
