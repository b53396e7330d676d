# futureprep coaching core, modelled in Dafny

futureprep is an AI tutoring web application. A user picks a coaching option
(Topic Lecture, Mock Interview, Ques Ans Prep, …) and a topic, talks to an
assistant turn by turn, and can later ask for a summary of the session. This
project models the logic behind that and proves properties of it:

- **`AIModel`** (services/GlobalServices.jsx). It handles one dialogue turn.
  It keeps a module-level map of conversation contexts, keyed by
  `topic_coachingOption`. For Topic Lecture it moves each context through the
  stages `initial → overview → keypoints → discussion`; other options use an
  opening/follow-up prompt. It calls the language model through
  `generateCompleteResponse`, a loop that asks again, with a retry note and a
  larger token budget, while the answer looks cut off. Around that sit
  `isResponseIncomplete`, `normalizeResponseLength` and
  `resetConversationContext`.
- **`AIModelToGenerateFeedbackAndNotes`** (same file). It validates its
  input, filters the transcript, asks the model for a summary at most twice,
  formats the answer, and turns every failure into a fixed report.
- **`CreateUser` and `UpdateUserToken`** (convex/users.js). They are the
  find-or-insert and the partial patch on the `users` table.
- **The route gate** (middleware.jsx). It decides pass or redirect to sign-in
  from the path and the authentication result, and only runs on paths
  matching `/dashboard/:path*`.

The language model is an oracle. A `Chat.ChatBackend` object holds a script
of replies (`Answered(text)` or `Fails`, where `Fails` is an exception from the
client) and logs every request it receives. An exhausted script answers
`Fails`.

Each part takes the form its source has:

- The string helpers, the middleware and the table operations' specifications
  are pure functions with lemmas.
- The per-turn mutation of a context is a `SessionContext` class. Its methods
  assign the fields in the order the source does, so an exception from the
  model leaves the assignments made before it.
- The map of contexts is a class holding a `map<string, SessionContext>`.
  One context object can be seen both through the map and by the handler.
- Both retry loops are `while` loops proved against recursive specification
  functions.
- The `users` table is a class.

Every state-changing method is tied by its `ensures` to a pure function of
the old state: `Dialogue.Turn`, `Generation.Generate`,
`Summary.FeedbackAndNotes`, `Users.Create`, `Users.Update`. The lemmas state
the source's promises about those functions.

Modules, in dependency order:

- `Wrappers`
- `Strings` (JavaScript `trim`, `split`, `join`, `startsWith`, ASCII `toLowerCase`)
- `Chat` (messages, symbolic prompts, the backend)
- `ResponseText` (`isResponseIncomplete`, `normalizeResponseLength`, formatting removal)
- `Generation` (`generateCompleteResponse`)
- `Dialogue` (the turn as a function of the context map)
- `Conversation` (the classes)
- `Summary`
- `Users`
- `Middleware`

What the code does at a few points where a reader might expect otherwise:

- `generateCompleteResponse` makes at most two calls: `MAX_ATTEMPTS` is 2 (services/GlobalServices.jsx:235), and each loop iteration makes one call.
- The accepted sentence endings are exactly `. ! ? " : )` (services/GlobalServices.jsx:40).
- In `overview` the stage is set to `keypoints` (services/GlobalServices.jsx:306) before the key-point request is sent (services/GlobalServices.jsx:309). When that request throws, the stored context has moved on without new key points. `Dialogue.OverviewListFailure` states this.
- The capped reply (services/GlobalServices.jsx:456) is not trimmed again before `endsWith('?')` is tested (services/GlobalServices.jsx:459). A reply whose last kept line ends in `? ` is therefore not recorded as a question. `Dialogue.CappedQuestionNotRecorded` states this.

## Model

| member | source | states |
|---|---|---|
| ResponseText.IncompleteIffNoTerminator | services/GlobalServices.jsx:34-54 | a text counts as incomplete exactly when it is empty or blank, or its trimmed form does not end in `. ! ? " : )`; the stop-phrase test never changes the outcome |
| ResponseText.IncompletePhraseHasNoProperEnding | services/GlobalServices.jsx:44-51 | every listed cut-off ending ends in a letter, so a text ending in one has no proper terminator |
| ResponseText.ProperEndingIsTerminator | services/GlobalServices.jsx:39-41 | `properTerminators.includes(lastChar)` holds exactly when the text is non-empty and its last character is one of the six terminators |
| ResponseText.NormalizeKeepsLeadingLines | services/GlobalServices.jsx:57-71 | the non-blank lines of the normalized text are exactly the input's first 12 (lecture) or 8 non-blank lines, all of them when there are fewer |
| ResponseText.NormalizeBoundsLines | services/GlobalServices.jsx:62-70 | a normalized text never has more non-blank lines than the target |
| ResponseText.NormalizeIdempotent | services/GlobalServices.jsx:57-71 | normalizing twice is normalizing once |
| ResponseText.NormalizeEmptyOnlyForEmpty | services/GlobalServices.jsx:58-70 | the result is empty exactly for the empty input |
| ResponseText.ContentOnly | services/GlobalServices.jsx:63 | a line is kept exactly when it is a non-blank line of the input |
| ResponseText.ContentOnlyConcat | services/GlobalServices.jsx:63 | the filter works line by line, so the kept lines keep their order and repetitions |
| ResponseText.ContentOnlyLine | services/GlobalServices.jsx:63 | a single line is kept exactly when it is non-blank |
| ResponseText.ContentOnlyKeepsContent | services/GlobalServices.jsx:63 | filtering lines that are all non-blank keeps every one |
| ResponseText.StripFormatting | services/GlobalServices.jsx:433 | `replace(/[#*\-_]/g, '')` leaves no `# * - _` and never lengthens the text |
| ResponseText.StripFormattingChar | services/GlobalServices.jsx:433 | one character is deleted when it is `# * - _` and kept otherwise; with `StripFormattingConcat` this fixes the result for every text |
| ResponseText.StripFormattingConcat | services/GlobalServices.jsx:433 | removal distributes over concatenation, so the kept characters stay in order |
| ResponseText.StripFormattingFixed | services/GlobalServices.jsx:433 | removal leaves a text unchanged exactly when it has no formatting character |
| ResponseText.CleanResponseShape | services/GlobalServices.jsx:445-447 | the cleaned reply has no formatting character, no surrounding white space, and is empty exactly when only formatting and white space were there |
| ResponseText.NormalizeKeepsNoFormatting | services/GlobalServices.jsx:456 | capping the lines of a formatting-free text keeps it formatting-free |
| Generation.GenerateCompleteResponse | services/GlobalServices.jsx:239-270 | the loop returns what `Generate` says, sends exactly its requests, in order, and consumes exactly its replies |
| Generation.GenerateShape | services/GlobalServices.jsx:243-266 | at most one call per attempt left, at least one when any is left, and the replies used are the ones consumed |
| Generation.GenerateRequests | services/GlobalServices.jsx:244-265 | the k-th call carries the original messages plus k retry notes, and a budget raised by 100·k |
| Generation.GenerateRetriesOnlyIncomplete | services/GlobalServices.jsx:251-257 | every reply before the last one was an answer judged incomplete |
| Generation.GenerateReturnsLastReply | services/GlobalServices.jsx:251-269 | the result is the last reply, or the exception it was; the loop stops early only on a complete answer |
| Generation.IncompleteRepliesExhaustAttempts | services/GlobalServices.jsx:235-269 | a model that always answers cut-off text is asked exactly twice, and the second answer is returned |
| Generation.CompleteFirstReplyStops | services/GlobalServices.jsx:254-256 | a complete first answer is returned after one call with the request as given |
| Chat.FindOption | services/GlobalServices.jsx:82 | `find` gives the first entry with that name, or none when no entry has it |
| Chat.ChatBackend.Create | services/GlobalServices.jsx:244-249 | one call logs its request and consumes exactly one reply |
| Dialogue.SilentTurns | services/GlobalServices.jsx:90-116 | `AIModel` returns `null` exactly when a known option is given and the user is mid-response, or a question is pending and the message is blank; then nothing is sent and the map is untouched |
| Dialogue.MissingOptionReplies | services/GlobalServices.jsx:74-88 | no option, or one missing from the catalogue, gets its fixed reply; nothing is sent and the map is unchanged |
| Dialogue.LastUserMessageIsLast | services/GlobalServices.jsx:91-95 | the last user message is the content of a `user` entry that has no `user` entry after it, or `""` when there is none |
| Dialogue.TurnTouchesOnlyItsKey | services/GlobalServices.jsx:104-111 | a turn changes only the entry under `topic_coachingOption` |
| Dialogue.ExceptionKeepsEarlierMutations | services/GlobalServices.jsx:468-474 | an exception gives the apology; a context taken from the map keeps the fields changed before the exception, and a fresh one is dropped |
| Dialogue.RepliedTurnRecordsQuestion | services/GlobalServices.jsx:456-466 | on success the reply is the normalized text, and `askedQuestion`/`lastQuestion` say whether it ends in `?` |
| Dialogue.LectureStageMonotone | services/GlobalServices.jsx:274-418 | the lecture stage moves forward by at most one place per turn and never leaves `discussion` |
| Dialogue.InitialAdvancesOnFallback | services/GlobalServices.jsx:275-290 | `initial` sends exactly the introduction request with 800 tokens; a non-empty answer is the reply, an empty one gives the fallback introduction, and either moves the stage to `overview`; an exception leaves the context as it was |
| Dialogue.OverviewYieldsKeyPoints | services/GlobalServices.jsx:292-336 | a completed overview turn leaves the lecture at `keypoints` with a non-empty list of non-blank key points that each hold `:` |
| Dialogue.OverviewListFailure | services/GlobalServices.jsx:292-320 | for any model behaviour where the overview request is answered and the following 400-token key-point request throws, the turn fails with the stage already `keypoints`, the old key points kept, and both requests sent |
| Dialogue.OverviewListFailureOccurs | services/GlobalServices.jsx:306-320 | such a failure happens: a complete overview followed by an exception gives exactly that state after two requests |
| Dialogue.EmptyKeyPointsCloseLecture | services/GlobalServices.jsx:338-366 | with no key points, the next lecture turn gives the closing text and moves to `discussion` without any call |
| Dialogue.KeyPointCursor | services/GlobalServices.jsx:338-366 | inside the list, a successful turn moves `currentPoint` by exactly one; at the end the lecture moves to `discussion` |
| Dialogue.FallbackKeyPointsUsable | services/GlobalServices.jsx:327-335 | the four fallback key points are non-blank and each holds `:` |
| Dialogue.ParseKeyPoints | services/GlobalServices.jsx:322-325 | a line of the model's list is a key point exactly when it is non-blank and holds `:` |
| Dialogue.KeyPointLinesConcat | services/GlobalServices.jsx:323-325 | the key-point filter works line by line, keeping order and repetitions |
| Dialogue.KeyPointLinesLine | services/GlobalServices.jsx:323-325 | a single line is kept exactly when it is non-blank and holds `:` |
| Dialogue.StepKeepsConsistent | services/GlobalServices.jsx:273-453 | every stage handler keeps `currentPoint <= keyPoints.length`, whatever the model does |
| Dialogue.TurnKeepsConsistent | services/GlobalServices.jsx:73-475 | the whole map stays consistent across turns |
| Dialogue.CoachingPrompt | services/GlobalServices.jsx:419-442 | outside the lecture the prompt is `follow_up` exactly when a question was asked, with 200 tokens instead of 150; the context is not changed |
| Dialogue.Relayed | services/GlobalServices.jsx:431-434 | the messages are passed on one for one and in order, each with its role and with content free of `# * - _` and no longer than before |
| Dialogue.RelayedKeepsPlainMessages | services/GlobalServices.jsx:431-434 | a message without formatting characters is passed on unchanged |
| Dialogue.CoachingReplyClean | services/GlobalServices.jsx:444-452 | outside the lecture the handler fails exactly when the model call throws; otherwise its text is the reply with `# * - _` removed and trimmed when that is non-empty, and the neutral prompt when it is empty; either way the text is clean |
| Dialogue.CoachingEmptyReplyFallsBack | services/GlobalServices.jsx:449-452 | a reply with nothing left after cleaning gives way to the neutral prompt |
| Dialogue.CoachingTurnReplyClean | services/GlobalServices.jsx:419-466 | a non-lecture reply is non-empty and free of `# * - _` after the line cap |
| Dialogue.SourceElaborateClean | services/GlobalServices.jsx:451 | the neutral prompt meets that condition |
| Dialogue.ResetStartsAfresh | services/GlobalServices.jsx:478-481 | after a reset the key is gone, the other entries are untouched, and the next turn answers as on an empty map |
| Dialogue.ContextKeyCollides | services/GlobalServices.jsx:104 | two different topic/option pairs can share one context key |
| Dialogue.CappedQuestionNotRecorded | services/GlobalServices.jsx:456-460 | a clean reply of more than eight lines whose eighth ends in `? ` is capped to a text ending in a blank, so `askedQuestion` is false |
| Conversation.SessionContext.LectureTurn | services/GlobalServices.jsx:273-418 | the lecture `switch` changes the context fields and the backend exactly as `LectureStep` says |
| Conversation.SessionContext.InitialTurn | services/GlobalServices.jsx:275-290 | `case 'initial'` as `InitialStep` |
| Conversation.SessionContext.OverviewTurn | services/GlobalServices.jsx:292-336 | `case 'overview'` as `OverviewStep`, with the stage assigned before the key points are asked for |
| Conversation.SessionContext.KeyPointTurn | services/GlobalServices.jsx:338-367 | `case 'keypoints'` as `KeyPointStep` |
| Conversation.SessionContext.DiscussionTurn | services/GlobalServices.jsx:369-417 | `case 'discussion'` as `DiscussionStep`, with no field changed |
| Conversation.SessionContext.CoachingTurn | services/GlobalServices.jsx:419-453 | the other options' branch as `CoachingStep`, with no field changed |
| Conversation.SessionContext.Handle | services/GlobalServices.jsx:236-453 | the branch the option selects, as `StepFor` |
| Conversation.SessionContext.RecordResponse | services/GlobalServices.jsx:459-460 | `askedQuestion` and `lastQuestion` set from the final response |
| Conversation.ConversationService.AIModel | services/GlobalServices.jsx:73-475 | one call leaves the reply, the context map and the backend as `Turn` says, and keeps the map injective |
| Conversation.ConversationService.Lookup | services/GlobalServices.jsx:105-111 | the stored context object, or a fresh one holding the initial context |
| Conversation.ConversationService.Respond | services/GlobalServices.jsx:272-474 | the handler is run on the context, and the response is recorded and `set` only on success |
| Conversation.ConversationService.File | services/GlobalServices.jsx:456-461 | the normalized response is recorded and the context filed under its key; the other entries are unchanged |
| Conversation.ConversationService.ResetConversationContext | services/GlobalServices.jsx:478-481 | only that key is deleted |
| Summary.AIModelToGenerateFeedbackAndNotes | services/GlobalServices.jsx:483-619 | the call returns the message, sends the requests and consumes the replies that `FeedbackAndNotes` says |
| Summary.Summarize | services/GlobalServices.jsx:532-560 | the summary loop returns what `SummaryLoop` says, sends exactly its requests and consumes its replies |
| Summary.SummaryLoopRequests | services/GlobalServices.jsx:535-560 | between one call and one per attempt left, all with the same request |
| Summary.SummaryLoopReturnsLastReply | services/GlobalServices.jsx:553-560 | the result is the last reply obtained, or the exception it was |
| Summary.SummaryLoopStopsOnComplete | services/GlobalServices.jsx:555-557 | the loop stops early only on a complete answer |
| Summary.AnalysableMessages | services/GlobalServices.jsx:496-501 | a message is kept exactly when it appears in the conversation, is not a system message, and is not blank |
| Summary.AnalysableMessagesConcat | services/GlobalServices.jsx:496-501 | the filter works message by message, so the transcript keeps the order and count of the kept messages |
| Summary.AnalysableMessage | services/GlobalServices.jsx:496-501 | a single message is kept exactly when it is analysable |
| Summary.FeedbackIsAssistantReport | services/GlobalServices.jsx:483-619 | the call never throws; it returns an assistant message that is one of the two fixed reports or a formatted non-empty answer, never empty when the reports are not |
| Summary.SourceReportsNonEmpty | services/GlobalServices.jsx:566-576 | the source's fixed reports are non-empty |
| Summary.BlankConversationGetsErrorReport | services/GlobalServices.jsx:486-506 | an empty conversation, or one of system and blank messages only, gets the error report without any call |
| Summary.MissingSummaryPromptGetsErrorReport | services/GlobalServices.jsx:490-493 | an unknown option, or one without `summeryPrompt`, gets the error report without any call |
| Summary.SummaryCalls | services/GlobalServices.jsx:509-560 | a valid call asks once or twice with the prompt naming the option and the message count, the filtered transcript, and 600 tokens; an exception gives the error report; a second call follows only an incomplete first answer |
| Summary.CompleteSummaryIsFormatted | services/GlobalServices.jsx:555-597 | a complete first answer is formatted after one call |
| Summary.FormattedLines | services/GlobalServices.jsx:581-592 | the lines of the formatted body correspond one to one to the answer's lines, each numbered line behind `### ` |
| Users.CreateRejectsBlank | convex/users.js:11-17 | a blank name, then a blank email, is an error and leaves the table untouched |
| Users.CreateInsertsNewUser | convex/users.js:21-39 | with no record of the trimmed email, exactly one record is appended: trimmed name and email, 50000 credits, a fresh id; it is returned |
| Users.CreateReturnsExisting | convex/users.js:21-43 | with a record of the trimmed email, the earliest such record is returned as stored and nothing is inserted; the name is not updated |
| Users.CreateTwiceReturnsSameUser | convex/users.js:21-43 | asking again for the same trimmed email, under any name, returns the same record and changes nothing, so no duplicate is ever created |
| Users.CreateKeepsInvariants | convex/users.js:21-39 | ids stay distinct and one record per email is kept |
| Users.WithEmail | convex/users.js:21-22 | the query keeps exactly the records whose email equals the trimmed email, case-sensitively |
| Users.FirstMatchIsEarliest | convex/users.js:43 | `userData[0]` is the earliest record with that email |
| Users.TokenPatch | convex/users.js:54-60 | `patchData` has the new credit, and a subscription id exactly when the order id is non-empty |
| Users.UpdateChangesOneRecord | convex/users.js:53-64 | the record with that id gets the new credit, and a new subscription id only for a non-empty order id; every other field and every other record is unchanged; an unknown id changes nothing |
| Users.CreateUser | convex/users.js:9-44 | the mutation does what `Create` says and keeps the table valid |
| Users.UpdateUserToken | convex/users.js:53-64 | the mutation does what `Update` says and keeps the table valid |
| Users.UserTable.Insert | convex/users.js:32 | the record is appended under a fresh id |
| Users.UserTable.Patch | convex/users.js:62 | the fields present in the patch are replaced in the record with that id |
| Middleware.GateDecision | middleware.jsx:4-32 | `/handler`, `/_next`, `/api` and `/favicon.ico` pass whatever the authentication result; any other path passes exactly when there is a user, and otherwise, including when the lookup throws, is redirected to `/handler/sign-in` |
| Middleware.NoRedirectLoop | middleware.jsx:6-8 | the redirect target is under `/handler`, so a redirected request always passes |
| Middleware.MatchedNeedsUser | middleware.jsx:34-39 | no matched path is a handler path or a public asset |
| Middleware.DashboardDependsOnlyOnAuth | middleware.jsx:19-39 | on matched paths the decision depends only on the authentication result |
| Middleware.SegmentsAreMatched | middleware.jsx:36 | `/dashboard` followed by any non-empty segments, with or without a trailing `/`, is matched |
| Middleware.MatchedHasSegments | middleware.jsx:36 | conversely, every matched path has that form |
| Middleware.MatchedContinuesWithSlash | middleware.jsx:36 | a matched path is `/dashboard` itself or continues with `/`, so `/dashboards` is not matched |
| Strings.TrimShape | services/GlobalServices.jsx:39 | `trim()` leaves no surrounding white space, and is empty exactly for a blank text |
| Strings.TrimIdempotent | services/GlobalServices.jsx:447 | trimming twice is trimming once |
| Strings.Split | services/GlobalServices.jsx:63 | `split` gives at least one part, none holding the separator |
| Strings.JoinSplit | services/GlobalServices.jsx:70 | joining the parts of a split gives the text back |
| Strings.SplitJoin | services/GlobalServices.jsx:583-587 | splitting a join of separator-free parts gives the parts back |
| Strings.ToLower | services/GlobalServices.jsx:371-372 | the lowered text has the same length and no ASCII capital; each capital becomes its small letter and every other character is kept |
| Strings.ToLowerIdempotent | services/GlobalServices.jsx:371-372 | lowering twice is lowering once |

## Left out

- Prompt wording: system prompts are the `Chat.Prompt` datatype. It names each prompt and the values put into it, not its text; the retry note is `RetryNote`.
- The model name, the temperatures and `top_p` are configuration, and the temperatures are floating point.
- The fixed reply texts are parameters: `Dialogue.Replies` and `Summary.Reports`. `SourceReplies` and `SourceReports` hold the source's exact wording, and `ConversationService` is constructed with `SourceReplies`.
- `CoachingOptions` (services/Options) is not part of this model. It is the parameter `options`, with a name and an optional `summeryPrompt` per entry.
- `async`/`await`: each call is one atomic step, and there is no concurrency between turns.
- `console.log` and `console.error` are output only.
- `getToken` and `ConvertTextToSpeech` are network and speech-service calls. The route handlers under app/api and the UI are not part of this model.
- `completion?.choices?.[0]?.message?.content || ""`: a reply without content is `Answered("")`. Any exception from the client is the single `Fails`.
- Unicode: `toLowerCase` is modelled on ASCII letters only. Lengths, such as the 30-character mid-response test, count characters rather than UTF-16 code units.
- `null`/`undefined` inputs (`conversation?.length`, `msg.content?.trim()`, `!args.name`) cannot occur: every value is total, and the empty string stands in for them.
- Dialogue.ProfileOf: a catalogue name that is an `Object.prototype` key, such as `constructor` or `toString`, makes `responseStrategies[coachingOption]` truthy without an `initial` entry. Reading `systemPrompt` then throws, and the turn gives the apology. The model instead uses the default strategy for every name other than `Mock Interview` and `Ques Ans Prep`. JavaScript's prototype lookup is not part of this model.
- Users.CreateUser: Convex ids are opaque strings; here they are consecutive naturals handed out by the table. System fields such as `_creationTime` are left out. Query results are in insertion order, as Convex's default order is.
- Users.UpdateUserToken: `credit` is a JavaScript number; here it is an integer. A patch of an unknown id, which throws in Convex, is the result `false`.
- Middleware.Gate: `stackServerApp.getUser()` is its result, `AuthOutcome`. The redirect target is the path of `new URL('/handler/sign-in', request.url)`, without the origin of the request.
- Middleware.Matched: `/dashboard/:path*` is read case-sensitively, with one optional trailing `/`; other matcher options are not modelled. Query strings and fragments are not part of a pathname and are not modelled.
