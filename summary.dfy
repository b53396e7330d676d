/**
 * `AIModelToGenerateFeedbackAndNotes` of services/GlobalServices.jsx: check
 * the input, keep the non-system, non-blank messages, ask the model for a
 * summary up to twice (the same request both times) until the answer looks
 * complete, and format it; every failure becomes a fixed report, so the
 * function never throws.
 */
module Summary {
  import opened Wrappers
  import opened Strings
  import opened Chat
  import opened ResponseText
  import opened Generation

  /** The bound of the `summaryAttempts` loop. */
  const SummaryAttempts: nat := 2

  /** `max_tokens` of the summary request. */
  const SummaryTokens: int := 600

  /**
   * The fixed wording of the output: the report of the `catch` block, the
   * report for an empty answer, and what a formatted summary starts and ends
   * with. The functions take it as a parameter; `SourceReports` is the wording
   * of services/GlobalServices.jsx.
   */
  datatype Reports = Reports(error: string, emptyReply: string, heading: string, closing: string)

  /** The wording of the source. */
  const SourceReports := Reports(ErrorReport, EmptyReplyReport, Heading, Closing)

  const ErrorReport: string :=
    "## Conversation Summary\n\n### Overview\nUnable to generate a detailed summary due to processing issues.\n\n"
    + "### Key Points\n1. Conversation explored various aspects of the topic\n2. Meaningful dialogue was maintained\n"
    + "3. Learning objectives were addressed\n\n### Recommendation\n- Review the conversation manually\n"
    + "- Identify key takeaways\n- Reflect on the discussion's main points"

  const EmptyReplyReport: string :=
    "## Conversation Summary\n\n### Key Insights\n1. Comprehensive review of the discussion\n"
    + "2. Identification of primary learning objectives\n3. Recommendations for future improvement\n\n"
    + "### Next Steps\n- Reflect on the discussed topics\n- Apply the learned insights\n"
    + "- Continue exploring the subject matter"

  const Heading: string := "## Conversation Summary\n\n"

  const Closing: string :=
    "\n\n### Recommendations\n- Review the key points\n- Practice and apply the insights\n"
    + "- Seek further clarification if needed"

  /** None of the source's reports is empty. */
  lemma SourceReportsNonEmpty()
    ensures SourceReports.error != "" && SourceReports.emptyReply != "" && SourceReports.heading != ""
  {
    assert |ErrorReport| > 0 && |EmptyReplyReport| > 0 && |Heading| > 0;
  }

  // ---------------------------------------------------------------------------
  // Input
  // ---------------------------------------------------------------------------

  /** `msg.role !== 'system' && msg.content?.trim()`. */
  predicate Analysable(m: Message) {
    m.role != System && Trim(m.content) != ""
  }

  /**
   * `conversation.filter(...)` followed by the `map` that copies `role` and
   * `content`: the analysable messages, in order.
   */
  function AnalysableMessages(conversation: seq<Message>): (kept: seq<Message>)
    ensures forall m :: m in kept <==> m in conversation && Analysable(m)
    decreases |conversation|
  {
    if conversation == [] then []
    else (if Analysable(conversation[0]) then [conversation[0]] else []) + AnalysableMessages(conversation[1..])
  }

  /**
   * The filter works message by message: the messages kept from two pieces
   * are those kept from each, in order, so the transcript keeps the order
   * and the count of what it keeps.
   */
  lemma {:induction false} AnalysableMessagesConcat(a: seq<Message>, b: seq<Message>)
    ensures AnalysableMessages(a + b) == AnalysableMessages(a) + AnalysableMessages(b)
    decreases |a|
  {
    if a == [] {
      assert a + b == b;
    } else {
      assert (a + b)[0] == a[0] && (a + b)[1..] == a[1..] + b;
      AnalysableMessagesConcat(a[1..], b);
    }
  }

  /** A single message is kept exactly when it is analysable. */
  lemma AnalysableMessage(m: Message)
    ensures AnalysableMessages([m]) == if Analysable(m) then [m] else []
  {
    assert [m][1..] == [];
  }

  /** The option check: a catalogue entry of that name with a non-empty `summeryPrompt`. */
  predicate HasSummaryPrompt(options: seq<CoachingOption>, coachingOption: string) {
    var option := FindOption(options, coachingOption);
    option.Some? && option.value.summeryPrompt.Some? && option.value.summeryPrompt.value != ""
  }

  /** Whether the `try` block throws before it calls the model. */
  predicate Rejected(options: seq<CoachingOption>, coachingOption: string, conversation: seq<Message>) {
    || |conversation| == 0
    || !HasSummaryPrompt(options, coachingOption)
    || |AnalysableMessages(conversation)| == 0
  }

  /** The system prompt with the option and message count, then the transcript as JSON. */
  function SummaryRequest(coachingOption: string, filtered: seq<Message>): Request {
    Request([Instruct(SummaryBrief(coachingOption, |filtered|)), Transcript(filtered)], SummaryTokens)
  }

  // ---------------------------------------------------------------------------
  // The retry loop
  // ---------------------------------------------------------------------------

  /**
   * The summary loop with `attemptsLeft` iterations to go and
   * `summaryResponse` as it stands, for a completeness test `incomplete`:
   * unlike `generateCompleteResponse`, it sends the same request every time.
   */
  function SummaryLoop(incomplete: string -> bool, script: seq<Reply>, request: Request, attemptsLeft: nat,
                       summaryResponse: string): Run
    decreases attemptsLeft
  {
    if attemptsLeft == 0 then Run(Replied(summaryResponse), [], script)
    else
      match NextReply(script)
      case Fails => Run(Threw, [request], Advance(script))
      case Answered(text) =>
        if !incomplete(text) then Run(Replied(text), [request], Advance(script))
        else
          var later := SummaryLoop(incomplete, Advance(script), request, attemptsLeft - 1, text);
          Run(later.result, [request] + later.requests, later.rest)
  }

  /**
   * Between one call and one per iteration left, every one of them the same
   * request, and the replies used are gone from the script.
   */
  lemma {:induction false} SummaryLoopRequests(incomplete: string -> bool, script: seq<Reply>, request: Request,
                                               attemptsLeft: nat, summaryResponse: string)
    ensures var run := SummaryLoop(incomplete, script, request, attemptsLeft, summaryResponse);
            && |run.requests| <= attemptsLeft
            && (attemptsLeft > 0 ==> |run.requests| > 0)
            && (forall k :: 0 <= k < |run.requests| ==> run.requests[k] == request)
            && run.rest == Drop(script, |run.requests|)
    decreases attemptsLeft
  {
    var run := SummaryLoop(incomplete, script, request, attemptsLeft, summaryResponse);
    if attemptsLeft > 0 && NextReply(script).Answered? && incomplete(NextReply(script).content) {
      var text := NextReply(script).content;
      var later := SummaryLoop(incomplete, Advance(script), request, attemptsLeft - 1, text);
      assert run == Run(later.result, [request] + later.requests, later.rest);
      SummaryLoopRequests(incomplete, Advance(script), request, attemptsLeft - 1, text);
      ReplyAtAdvance(script, |later.requests|);
    }
  }

  /**
   * The result is the last reply obtained, or the exception it was; with no
   * call at all it is the text as it stood.
   */
  lemma {:induction false} SummaryLoopReturnsLastReply(incomplete: string -> bool, script: seq<Reply>, request: Request,
                                                       attemptsLeft: nat, summaryResponse: string)
    ensures var run := SummaryLoop(incomplete, script, request, attemptsLeft, summaryResponse);
            && (run.result == Threw <==> (|run.requests| > 0 && ReplyAt(script, |run.requests| - 1) == Fails))
            && (run.result.Replied? && |run.requests| > 0 ==>
                  ReplyAt(script, |run.requests| - 1) == Answered(run.result.text))
            && (|run.requests| == 0 ==> run.result == Replied(summaryResponse))
    decreases attemptsLeft
  {
    var run := SummaryLoop(incomplete, script, request, attemptsLeft, summaryResponse);
    if attemptsLeft > 0 {
      var first := NextReply(script);
      assert ReplyAt(script, 0) == first;
      if first.Answered? && incomplete(first.content) {
        var later := SummaryLoop(incomplete, Advance(script), request, attemptsLeft - 1, first.content);
        assert run == Run(later.result, [request] + later.requests, later.rest);
        SummaryLoopReturnsLastReply(incomplete, Advance(script), request, attemptsLeft - 1, first.content);
        if |later.requests| > 0 {
          ReplyAtAdvance(script, |later.requests| - 1);
          assert ReplyAt(script, |run.requests| - 1) == ReplyAt(Advance(script), |later.requests| - 1);
        } else {
          assert run.result == Replied(first.content);
        }
      } else if first.Answered? {
        assert run == Run(Replied(first.content), [request], Advance(script));
      } else {
        assert run == Run(Threw, [request], Advance(script));
      }
    } else {
      assert run == Run(Replied(summaryResponse), [], script);
    }
  }

  /** The loop stops short of its bound only on a complete answer or an exception. */
  lemma {:induction false} SummaryLoopStopsOnComplete(incomplete: string -> bool, script: seq<Reply>, request: Request,
                                                      attemptsLeft: nat, summaryResponse: string)
    ensures var run := SummaryLoop(incomplete, script, request, attemptsLeft, summaryResponse);
            |run.requests| < attemptsLeft && run.result.Replied? ==> !incomplete(run.result.text)
    decreases attemptsLeft
  {
    if attemptsLeft > 0 && NextReply(script).Answered? && incomplete(NextReply(script).content) {
      SummaryLoopStopsOnComplete(incomplete, Advance(script), request, attemptsLeft - 1, NextReply(script).content);
    }
  }

  /** The loop as it runs, against the model's client. */
  method Summarize(backend: ChatBackend, request: Request) returns (result: Generated)
    modifies backend
    ensures var run := SummaryLoop(IsResponseIncomplete, old(backend.script), request, SummaryAttempts, "");
            && result == run.result
            && backend.requests == old(backend.requests) + run.requests
            && backend.script == run.rest
  {
    ghost var run := SummaryLoop(IsResponseIncomplete, backend.script, request, SummaryAttempts, "");
    var summaryResponse := "";
    var summaryAttempts := 0;
    while summaryAttempts < SummaryAttempts
      invariant 0 <= summaryAttempts <= SummaryAttempts
      invariant var later := SummaryLoop(IsResponseIncomplete, backend.script, request,
                                         SummaryAttempts - summaryAttempts, summaryResponse);
                && run.result == later.result && run.rest == later.rest
                && old(backend.requests) + run.requests == backend.requests + later.requests
    {
      ghost var later := SummaryLoop(IsResponseIncomplete, backend.script, request,
                                     SummaryAttempts - summaryAttempts, summaryResponse);
      ghost var logged := backend.requests;
      var completion := backend.Create(request);
      if completion.Fails? {
        assert later.requests == [request];
        return Threw;
      }
      summaryResponse := completion.content;
      if !IsResponseIncomplete(summaryResponse) {
        assert later.requests == [request];
        return Replied(summaryResponse);
      }
      ghost var next := SummaryLoop(IsResponseIncomplete, backend.script, request,
                                    SummaryAttempts - summaryAttempts - 1, summaryResponse);
      assert later.requests == [request] + next.requests;
      LogGrows(logged, request, next.requests);
      summaryAttempts := summaryAttempts + 1;
    }
    assert backend.requests + [] == backend.requests;
    return Replied(summaryResponse);
  }

  // ---------------------------------------------------------------------------
  // Formatting
  // ---------------------------------------------------------------------------

  /** `line.startsWith('1.') || line.startsWith('2.') || line.startsWith('3.')`. */
  predicate Numbered(line: string) {
    StartsWith(line, "1.") || StartsWith(line, "2.") || StartsWith(line, "3.")
  }

  /** One line of the `map`: a numbered line becomes a `### ` heading. */
  function MarkLine(line: string): string {
    if Numbered(line) then "### " + line else line
  }

  /** The `map` over the lines. */
  function MarkSections(lines: seq<string>): (marked: seq<string>)
    ensures |marked| == |lines|
    ensures forall i :: 0 <= i < |lines| ==> marked[i] == MarkLine(lines[i])
  {
    seq(|lines|, i requires 0 <= i < |lines| => MarkLine(lines[i]))
  }

  /** The summary between the heading and the closing recommendations. */
  function FormattedBody(summaryResponse: string): string {
    Join(MarkSections(Split(summaryResponse, '\n')), '\n')
  }

  /** `formattedResponse`. */
  function Formatted(reports: Reports, summaryResponse: string): string {
    reports.heading + FormattedBody(summaryResponse) + reports.closing
  }

  /** Marking a line adds no line break to it. */
  lemma MarkLineKeepsLine(line: string)
    requires '\n' !in line
    ensures '\n' !in MarkLine(line)
  {
    if Numbered(line) {
      var marked := "### " + line;
      forall j | 0 <= j < |marked|
        ensures marked[j] != '\n'
      {
        if j >= 4 {
          assert marked[j] == line[j - 4];
        }
      }
    }
  }

  /**
   * The lines of the formatted body are the lines of the answer, one for one:
   * a line starting `1.`, `2.` or `3.` with `### ` in front, any other line as
   * it was.
   */
  lemma FormattedLines(summaryResponse: string)
    ensures var lines := Split(summaryResponse, '\n');
            var body := Split(FormattedBody(summaryResponse), '\n');
            && |body| == |lines|
            && forall i :: 0 <= i < |lines| ==>
                 (Numbered(lines[i]) ==> body[i] == "### " + lines[i])
                 && (!Numbered(lines[i]) ==> body[i] == lines[i])
  {
    var lines := Split(summaryResponse, '\n');
    var marked := MarkSections(lines);
    forall p | p in marked
      ensures '\n' !in p
    {
      var i :| 0 <= i < |marked| && marked[i] == p;
      assert lines[i] in lines;
      MarkLineKeepsLine(lines[i]);
    }
    SplitJoin(marked, '\n');
  }

  // ---------------------------------------------------------------------------
  // The whole call
  // ---------------------------------------------------------------------------

  /** The returned message, the requests sent and the replies left over. */
  datatype Feedback = Feedback(reply: Message, requests: seq<Request>, rest: seq<Reply>)

  /** `AIModelToGenerateFeedbackAndNotes(coachingOption, conversation)` against the catalogue `options`. */
  function FeedbackAndNotes(reports: Reports, script: seq<Reply>, options: seq<CoachingOption>, coachingOption: string,
                            conversation: seq<Message>): Feedback
  {
    if Rejected(options, coachingOption, conversation) then Feedback(AssistantSays(reports.error), [], script)
    else
      var request := SummaryRequest(coachingOption, AnalysableMessages(conversation));
      var run := SummaryLoop(IsResponseIncomplete, script, request, SummaryAttempts, "");
      match run.result
      case Threw => Feedback(AssistantSays(reports.error), run.requests, run.rest)
      case Replied(text) =>
        Feedback(AssistantSays(if text == "" then reports.emptyReply else Formatted(reports, text)),
                 run.requests, run.rest)
  }

  /**
   * The call never throws: whatever the input and whatever the model does, it
   * returns an `assistant` message that is one of the two fixed reports or a
   * formatted non-empty answer, and so is never empty when the reports are not.
   */
  lemma FeedbackIsAssistantReport(reports: Reports, script: seq<Reply>, options: seq<CoachingOption>,
                                  coachingOption: string, conversation: seq<Message>)
    ensures var out := FeedbackAndNotes(reports, script, options, coachingOption, conversation);
            && out.reply.role == Assistant
            && (|| out.reply.content == reports.error || out.reply.content == reports.emptyReply
                || exists text :: text != "" && out.reply.content == Formatted(reports, text))
            && (reports.error != "" && reports.emptyReply != "" && reports.heading != "" ==> out.reply.content != "")
  {
  }

  /** An empty conversation, or one of system and blank messages only, gets the error report without a call. */
  lemma BlankConversationGetsErrorReport(reports: Reports, script: seq<Reply>, options: seq<CoachingOption>,
                                         coachingOption: string, conversation: seq<Message>)
    requires forall i :: 0 <= i < |conversation| ==> conversation[i].role == System || IsBlank(conversation[i].content)
    ensures FeedbackAndNotes(reports, script, options, coachingOption, conversation)
            == Feedback(AssistantSays(reports.error), [], script)
  {
    var kept := AnalysableMessages(conversation);
    if |kept| > 0 {
      assert kept[0] in kept;
      var i :| 0 <= i < |conversation| && conversation[i] == kept[0];
      TrimShape(conversation[i].content);
    }
  }

  /** An unknown option, or one without a summary prompt, gets the error report without a call. */
  lemma MissingSummaryPromptGetsErrorReport(reports: Reports, script: seq<Reply>, options: seq<CoachingOption>,
                                            coachingOption: string, conversation: seq<Message>)
    requires forall o :: o in options && o.name == coachingOption ==> o.summeryPrompt.None? || o.summeryPrompt.value == ""
    ensures FeedbackAndNotes(reports, script, options, coachingOption, conversation)
            == Feedback(AssistantSays(reports.error), [], script)
  {
    var found := FindOption(options, coachingOption);
    if found.Some? {
      var i :| 0 <= i < |options| && options[i] == found.value && found.value.name == coachingOption;
      assert options[i] in options;
    }
  }

  /**
   * A valid call asks once or twice, each time with the system prompt naming
   * the option and the number of analysable messages, then those messages,
   * with a budget of 600 tokens; an exception from the model gives the error
   * report, and a second call happens only after an incomplete first answer.
   */
  lemma SummaryCalls(reports: Reports, script: seq<Reply>, options: seq<CoachingOption>, coachingOption: string,
                     conversation: seq<Message>)
    requires !Rejected(options, coachingOption, conversation)
    ensures var out := FeedbackAndNotes(reports, script, options, coachingOption, conversation);
            var filtered := AnalysableMessages(conversation);
            && 1 <= |out.requests| <= 2
            && (forall k :: 0 <= k < |out.requests| ==>
                  out.requests[k] == Request([Instruct(SummaryBrief(coachingOption, |filtered|)), Transcript(filtered)], 600))
            && out.rest == Drop(script, |out.requests|)
            && (ReplyAt(script, |out.requests| - 1) == Fails ==> out.reply == AssistantSays(reports.error))
            && (|out.requests| == 2 ==> ReplyAt(script, 0).Answered? && IsResponseIncomplete(ReplyAt(script, 0).content))
  {
    var request := SummaryRequest(coachingOption, AnalysableMessages(conversation));
    SummaryLoopRequests(IsResponseIncomplete, script, request, SummaryAttempts, "");
    SummaryLoopReturnsLastReply(IsResponseIncomplete, script, request, SummaryAttempts, "");
  }

  /** A complete first answer is formatted after a single call. */
  lemma CompleteSummaryIsFormatted(reports: Reports, script: seq<Reply>, options: seq<CoachingOption>,
                                   coachingOption: string, conversation: seq<Message>)
    requires !Rejected(options, coachingOption, conversation)
    requires |script| > 0 && script[0].Answered? && !IsResponseIncomplete(script[0].content)
    ensures var out := FeedbackAndNotes(reports, script, options, coachingOption, conversation);
            && |out.requests| == 1
            && out.reply == AssistantSays(Formatted(reports, script[0].content))
  {
    assert script[0].content != "";
  }

  // ---------------------------------------------------------------------------
  // The method
  // ---------------------------------------------------------------------------

  /** The function as it runs: the checks, the summary loop and the formatting. */
  method AIModelToGenerateFeedbackAndNotes(backend: ChatBackend, reports: Reports, options: seq<CoachingOption>,
                                           coachingOption: string, conversation: seq<Message>)
    returns (reply: Message)
    modifies backend
    ensures var out := FeedbackAndNotes(reports, old(backend.script), options, coachingOption, conversation);
            && reply == out.reply
            && backend.script == out.rest && backend.requests == old(backend.requests) + out.requests
  {
    if |conversation| == 0 {
      return AssistantSays(reports.error);
    }
    var option := FindOption(options, coachingOption);
    if option.None? || option.value.summeryPrompt.None? || option.value.summeryPrompt.value == "" {
      return AssistantSays(reports.error);
    }
    var filtered := AnalysableMessages(conversation);
    if |filtered| == 0 {
      return AssistantSays(reports.error);
    }
    var result := Summarize(backend, SummaryRequest(coachingOption, filtered));
    match result
    case Threw =>
      reply := AssistantSays(reports.error);
    case Replied(summaryResponse) =>
      if summaryResponse == "" {
        reply := AssistantSays(reports.emptyReply);
      } else {
        reply := AssistantSays(Formatted(reports, summaryResponse));
      }
  }
}
