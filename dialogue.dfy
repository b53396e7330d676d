/**
 * The turn logic of `AIModel` in services/GlobalServices.jsx, on values.
 *
 * A session context is a `Session`; the module-level `conversationContexts`
 * map is seen as a `map<string, Session>`. `Turn` is one call of `AIModel`:
 * the reply it returns (`None` for `null`), the map afterwards, the requests
 * it sent to the model and the replies left in the oracle's script. The class
 * versions that mutate in place are in module Conversation.
 */
module Dialogue {
  import opened Wrappers
  import opened Strings
  import opened Chat
  import opened ResponseText
  import opened Generation

  /** The four lecture stages: `initial`, `overview`, `keypoints`, `discussion`. */
  datatype Stage = Initial | Overview | KeyPoints | Discussion

  /** A conversation context: `{ stage, askedQuestion, lastQuestion, currentPoint, keyPoints }`. */
  datatype Session = Session(stage: Stage, askedQuestion: bool, lastQuestion: string,
                             currentPoint: nat, keyPoints: seq<string>)

  /** The context a key without an entry starts from. */
  const Fresh := Session(Initial, false, "", 0, [])

  /** The position of a stage in the lecture order. */
  function Rank(stage: Stage): nat {
    match stage
    case Initial => 0
    case Overview => 1
    case KeyPoints => 2
    case Discussion => 3
  }

  /** What the lecture stages and the key-point cursor always satisfy. */
  predicate Consistent(s: Session) {
    && s.currentPoint <= |s.keyPoints|
    && (Rank(s.stage) < 2 ==> s.currentPoint == 0)
  }

  /** The key a session is stored under: `` `${topic}_${coachingOption}` ``. */
  function ContextKey(topic: string, coachingOption: string): string {
    topic + "_" + coachingOption
  }

  /** The stored context for `key`, or a fresh one. */
  function SessionFor(view: map<string, Session>, key: string): Session {
    if key in view then view[key] else Fresh
  }

  // ---------------------------------------------------------------------------
  // Fixed replies
  // ---------------------------------------------------------------------------

  const LectureOption := "Topic Lecture"

  /**
   * The wording of the fixed replies, as functions of the topic (the key-point
   * text also of the point's title), and the fallback key points. The turn
   * functions take it as a parameter; `SourceReplies` is the wording of
   * services/GlobalServices.jsx.
   */
  datatype Replies = Replies(noOption: string, unknownOption: string, apology: string, elaborate: string,
                             intro: string -> string, overview: string -> string,
                             keyPoint: (string, string) -> string, covered: string -> string,
                             answer: string -> string, recap: string -> string, deeper: string -> string,
                             keyPoints: string -> seq<string>)

  const SourceReplies := Replies(NoOptionText, UnknownOptionText, ApologyText, ElaborateText,
                                 IntroFallback, OverviewFallback, KeyPointFallback, CoveredText,
                                 AnswerFallback, RecapFallback, DeeperText, FallbackKeyPoints)

  const NoOptionText := "Let's focus on your session. What topic would you like to explore today?"
  const UnknownOptionText := "Let's begin our session. What would you like to focus on?"
  const ApologyText := "I apologize for the technical issue. Let's continue our discussion. Could you please repeat your last question or statement?"
  const ElaborateText := "Interesting. Could you elaborate on that?"

  function IntroFallback(topic: string): string {
    "Welcome to our lesson on " + topic + "! This is a fundamental concept that's essential to understand. Let me walk you through what " + topic + " is, why it matters, and how you can apply it in real-world scenarios. Would you like me to start with the core principles or dive into some practical examples?"
  }

  function OverviewFallback(topic: string): string {
    "Let me provide a comprehensive overview of " + topic + ". It emerged as a solution to specific challenges in programming and has evolved significantly over time. When implemented correctly, it can dramatically improve performance, user experience, and code maintainability. Would you like me to break down the key concepts in more detail?"
  }

  function KeyPointFallback(title: string, topic: string): string {
    "Let's explore " + title + " in depth. This is a crucial aspect of " + topic + " that involves several important concepts and techniques. When implemented properly, it can significantly improve your application's performance and user experience. Do you have any questions about this before we continue?"
  }

  function CoveredText(topic: string): string {
    "We've covered all the key points of " + topic + "! Is there a specific aspect you'd like me to elaborate on further?"
  }

  function AnswerFallback(topic: string): string {
    "That's an excellent question about " + topic + ". Let me explain in detail. " + topic + " works by managing the flow of data and execution in your application. This is particularly important when dealing with asynchronous operations and event handling. Would you like me to provide a specific example?"
  }

  function RecapFallback(topic: string): string {
    "To summarize what we've learned about " + topic + ": it's a crucial technique that improves performance and user experience by managing how events are processed. The key is understanding when and how to implement it in your code. Are there any other aspects of " + topic + " or related concepts you'd like to explore?"
  }

  function DeeperText(topic: string): string {
    "Would you like me to go deeper into any particular aspect of " + topic + " we've discussed, or shall we explore a related concept?"
  }

  /** A key point in the `Title: Brief summary` form the model is asked for. */
  function KeyPoint(title: string, summary: string): string {
    title + ": " + summary
  }

  /** The four key points used when the model's list yields none. */
  function FallbackKeyPoints(topic: string): seq<string> {
    [ KeyPoint("Core Principles", "The fundamental mechanisms of " + topic),
      KeyPoint("Implementation Strategies", "Different approaches to implementing " + topic),
      KeyPoint("Performance Considerations", "How " + topic + " affects application performance"),
      KeyPoint("Advanced Techniques", "Taking " + topic + " to the next level") ]
  }

  /** `generated || fallback`: an empty reply is replaced. */
  function OrElse(generated: string, fallback: string): string {
    if generated == "" then fallback else generated
  }

  // ---------------------------------------------------------------------------
  // Reading the conversation
  // ---------------------------------------------------------------------------

  /** The content of the last `user` message, or "" when there is none. */
  function LastUserMessage(conversation: seq<Message>): string
    decreases |conversation|
  {
    if conversation == [] then ""
    else if conversation[|conversation| - 1].role == User then conversation[|conversation| - 1].content
    else LastUserMessage(conversation[..|conversation| - 1])
  }

  /** `isUserMidResponse`: a short message without a final full stop. */
  predicate MidResponse(last: string) {
    |last| < 30 && !EndsWith(last, ".")
  }

  /** The discussion test for a question or a request for more detail. */
  predicate AsksForDetail(last: string) {
    Contains(last, "?") || Contains(ToLower(last), "explain") || Contains(ToLower(last), "tell me more")
  }

  /** The discussion test for moving on. */
  predicate AsksToMoveOn(last: string) {
    Contains(ToLower(last), "next") || Contains(ToLower(last), "continue")
  }

  /** `conversation.slice(-4)`. */
  function LastFour(conversation: seq<Message>): seq<Message> {
    if |conversation| <= 4 then conversation else conversation[|conversation| - 4..]
  }

  /**
   * The conversation messages passed on to the model, one for one and in
   * order: each keeps its role, and its content loses every `# * - _`.
   */
  function Relayed(conversation: seq<Message>): (out: seq<Outbound>)
    ensures |out| == |conversation|
    ensures forall i :: 0 <= i < |out| ==>
              && out[i].Relay?
              && out[i].message.role == conversation[i].role
              && NoFormatting(out[i].message.content)
              && |out[i].message.content| <= |conversation[i].content|
  {
    seq(|conversation|, i requires 0 <= i < |conversation| =>
      Relay(Message(conversation[i].role, StripFormatting(conversation[i].content))))
  }

  /** A message without formatting characters is passed on exactly as it was. */
  lemma RelayedKeepsPlainMessages(conversation: seq<Message>)
    ensures forall i :: 0 <= i < |conversation| && NoFormatting(conversation[i].content) ==>
              Relayed(conversation)[i] == Relay(conversation[i])
  {
    forall i | 0 <= i < |conversation| && NoFormatting(conversation[i].content)
      ensures Relayed(conversation)[i] == Relay(conversation[i])
    {
      StripFormattingFixed(conversation[i].content);
    }
  }

  /** The strategy table's entry for an option other than the lecture. */
  function ProfileOf(coachingOption: string): Profile {
    if coachingOption == "Mock Interview" then MockInterview
    else if coachingOption == "Ques Ans Prep" then QuesAnsPrep
    else DefaultProfile
  }

  /** The lines of the model's key-point list that are non-blank and hold a `:`. */
  function ParseKeyPoints(content: string): (points: seq<string>)
    ensures forall p :: p in points ==> |Trim(p)| > 0 && Contains(p, ":")
    ensures forall p :: p in Split(content, '\n') && |Trim(p)| > 0 && Contains(p, ":") ==> p in points
  {
    KeyPointLines(Split(content, '\n'))
  }

  function KeyPointLines(lines: seq<string>): (points: seq<string>)
    ensures forall p :: p in points ==> p in lines && |Trim(p)| > 0 && Contains(p, ":")
    ensures forall p :: p in lines && |Trim(p)| > 0 && Contains(p, ":") ==> p in points
    decreases |lines|
  {
    if lines == [] then []
    else (if |Trim(lines[0])| > 0 && Contains(lines[0], ":") then [lines[0]] else [])
         + KeyPointLines(lines[1..])
  }

  /** The key-point filter works line by line, keeping order and repetitions. */
  lemma {:induction false} KeyPointLinesConcat(a: seq<string>, b: seq<string>)
    ensures KeyPointLines(a + b) == KeyPointLines(a) + KeyPointLines(b)
    decreases |a|
  {
    if a == [] {
      assert a + b == b;
    } else {
      assert (a + b)[0] == a[0] && (a + b)[1..] == a[1..] + b;
      KeyPointLinesConcat(a[1..], b);
    }
  }

  /** A single line is a key point exactly when it is non-blank and holds a `:`. */
  lemma KeyPointLinesLine(l: string)
    ensures KeyPointLines([l]) == if |Trim(l)| > 0 && Contains(l, ":") then [l] else []
  {
    assert [l][1..] == [];
  }

  /** The title of a key point: the text before its first `:`, trimmed. */
  function KeyPointTitle(point: string): string {
    Trim(Split(point, ':')[0])
  }

  // ---------------------------------------------------------------------------
  // One turn
  // ---------------------------------------------------------------------------

  /**
   * What a stage handler produces: the response text or the exception that
   * escaped, the context as mutated so far (also when an exception escaped),
   * the requests sent and the replies left.
   */
  datatype Step = Step(response: Generated, session: Session, requests: seq<Request>, rest: seq<Reply>)

  /** The `initial` lecture stage: an introduction, then on to `overview`. */
  function InitialStep(texts: Replies, s: Session, script: seq<Reply>, topic: string): Step {
    var run := Ask(script, [Instruct(LectureIntro(topic))], 800);
    match run.result
    case Threw => Step(Threw, s, run.requests, run.rest)
    case Replied(text) => Step(Replied(OrElse(text, texts.intro(topic))), s.(stage := Overview), run.requests, run.rest)
  }

  /**
   * The `overview` stage: an overview, then the stage moves to `keypoints`
   * before the key-point list is asked for, so a failure of that second call
   * leaves the stage moved and the old key points in place.
   */
  function OverviewStep(texts: Replies, s: Session, script: seq<Reply>, topic: string): Step {
    var run := Ask(script, [Instruct(LectureOverview(topic))], 800);
    match run.result
    case Threw => Step(Threw, s, run.requests, run.rest)
    case Replied(text) =>
      var moved := s.(stage := KeyPoints);
      var list := Ask(run.rest, [Instruct(KeyPointList(topic))], 400);
      match list.result
      case Threw => Step(Threw, moved, run.requests + list.requests, list.rest)
      case Replied(content) =>
        Step(Replied(OrElse(text, texts.overview(topic))), moved.(keyPoints := PointsOf(texts, content, topic)),
             run.requests + list.requests, list.rest)
  }

  /** The key points parsed from `content`, or the fallback list when none parses. */
  function PointsOf(texts: Replies, content: string, topic: string): seq<string> {
    var parsed := ParseKeyPoints(content);
    if |parsed| == 0 then texts.keyPoints(topic) else parsed
  }

  /** The `keypoints` stage: explain the current point and move the cursor, or go on to `discussion`. */
  function KeyPointStep(texts: Replies, s: Session, script: seq<Reply>, topic: string): Step {
    if s.currentPoint < |s.keyPoints| then
      var title := KeyPointTitle(s.keyPoints[s.currentPoint]);
      var run := Ask(script, [Instruct(KeyPointDetail(title, topic))], 800);
      match run.result
      case Threw => Step(Threw, s, run.requests, run.rest)
      case Replied(text) =>
        Step(Replied(OrElse(text, texts.keyPoint(title, topic))), s.(currentPoint := s.currentPoint + 1),
             run.requests, run.rest)
    else Step(Replied(texts.covered(topic)), s.(stage := Discussion), [], script)
  }

  /** The `discussion` stage: answer a question, recap on request, or offer to go deeper. */
  function DiscussionStep(texts: Replies, s: Session, script: seq<Reply>, topic: string, last: string): Step {
    if AsksForDetail(last) then
      var run := Ask(script, [Instruct(LectureAnswer(topic)), Relay(Message(User, last))], 800);
      match run.result
      case Threw => Step(Threw, s, run.requests, run.rest)
      case Replied(text) => Step(Replied(OrElse(text, texts.answer(topic))), s, run.requests, run.rest)
    else if AsksToMoveOn(last) then
      var run := Ask(script, [Instruct(LectureRecap(topic))], 400);
      match run.result
      case Threw => Step(Threw, s, run.requests, run.rest)
      case Replied(text) => Step(Replied(OrElse(text, texts.recap(topic))), s, run.requests, run.rest)
    else Step(Replied(texts.deeper(topic)), s, [], script)
  }

  /** The Topic Lecture branch, by stage. */
  function LectureStep(texts: Replies, s: Session, script: seq<Reply>, topic: string, last: string): Step {
    match s.stage
    case Initial => InitialStep(texts, s, script, topic)
    case Overview => OverviewStep(texts, s, script, topic)
    case KeyPoints => KeyPointStep(texts, s, script, topic)
    case Discussion => DiscussionStep(texts, s, script, topic, last)
  }

  /** The prompt stage of a non-lecture option: `follow_up` once a question was asked. */
  function PromptStageOf(s: Session): PromptStage {
    if s.askedQuestion then FollowUp else Opening
  }

  /**
   * The branch for every other option: the strategy prompt and the last four
   * messages with formatting removed; the reply is stripped and trimmed, and
   * an empty one gives way to a neutral prompt.
   */
  function CoachingStep(texts: Replies, s: Session, script: seq<Reply>, profile: Profile, topic: string,
                        conversation: seq<Message>): Step {
    var maxTokens := if s.askedQuestion then 200 else 150;
    var messages := [Instruct(Strategy(profile, PromptStageOf(s), topic))] + Relayed(LastFour(conversation));
    var run := Ask(script, messages, maxTokens);
    match run.result
    case Threw => Step(Threw, s, run.requests, run.rest)
    case Replied(text) =>
      var cleaned := CleanResponse(text);
      Step(Replied(if cleaned == "" then texts.elaborate else cleaned), s, run.requests, run.rest)
  }

  /** The stage handler the option selects. */
  function StepFor(texts: Replies, s: Session, script: seq<Reply>, topic: string, coachingOption: string,
                   conversation: seq<Message>): Step {
    if coachingOption == LectureOption then LectureStep(texts, s, script, topic, LastUserMessage(conversation))
    else CoachingStep(texts, s, script, ProfileOf(coachingOption), topic, conversation)
  }

  /** The context after a successful turn: `askedQuestion` and `lastQuestion` follow the final text. */
  function Record(s: Session, response: string): Session {
    var asked := EndsWith(response, "?");
    s.(askedQuestion := asked, lastQuestion := if asked then response else "")
  }

  /** The outcome of one `AIModel` call. */
  datatype Outcome = Outcome(reply: Option<Message>, view: map<string, Session>,
                             requests: seq<Request>, rest: seq<Reply>)


  /** Whether `AIModel` returns `null` before reaching the stage handlers. */
  predicate StaysSilent(view: map<string, Session>, topic: string, coachingOption: string,
                        conversation: seq<Message>) {
    var last := LastUserMessage(conversation);
    MidResponse(last)
    || (SessionFor(view, ContextKey(topic, coachingOption)).askedQuestion && Trim(last) == "")
  }

  /** The handler's result folded into the map: stored on success; on an exception only an entry that was there keeps its mutations. */
  function Settle(texts: Replies, view: map<string, Session>, key: string, isLecture: bool, step: Step): Outcome {
    match step.response
    case Threw =>
      Outcome(Some(AssistantSays(texts.apology)), if key in view then view[key := step.session] else view,
              step.requests, step.rest)
    case Replied(text) =>
      var response := NormalizeResponseLength(text, isLecture);
      Outcome(Some(AssistantSays(response)), view[key := Record(step.session, response)], step.requests, step.rest)
  }

  /** `AIModel(topic, coachingOption, conversation)` against the catalogue `options`. */
  function Turn(texts: Replies, view: map<string, Session>, script: seq<Reply>, options: seq<CoachingOption>,
                topic: string, coachingOption: string, conversation: seq<Message>): Outcome {
    if coachingOption == "" then Outcome(Some(AssistantSays(texts.noOption)), view, [], script)
    else if FindOption(options, coachingOption).None? then Outcome(Some(AssistantSays(texts.unknownOption)), view, [], script)
    else if StaysSilent(view, topic, coachingOption, conversation) then Outcome(None, view, [], script)
    else
      var key := ContextKey(topic, coachingOption);
      Settle(texts, view, key, coachingOption == LectureOption,
             StepFor(texts, SessionFor(view, key), script, topic, coachingOption, conversation))
  }

  /** `resetConversationContext(topic, coachingOption)`. */
  function Reset(view: map<string, Session>, topic: string, coachingOption: string): map<string, Session> {
    view - {ContextKey(topic, coachingOption)}
  }

  // ---------------------------------------------------------------------------
  // Properties
  // ---------------------------------------------------------------------------

  /** The last user message is the content of a `user` entry with no `user` entry after it. */
  lemma {:induction false} LastUserMessageIsLast(conversation: seq<Message>)
    ensures var last := LastUserMessage(conversation);
            || (last == "" && forall i :: 0 <= i < |conversation| ==> conversation[i].role != User)
            || exists i :: 0 <= i < |conversation| && conversation[i].role == User && conversation[i].content == last
                           && forall j :: i < j < |conversation| ==> conversation[j].role != User
    decreases |conversation|
  {
    if conversation != [] && conversation[|conversation| - 1].role != User {
      var init := conversation[..|conversation| - 1];
      LastUserMessageIsLast(init);
      assert forall i :: 0 <= i < |init| ==> init[i] == conversation[i];
    }
  }

  /**
   * `AIModel` returns `null` exactly when a known option is given and the
   * last user message is mid-response, or a question is pending and the
   * message is blank; then it sends nothing and leaves the map alone.
   */
  lemma SilentTurns(texts: Replies, view: map<string, Session>, script: seq<Reply>, options: seq<CoachingOption>,
                    topic: string, coachingOption: string, conversation: seq<Message>)
    ensures var out := Turn(texts, view, script, options, topic, coachingOption, conversation);
            && (out.reply.None? <==> (coachingOption != "" && FindOption(options, coachingOption).Some?
                                       && StaysSilent(view, topic, coachingOption, conversation)))
            && (out.reply.None? ==> out.view == view && out.requests == [] && out.rest == script)
  {
  }

  /** Without an option, or with one the catalogue lacks, a fixed reply comes back and nothing else happens. */
  lemma MissingOptionReplies(texts: Replies, view: map<string, Session>, script: seq<Reply>, options: seq<CoachingOption>,
                             topic: string, coachingOption: string, conversation: seq<Message>)
    requires coachingOption == "" || FindOption(options, coachingOption).None?
    ensures var out := Turn(texts, view, script, options, topic, coachingOption, conversation);
            && out.reply == Some(AssistantSays(if coachingOption == "" then texts.noOption else texts.unknownOption))
            && out.view == view && out.requests == [] && out.rest == script
  {
  }

  /** A turn writes only the entry under its own key. */
  lemma TurnTouchesOnlyItsKey(texts: Replies, view: map<string, Session>, script: seq<Reply>, options: seq<CoachingOption>,
                              topic: string, coachingOption: string, conversation: seq<Message>)
    ensures var out := Turn(texts, view, script, options, topic, coachingOption, conversation);
            forall k :: k != ContextKey(topic, coachingOption) ==>
              (k in out.view <==> k in view) && (k in view ==> out.view[k] == view[k])
  {
  }

  /**
   * An exception from the model gives the apology; the entry under the key,
   * when there was one, keeps what the handler changed before the exception,
   * and a context made fresh for this turn is dropped.
   */
  lemma ExceptionKeepsEarlierMutations(texts: Replies, view: map<string, Session>, script: seq<Reply>,
                                       options: seq<CoachingOption>, topic: string, coachingOption: string,
                                       conversation: seq<Message>)
    requires coachingOption != "" && FindOption(options, coachingOption).Some?
    requires !StaysSilent(view, topic, coachingOption, conversation)
    ensures var key := ContextKey(topic, coachingOption);
            var step := StepFor(texts, SessionFor(view, key), script, topic, coachingOption, conversation);
            var out := Turn(texts, view, script, options, topic, coachingOption, conversation);
            step.response == Threw ==>
              && out.reply == Some(AssistantSays(texts.apology))
              && (key in view ==> out.view == view[key := step.session])
              && (key !in view ==> out.view == view)
  {
  }

  /**
   * After a turn that produced text, the reply is that text with its lines
   * capped, and `askedQuestion` and `lastQuestion` describe it.
   */
  lemma RepliedTurnRecordsQuestion(texts: Replies, view: map<string, Session>, script: seq<Reply>,
                                   options: seq<CoachingOption>, topic: string, coachingOption: string,
                                   conversation: seq<Message>)
    requires coachingOption != "" && FindOption(options, coachingOption).Some?
    requires !StaysSilent(view, topic, coachingOption, conversation)
    ensures var key := ContextKey(topic, coachingOption);
            var step := StepFor(texts, SessionFor(view, key), script, topic, coachingOption, conversation);
            var out := Turn(texts, view, script, options, topic, coachingOption, conversation);
            step.response.Replied? ==>
              && out.reply.Some? && out.reply.value.role == Role.Assistant
              && out.reply.value.content == NormalizeResponseLength(step.response.text, coachingOption == LectureOption)
              && key in out.view
              && out.view[key].askedQuestion == EndsWith(out.reply.value.content, "?")
              && out.view[key].lastQuestion == (if out.view[key].askedQuestion then out.reply.value.content else "")
  {
  }

  /** The lecture stage moves forward by at most one place, and `discussion` is never left. */
  lemma LectureStageMonotone(texts: Replies, s: Session, script: seq<Reply>, topic: string, last: string)
    ensures var next := LectureStep(texts, s, script, topic, last).session;
            && Rank(s.stage) <= Rank(next.stage) <= Rank(s.stage) + 1
            && (s.stage == Discussion ==> next.stage == Discussion)
  {
  }

  /**
   * The `initial` stage moves on whenever the model answered at all, also when
   * the answer was empty and the fallback introduction was used.
   */
  lemma InitialAdvancesOnFallback(texts: Replies, s: Session, script: seq<Reply>, topic: string, last: string)
    requires s.stage == Initial
    ensures var run := Ask(script, [Instruct(LectureIntro(topic))], 800);
            var step := LectureStep(texts, s, script, topic, last);
            && step.requests == run.requests && step.rest == run.rest
            && (step.response == Threw <==> run.result == Threw)
            && (run.result == Replied("") ==> step.response == Replied(texts.intro(topic)))
            && (run.result.Replied? && run.result.text != "" ==> step.response == run.result)
            && (step.response == Threw ==> step.session == s)
            && (step.response.Replied? ==> step.session == s.(stage := Overview))
  {
  }

  /** Fallback key points that can stand in for a parsed list: some, each non-blank and holding a `:`. */
  predicate UsableKeyPoints(points: seq<string>) {
    |points| > 0 && forall p :: p in points ==> |Trim(p)| > 0 && Contains(p, ":")
  }

  /** The source's four fallback key points are usable. */
  lemma FallbackKeyPointsUsable(topic: string)
    ensures UsableKeyPoints(SourceReplies.keyPoints(topic))
  {
    var a := KeyPoint("Core Principles", "The fundamental mechanisms of " + topic);
    var b := KeyPoint("Implementation Strategies", "Different approaches to implementing " + topic);
    var c := KeyPoint("Performance Considerations", "How " + topic + " affects application performance");
    var d := KeyPoint("Advanced Techniques", "Taking " + topic + " to the next level");
    KeyPointShape("Core Principles", "The fundamental mechanisms of " + topic);
    KeyPointShape("Implementation Strategies", "Different approaches to implementing " + topic);
    KeyPointShape("Performance Considerations", "How " + topic + " affects application performance");
    KeyPointShape("Advanced Techniques", "Taking " + topic + " to the next level");
    assert SourceReplies.keyPoints(topic) == [a, b, c, d];
  }

  /** A key point whose title starts with a visible character is non-blank and holds a `:`. */
  lemma KeyPointShape(title: string, summary: string)
    requires title != [] && !IsWhiteSpace(title[0])
    ensures |Trim(KeyPoint(title, summary))| > 0 && Contains(KeyPoint(title, summary), ":")
  {
    var p := KeyPoint(title, summary);
    TrimShape(p);
    assert p[0] == title[0];
    assert p[|title|..|title| + 1] == ":";
    ContainsAt(p, |title|, ":");
  }

  /** `sub` found at position `i` makes `Contains` true. */
  lemma {:induction false} ContainsAt(s: string, i: nat, sub: string)
    requires i + |sub| <= |s| && s[i..i + |sub|] == sub
    ensures Contains(s, sub)
    decreases i
  {
    if i > 0 {
      assert s[1..][i - 1..i - 1 + |sub|] == sub;
      ContainsAt(s[1..], i - 1, sub);
    }
  }

  /**
   * A completed overview turn leaves the lecture at `keypoints` with a
   * non-empty list of key points, each non-blank and holding a `:`, and the
   * cursor where it was.
   */
  lemma OverviewYieldsKeyPoints(texts: Replies, s: Session, script: seq<Reply>, topic: string, last: string)
    requires s.stage == Overview && UsableKeyPoints(texts.keyPoints(topic))
    ensures var step := LectureStep(texts, s, script, topic, last);
            step.response.Replied? ==>
              && step.session.stage == KeyPoints
              && UsableKeyPoints(step.session.keyPoints)
              && step.session.currentPoint == s.currentPoint
  {
  }

  /**
   * When the overview is answered but the key-point request that follows it
   * throws, the turn fails with the stage already moved to `keypoints` and the
   * old key points kept; both requests were sent, the second with 400 tokens.
   */
  lemma OverviewListFailure(texts: Replies, s: Session, script: seq<Reply>, topic: string, last: string)
    requires s.stage == Overview
    ensures var run := Ask(script, [Instruct(LectureOverview(topic))], 800);
            var list := Ask(run.rest, [Instruct(KeyPointList(topic))], 400);
            var step := LectureStep(texts, s, script, topic, last);
            run.result.Replied? && list.result == Threw ==>
              && step.response == Threw
              && step.session == s.(stage := KeyPoints)
              && step.requests == run.requests + list.requests
              && step.rest == list.rest
  {
  }

  /** Such a failure happens: a complete overview followed by an exception. */
  lemma OverviewListFailureOccurs(texts: Replies, s: Session, overview: string, topic: string, last: string)
    requires s.stage == Overview && !IsResponseIncomplete(overview)
    ensures var step := LectureStep(texts, s, [Answered(overview), Fails], topic, last);
            && step.response == Threw
            && step.session == s.(stage := KeyPoints)
            && |step.requests| == 2
  {
    var script := [Answered(overview), Fails];
    assert Advance(script) == [Fails];
    assert Advance([Fails]) == [];
  }

  /**
   * An entry stored by such a failure, with no key points, answers the next
   * lecture turn with the closing text and moves to `discussion` without a
   * single model call.
   */
  lemma EmptyKeyPointsCloseLecture(texts: Replies, s: Session, script: seq<Reply>, topic: string, last: string)
    requires s.stage == KeyPoints && s.keyPoints == []
    ensures LectureStep(texts, s, script, topic, last)
            == Step(Replied(texts.covered(topic)), s.(stage := Discussion), [], script)
  {
  }

  /**
   * In `keypoints`, a turn that produced text moves the cursor by exactly one
   * while it is inside the list; at the end of the list the lecture moves to
   * `discussion` and the cursor stays.
   */
  lemma KeyPointCursor(texts: Replies, s: Session, script: seq<Reply>, topic: string, last: string)
    requires s.stage == KeyPoints
    ensures var step := LectureStep(texts, s, script, topic, last);
            && (s.currentPoint < |s.keyPoints| && step.response.Replied? ==>
                  step.session == s.(currentPoint := s.currentPoint + 1))
            && (s.currentPoint >= |s.keyPoints| ==>
                  step.session == s.(stage := Discussion) && step.response == Replied(texts.covered(topic)))
  {
  }

  /** Every handler keeps a consistent context consistent, whatever the model does. */
  lemma StepKeepsConsistent(texts: Replies, s: Session, script: seq<Reply>, topic: string, coachingOption: string,
                            conversation: seq<Message>)
    requires Consistent(s)
    ensures Consistent(StepFor(texts, s, script, topic, coachingOption, conversation).session)
  {
  }

  /** The context map stays consistent across turns, so `currentPoint <= keyPoints.length` always holds. */
  lemma TurnKeepsConsistent(texts: Replies, view: map<string, Session>, script: seq<Reply>,
                            options: seq<CoachingOption>, topic: string, coachingOption: string,
                            conversation: seq<Message>)
    requires forall k :: k in view ==> Consistent(view[k])
    ensures var out := Turn(texts, view, script, options, topic, coachingOption, conversation);
            forall k :: k in out.view ==> Consistent(out.view[k])
  {
    var key := ContextKey(topic, coachingOption);
    assert Consistent(SessionFor(view, key));
    StepKeepsConsistent(texts, SessionFor(view, key), script, topic, coachingOption, conversation);
  }

  /**
   * Outside the lecture the prompt stage is `follow_up` exactly when a
   * question was asked, with 200 tokens rather than 150; the context is not
   * changed by the handler.
   */
  lemma CoachingPrompt(texts: Replies, s: Session, script: seq<Reply>, profile: Profile, topic: string,
                       conversation: seq<Message>)
    ensures var step := CoachingStep(texts, s, script, profile, topic, conversation);
            && |step.requests| > 0
            && step.requests[0].messages[0] == Instruct(Strategy(profile, if s.askedQuestion then FollowUp else Opening, topic))
            && step.requests[0].maxTokens == (if s.askedQuestion then 200 else 150)
            && step.session == s
  {
    var messages := [Instruct(Strategy(profile, PromptStageOf(s), topic))] + Relayed(LastFour(conversation));
    var maxTokens := if s.askedQuestion then 200 else 150;
    GenerateShape(IsResponseIncomplete, script, messages, maxTokens, MaxAttempts, "");
    GenerateRequests(IsResponseIncomplete, script, messages, maxTokens, MaxAttempts, "");
    assert messages + Notes(0) == messages;
  }

  /** A reply text that is free of `# * - _`, not empty and without white space at either end. */
  predicate CleanText(r: string) {
    NoFormatting(r) && r != [] && !IsWhiteSpace(r[0]) && !IsWhiteSpace(r[|r| - 1])
  }

  /**
   * Outside the lecture the text is clean: the model's reply stripped and
   * trimmed, or the neutral prompt when nothing is left of it.
   */
  lemma CoachingReplyClean(texts: Replies, s: Session, script: seq<Reply>, profile: Profile, topic: string,
                           conversation: seq<Message>)
    requires CleanText(texts.elaborate)
    ensures var messages := [Instruct(Strategy(profile, PromptStageOf(s), topic))] + Relayed(LastFour(conversation));
            var run := Ask(script, messages, if s.askedQuestion then 200 else 150);
            var step := CoachingStep(texts, s, script, profile, topic, conversation);
            && (step.response.Replied? <==> run.result.Replied?)
            && (step.response.Replied? ==> CleanText(step.response.text))
            && (run.result.Replied? && CleanResponse(run.result.text) != "" ==>
                  step.response == Replied(CleanResponse(run.result.text)))
            && (run.result.Replied? && CleanResponse(run.result.text) == "" ==>
                  step.response == Replied(texts.elaborate))
  {
    var messages := [Instruct(Strategy(profile, PromptStageOf(s), topic))] + Relayed(LastFour(conversation));
    var run := Ask(script, messages, if s.askedQuestion then 200 else 150);
    if run.result.Replied? {
      CleanResponseShape(run.result.text);
    }
  }

  /** An empty cleaned reply gives way to the neutral prompt. */
  lemma CoachingEmptyReplyFallsBack(texts: Replies, s: Session, script: seq<Reply>, profile: Profile, topic: string,
                                    conversation: seq<Message>)
    ensures var messages := [Instruct(Strategy(profile, PromptStageOf(s), topic))] + Relayed(LastFour(conversation));
            var run := Ask(script, messages, if s.askedQuestion then 200 else 150);
            var step := CoachingStep(texts, s, script, profile, topic, conversation);
            run.result.Replied? && IsBlank(StripFormatting(run.result.text)) ==> step.response == Replied(texts.elaborate)
  {
    var messages := [Instruct(Strategy(profile, PromptStageOf(s), topic))] + Relayed(LastFour(conversation));
    var run := Ask(script, messages, if s.askedQuestion then 200 else 150);
    if run.result.Replied? {
      CleanResponseShape(run.result.text);
    }
  }

  /**
   * The reply of a non-lecture turn that produced text keeps part of that
   * through the line cap: free of `# * - _` and never empty.
   */
  lemma CoachingTurnReplyClean(texts: Replies, view: map<string, Session>, script: seq<Reply>,
                               options: seq<CoachingOption>, topic: string, coachingOption: string,
                               conversation: seq<Message>)
    requires coachingOption != "" && coachingOption != LectureOption && FindOption(options, coachingOption).Some?
    requires !StaysSilent(view, topic, coachingOption, conversation)
    requires CleanText(texts.elaborate)
    ensures var s := SessionFor(view, ContextKey(topic, coachingOption));
            var step := CoachingStep(texts, s, script, ProfileOf(coachingOption), topic, conversation);
            var out := Turn(texts, view, script, options, topic, coachingOption, conversation);
            step.response.Replied? ==>
              out.reply.Some? && NoFormatting(out.reply.value.content) && out.reply.value.content != ""
  {
    var s := SessionFor(view, ContextKey(topic, coachingOption));
    var step := CoachingStep(texts, s, script, ProfileOf(coachingOption), topic, conversation);
    CoachingReplyClean(texts, s, script, ProfileOf(coachingOption), topic, conversation);
    if step.response.Replied? {
      NormalizeKeepsNoFormatting(step.response.text, false);
      NormalizeEmptyOnlyForEmpty(step.response.text, false);
    }
  }

  /**
   * The cap does not trim: a clean non-lecture reply with more than eight
   * lines whose eighth ends in `? ` is passed on by the cleaning unchanged and
   * then cut to a text ending in a blank, so `endsWith('?')` fails and no
   * question is recorded although its last kept line asks one
   * (`"a\nb\nc\nd\ne\nf\ng\nh? \ni"` is such a reply).
   */
  lemma CappedQuestionNotRecorded(s: Session, lines: seq<string>)
    requires |lines| > 8
    requires forall i :: 0 <= i < |lines| ==>
               lines[i] != [] && !IsWhiteSpace(lines[i][0]) && '\n' !in lines[i] && NoFormatting(lines[i])
    requires !IsWhiteSpace(lines[|lines| - 1][|lines[|lines| - 1]| - 1])
    requires EndsWith(lines[7], "? ")
    ensures var text := Join(lines, '\n');
            var response := NormalizeResponseLength(text, false);
            && CleanResponse(text) == text
            && response == Join(lines[..8], '\n')
            && EndsWith(response, " ")
            && !Record(s, response).askedQuestion
  {
    CleanLinesJoined(lines);
    var kept := lines[..8];
    JoinLast(kept, '\n');
    var response := Join(kept, '\n');
    assert response[|response| - 1] == lines[7][|lines[7]| - 1];
    EndsInBlank(response);
  }

  /** Visible, formatting-free lines joined by newlines are a clean text whose non-blank lines are those lines. */
  lemma CleanLinesJoined(lines: seq<string>)
    requires |lines| > 0
    requires forall i :: 0 <= i < |lines| ==>
               lines[i] != [] && !IsWhiteSpace(lines[i][0]) && '\n' !in lines[i] && NoFormatting(lines[i])
    requires !IsWhiteSpace(lines[|lines| - 1][|lines[|lines| - 1]| - 1])
    ensures var text := Join(lines, '\n');
            && text != ""
            && CleanResponse(text) == text
            && ContentLines(text) == lines
  {
    var text := Join(lines, '\n');
    assert forall l :: l in lines ==> l != [] && !IsWhiteSpace(l[0]) && '\n' !in l && NoFormatting(l);
    SplitJoin(lines, '\n');
    PlainLinesKept(lines);
    assert text[0] == lines[0][0];
    var last := lines[|lines| - 1];
    if |lines| > 1 {
      JoinLast(lines, '\n');
    }
    assert text[|text| - 1] == last[|last| - 1];
    JoinKeepsNoFormatting(lines);
    StripFormattingFixed(text);
    TrimVisibleEnds(text);
  }

  /** A text ending in a blank ends in `" "` and not in `"?"`. */
  lemma EndsInBlank(r: string)
    requires r != [] && r[|r| - 1] == ' '
    ensures EndsWith(r, " ") && !EndsWith(r, "?")
  {
    assert r[|r| - 1..] == [r[|r| - 1]];
  }

  /** Lines that each hold a visible character are all kept by the blank-line filter. */
  lemma PlainLinesKept(lines: seq<string>)
    requires forall l :: l in lines ==> l != [] && !IsWhiteSpace(l[0])
    ensures ContentOnly(lines) == lines
  {
    forall l | l in lines
      ensures |Trim(l)| > 0
    {
      TrimShape(l);
    }
    ContentOnlyKeepsContent(lines);
  }

  /** The source's neutral prompt meets what `CoachingTurnReplyClean` asks of it. */
  lemma SourceElaborateClean()
    ensures CleanText(SourceReplies.elaborate)
  {
  }

  /**
   * After `resetConversationContext(topic, coachingOption)` the next turn for
   * that key starts from a fresh `initial` context, exactly as if the map had
   * never held it, and the other entries are untouched.
   */
  lemma ResetStartsAfresh(texts: Replies, view: map<string, Session>, script: seq<Reply>,
                          options: seq<CoachingOption>, topic: string, coachingOption: string,
                          conversation: seq<Message>)
    ensures var key := ContextKey(topic, coachingOption);
            var after := Reset(view, topic, coachingOption);
            && key !in after
            && SessionFor(after, key) == Session(Initial, false, "", 0, [])
            && (forall k :: k != key ==> (k in after <==> k in view) && (k in view ==> after[k] == view[k]))
            && Turn(texts, after, script, options, topic, coachingOption, conversation).reply
               == Turn(texts, map[], script, options, topic, coachingOption, conversation).reply
  {
  }

  /** The key is not injective: two different topic/option pairs can share one context. */
  lemma ContextKeyCollides()
    ensures ContextKey("a_b", "c") == ContextKey("a", "b_c")
    ensures ("a_b", "c") != ("a", "b_c")
  {
  }
}
