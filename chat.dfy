/**
 * Conversation messages and the language-model client.
 *
 * The client (`openai.chat.completions.create` against OpenRouter) is an
 * oracle: a `ChatBackend` holds the replies it is going to give, in order, and
 * records every request it receives. The wording of the system prompts is
 * configuration, so a prompt is named by a `Prompt` value carrying the values
 * the source interpolates into it.
 */
module Chat {
  import opened Wrappers

  datatype Role = System | User | Assistant

  /** A `{ role, content }` entry of a conversation. */
  datatype Message = Message(role: Role, content: string)

  /** The response strategies of services/GlobalServices.jsx other than the lecture one. */
  datatype Profile = MockInterview | QuesAnsPrep | DefaultProfile

  /** The two prompt stages of a strategy: `initial` and `follow_up`. */
  datatype PromptStage = Opening | FollowUp

  /** A `{ role: 'assistant', content }` reply. */
  function AssistantSays(content: string): Message {
    Message(Assistant, content)
  }

  /** A configured system prompt, identified by its kind and interpolated values. */
  datatype Prompt =
    | LectureIntro(topic: string)
    | LectureOverview(topic: string)
    | KeyPointList(topic: string)
    | KeyPointDetail(title: string, topic: string)
    | LectureAnswer(topic: string)
    | LectureRecap(topic: string)
    | Strategy(profile: Profile, stage: PromptStage, topic: string)
    | RetryNote
    | SummaryBrief(coachingOption: string, messageCount: nat)

  /** One entry of the `messages` array sent to the model. */
  datatype Outbound =
    | Instruct(prompt: Prompt)               // a system message holding a prompt
    | Relay(message: Message)                // a conversation message passed on
    | Transcript(messages: seq<Message>)     // a user message holding JSON.stringify(messages)

  /**
   * An entry of the `CoachingOptions` catalogue: its name and, when it has
   * one, the prompt used for the session summary.
   */
  datatype CoachingOption = CoachingOption(name: string, summeryPrompt: Option<string>)

  /** `CoachingOptions.find((item) => item.name === name)`: the first entry so named. */
  function FindOption(options: seq<CoachingOption>, name: string): (found: Option<CoachingOption>)
    ensures found.Some? ==> exists i :: 0 <= i < |options| && options[i] == found.value && found.value.name == name
                                       && forall j :: 0 <= j < i ==> options[j].name != name
    ensures found.None? ==> forall o :: o in options ==> o.name != name
    decreases |options|
  {
    if options == [] then None
    else if options[0].name == name then Some(options[0])
    else FindOption(options[1..], name)
  }

  /** The arguments of one `create` call that the core varies: messages and `max_tokens`. */
  datatype Request = Request(messages: seq<Outbound>, maxTokens: int)

  /**
   * What one call yields: the first choice's content (`""` when there is none)
   * or a thrown error.
   */
  datatype Reply = Answered(content: string) | Fails

  /** What a generation step yields to its caller: text, or an exception it let through. */
  datatype Generated = Replied(text: string) | Threw

  /** The reply the oracle gives next; once its script is used up, every call fails. */
  function NextReply(script: seq<Reply>): Reply {
    if script == [] then Fails else script[0]
  }

  /** The script left after one call. */
  function Advance(script: seq<Reply>): seq<Reply> {
    if script == [] then [] else script[1..]
  }

  /** The language-model client, as an oracle with a script of replies. */
  class ChatBackend {
    var script: seq<Reply>
    var requests: seq<Request>

    constructor (replies: seq<Reply>)
      ensures script == replies && requests == []
    {
      script := replies;
      requests := [];
    }

    /** `openai.chat.completions.create`: logs the request and gives the next reply. */
    method Create(request: Request) returns (reply: Reply)
      modifies this
      ensures reply == NextReply(old(script))
      ensures script == Advance(old(script))
      ensures requests == old(requests) + [request]
    {
      reply := NextReply(script);
      script := Advance(script);
      requests := requests + [request];
    }
  }
}
