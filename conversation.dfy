/**
 * `AIModel` and `resetConversationContext` of services/GlobalServices.jsx as
 * they run: a context object is taken from the module-level map (or made
 * fresh), mutated field by field while the stage handler runs, and put back
 * with `set` only when the turn completes. Each method is proved against its
 * function in module Dialogue.
 */
module Conversation {
  import opened Wrappers
  import opened Strings
  import opened Chat
  import opened ResponseText
  import opened Generation
  import opened Dialogue

  /** A conversation context object. */
  class SessionContext {
    var stage: Stage
    var askedQuestion: bool
    var lastQuestion: string
    var currentPoint: nat
    var keyPoints: seq<string>

    /** The fresh context `{ stage: 'initial', askedQuestion: false, lastQuestion: "", currentPoint: 0, keyPoints: [] }`. */
    constructor ()
      ensures Value() == Fresh
    {
      stage := Initial;
      askedQuestion := false;
      lastQuestion := "";
      currentPoint := 0;
      keyPoints := [];
    }

    /** The fields as a value. */
    function Value(): Session
      reads this
    {
      Session(stage, askedQuestion, lastQuestion, currentPoint, keyPoints)
    }

    /**
     * The `switch (conversationContext.stage)` of the Topic Lecture branch:
     * the fields are assigned as the source assigns them, so an exception
     * from the model leaves the assignments made before it.
     */
    method LectureTurn(texts: Replies, backend: ChatBackend, topic: string, last: string)
      returns (response: Generated)
      modifies this, backend
      ensures var step := LectureStep(texts, old(Value()), old(backend.script), topic, last);
              && response == step.response && Value() == step.session
              && backend.script == step.rest && backend.requests == old(backend.requests) + step.requests
    {
      match stage
      case Initial => response := InitialTurn(texts, backend, topic);
      case Overview => response := OverviewTurn(texts, backend, topic);
      case KeyPoints => response := KeyPointTurn(texts, backend, topic);
      case Discussion => response := DiscussionTurn(texts, backend, topic, last);
    }

    /** `case 'initial'`. */
    method InitialTurn(texts: Replies, backend: ChatBackend, topic: string) returns (response: Generated)
      modifies this, backend
      ensures var step := InitialStep(texts, old(Value()), old(backend.script), topic);
              && response == step.response && Value() == step.session
              && backend.script == step.rest && backend.requests == old(backend.requests) + step.requests
    {
      var intro := GenerateCompleteResponse(backend, [Instruct(LectureIntro(topic))], 800);
      if intro.Threw? {
        return Threw;
      }
      response := Replied(OrElse(intro.text, texts.intro(topic)));
      stage := Overview;
    }

    /** `case 'overview'`: the stage is moved before the key points are asked for. */
    method OverviewTurn(texts: Replies, backend: ChatBackend, topic: string) returns (response: Generated)
      modifies this, backend
      ensures var step := OverviewStep(texts, old(Value()), old(backend.script), topic);
              && response == step.response && Value() == step.session
              && backend.script == step.rest && backend.requests == old(backend.requests) + step.requests
    {
      var overview := GenerateCompleteResponse(backend, [Instruct(LectureOverview(topic))], 800);
      if overview.Threw? {
        return Threw;
      }
      response := Replied(OrElse(overview.text, texts.overview(topic)));
      stage := KeyPoints;
      ghost var afterOverview := backend.requests;
      var list := GenerateCompleteResponse(backend, [Instruct(KeyPointList(topic))], 400);
      assert backend.requests == old(backend.requests) + (afterOverview[|old(backend.requests)|..] + backend.requests[|afterOverview|..]);
      if list.Threw? {
        return Threw;
      }
      keyPoints := ParseKeyPoints(list.text);
      if |keyPoints| == 0 {
        keyPoints := texts.keyPoints(topic);
      }
    }

    /** `case 'keypoints'`. */
    method KeyPointTurn(texts: Replies, backend: ChatBackend, topic: string) returns (response: Generated)
      modifies this, backend
      ensures var step := KeyPointStep(texts, old(Value()), old(backend.script), topic);
              && response == step.response && Value() == step.session
              && backend.script == step.rest && backend.requests == old(backend.requests) + step.requests
    {
      if currentPoint < |keyPoints| {
        var title := KeyPointTitle(keyPoints[currentPoint]);
        var detail := GenerateCompleteResponse(backend, [Instruct(KeyPointDetail(title, topic))], 800);
        if detail.Threw? {
          return Threw;
        }
        response := Replied(OrElse(detail.text, texts.keyPoint(title, topic)));
        currentPoint := currentPoint + 1;
      } else {
        response := Replied(texts.covered(topic));
        stage := Discussion;
      }
    }

    /** `case 'discussion'`: no field changes. */
    method DiscussionTurn(texts: Replies, backend: ChatBackend, topic: string, last: string) returns (response: Generated)
      modifies backend
      ensures var step := DiscussionStep(texts, Value(), old(backend.script), topic, last);
              && response == step.response && Value() == step.session
              && backend.script == step.rest && backend.requests == old(backend.requests) + step.requests
    {
      if AsksForDetail(last) {
        var answer := GenerateCompleteResponse(backend, [Instruct(LectureAnswer(topic)), Relay(Message(User, last))], 800);
        if answer.Threw? {
          return Threw;
        }
        response := Replied(OrElse(answer.text, texts.answer(topic)));
      } else if AsksToMoveOn(last) {
        var recap := GenerateCompleteResponse(backend, [Instruct(LectureRecap(topic))], 400);
        if recap.Threw? {
          return Threw;
        }
        response := Replied(OrElse(recap.text, texts.recap(topic)));
      } else {
        response := Replied(texts.deeper(topic));
      }
    }

    /** The branch for the other options; it reads `askedQuestion` and changes no field. */
    method CoachingTurn(texts: Replies, backend: ChatBackend, profile: Profile, topic: string,
                        conversation: seq<Message>)
      returns (response: Generated)
      modifies backend
      ensures var step := CoachingStep(texts, Value(), old(backend.script), profile, topic, conversation);
              && response == step.response
              && backend.script == step.rest && backend.requests == old(backend.requests) + step.requests
    {
      var strategyStage := if askedQuestion then FollowUp else Opening;
      var maxTokens := if askedQuestion then 200 else 150;
      var messages := [Instruct(Strategy(profile, strategyStage, topic))] + Relayed(LastFour(conversation));
      var generated := GenerateCompleteResponse(backend, messages, maxTokens);
      if generated.Threw? {
        return Threw;
      }
      var cleaned := CleanResponse(generated.text);
      if cleaned == "" {
        cleaned := texts.elaborate;
      }
      response := Replied(cleaned);
    }

    /** The branch `coachingOption` selects. */
    method Handle(texts: Replies, backend: ChatBackend, topic: string, coachingOption: string,
                  conversation: seq<Message>)
      returns (response: Generated)
      modifies this, backend
      ensures var step := StepFor(texts, old(Value()), old(backend.script), topic, coachingOption, conversation);
              && response == step.response && Value() == step.session
              && backend.script == step.rest && backend.requests == old(backend.requests) + step.requests
    {
      if coachingOption == LectureOption {
        response := LectureTurn(texts, backend, topic, LastUserMessage(conversation));
      } else {
        response := CoachingTurn(texts, backend, ProfileOf(coachingOption), topic, conversation);
      }
    }

    /** `askedQuestion` and `lastQuestion` set from the final response. */
    method RecordResponse(response: string)
      modifies this
      ensures Value() == Record(old(Value()), response)
    {
      askedQuestion := EndsWith(response, "?");
      lastQuestion := if EndsWith(response, "?") then response else "";
    }
  }

  /** The module-level `conversationContexts` map and the two functions that use it. */
  class ConversationService {
    var contexts: map<string, SessionContext>

    /** The wording of the fixed replies. */
    const texts: Replies

    /** No context object is shared by two keys, so changing one entry changes no other. */
    ghost predicate Valid()
      reads this
    {
      Injective(contexts)
    }

    /** The map with each context object read as a value. */
    function View(): map<string, Session>
      reads this, contexts.Values
    {
      map k | k in contexts :: contexts[k].Value()
    }

    /** An empty map, and the wording of services/GlobalServices.jsx. */
    constructor ()
      ensures Valid() && View() == map[] && texts == SourceReplies
    {
      contexts := map[];
      texts := SourceReplies;
    }

    /** `AIModel(topic, coachingOption, conversation)` against the catalogue `options`. */
    method AIModel(backend: ChatBackend, options: seq<CoachingOption>, topic: string, coachingOption: string,
                   conversation: seq<Message>)
      returns (reply: Option<Message>)
      requires Valid()
      modifies this, backend, contexts.Values
      ensures Valid()
      ensures var out := Turn(texts, old(View()), old(backend.script), options, topic, coachingOption, conversation);
              && reply == out.reply && View() == out.view
              && backend.script == out.rest && backend.requests == old(backend.requests) + out.requests
    {
      if coachingOption == "" {
        return Some(AssistantSays(texts.noOption));
      }
      var option := FindOption(options, coachingOption);
      if option.None? {
        return Some(AssistantSays(texts.unknownOption));
      }
      var last := LastUserMessage(conversation);
      if MidResponse(last) {
        return None;
      }
      var key := ContextKey(topic, coachingOption);
      var ctx := Lookup(key);
      if ctx.askedQuestion && Trim(last) == "" {
        return None;
      }
      reply := Respond(backend, ctx, key, topic, coachingOption, conversation);
    }

    /** `conversationContexts.get(contextKey) || { ...fresh context }`. */
    method Lookup(key: string) returns (ctx: SessionContext)
      ensures ctx.Value() == SessionFor(View(), key)
      ensures key in contexts ==> ctx == contexts[key]
      ensures key !in contexts ==> fresh(ctx)
    {
      if key in contexts {
        ctx := contexts[key];
      } else {
        ctx := new SessionContext();
      }
    }

    /**
     * From the stage handler on: run it on `ctx`, and on success record the
     * response and `set` the context under `key`; an exception skips the `set`.
     */
    method Respond(backend: ChatBackend, ctx: SessionContext, key: string, topic: string, coachingOption: string,
                   conversation: seq<Message>)
      returns (reply: Option<Message>)
      requires Valid()
      requires key in contexts ==> ctx == contexts[key]
      requires key !in contexts ==> ctx !in contexts.Values
      modifies this, backend, ctx
      ensures Valid()
      ensures var out := Settle(texts, old(View()), key, coachingOption == LectureOption,
                                StepFor(texts, old(ctx.Value()), old(backend.script), topic, coachingOption, conversation));
              && reply == out.reply && View() == out.view
              && backend.script == out.rest && backend.requests == old(backend.requests) + out.requests
    {
      ghost var before := View();
      var response := ctx.Handle(texts, backend, topic, coachingOption, conversation);
      forall k | k in contexts && k != key
        ensures contexts[k].Value() == before[k]
      {
        assert contexts[k] != ctx;
      }
      ViewAfterChange(this, ctx, key, before);
      match response
      case Threw =>
        reply := Some(AssistantSays(texts.apology));
      case Replied(text) =>
        var final := NormalizeResponseLength(text, coachingOption == LectureOption);
        File(ctx, key, final, before);
        reply := Some(AssistantSays(final));
    }

    /**
     * On success: record the final response on `ctx` and `set` it under `key`.
     * `before` is the map as the handler found it; the handler's changes to
     * `ctx` are already visible through the map when `ctx` was filed.
     */
    method File(ctx: SessionContext, key: string, response: string, ghost before: map<string, Session>)
      requires Valid()
      requires key in contexts ==> ctx == contexts[key]
      requires key !in contexts ==> ctx !in contexts.Values
      requires before.Keys == contexts.Keys
      requires View() == if key in contexts then before[key := ctx.Value()] else before
      modifies this, ctx
      ensures Valid()
      ensures View() == before[key := Record(old(ctx.Value()), response)]
    {
      ctx.RecordResponse(response);
      forall k | k in contexts && k != key
        ensures contexts[k].Value() == before[k]
      {
        assert contexts[k] != ctx && old(View())[k] == before[k];
      }
      ghost var target := before[key := ctx.Value()];
      contexts := contexts[key := ctx];
      ViewAfterChange(this, ctx, key, target);
      assert target[key := ctx.Value()] == target;
      FilingKeepsInjective(old(contexts), key, ctx);
    }

    /** `resetConversationContext(topic, coachingOption)`: only that key is deleted. */
    method ResetConversationContext(topic: string, coachingOption: string)
      requires Valid()
      modifies this
      ensures Valid()
      ensures View() == Reset(old(View()), topic, coachingOption)
    {
      contexts := contexts - {ContextKey(topic, coachingOption)};
      assert forall k :: k in contexts ==> k in old(contexts) && contexts[k] == old(contexts)[k];
    }
  }

  /**
   * The view of `svc` is `before` with `ctx` read at `key`, when every other
   * filed context reads as in `before` (and nothing else is filed).
   */
  lemma ViewAfterChange(svc: ConversationService, ctx: SessionContext, key: string, before: map<string, Session>)
    requires svc.contexts.Keys == before.Keys
    requires key in svc.contexts ==> svc.contexts[key] == ctx
    requires forall k :: k in svc.contexts && k != key ==> svc.contexts[k].Value() == before[k]
    ensures svc.View() == if key in svc.contexts then before[key := ctx.Value()] else before
  {
  }

  /** No object is filed under two keys. */
  ghost predicate Injective(contexts: map<string, SessionContext>) {
    forall k1, k2 :: k1 in contexts && k2 in contexts && k1 != k2 ==> contexts[k1] != contexts[k2]
  }

  /** Filing an object under its own key, or an object not filed yet, keeps the map injective. */
  lemma FilingKeepsInjective(contexts: map<string, SessionContext>, key: string, ctx: SessionContext)
    requires Injective(contexts)
    requires key in contexts ==> contexts[key] == ctx
    requires key !in contexts ==> ctx !in contexts.Values
    ensures Injective(contexts[key := ctx])
  {
    forall k | k in contexts && k != key
      ensures contexts[k] != ctx
    {
    }
  }
}
