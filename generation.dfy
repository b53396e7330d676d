/**
 * `generateCompleteResponse` of services/GlobalServices.jsx: ask the model for
 * a reply, and while the reply looks cut off and attempts remain, append a
 * "your previous response was incomplete" system note to the messages, raise
 * the token budget by 100 and ask again.
 */
module Generation {
  import opened Chat
  import opened ResponseText

  /** `MAX_ATTEMPTS`. */
  const MaxAttempts: nat := 2

  /** How much `maxTokens` grows after each incomplete reply. */
  const TokenStep: int := 100

  /** The outcome of the loop, the requests it sent and the replies left over. */
  datatype Run = Run(result: Generated, requests: seq<Request>, rest: seq<Reply>)

  /** The reply to the `k`-th call made against `script`. */
  function ReplyAt(script: seq<Reply>, k: nat): Reply {
    if k < |script| then script[k] else Fails
  }

  /** The replies left after `n` calls. */
  function Drop(script: seq<Reply>, n: nat): seq<Reply> {
    if n <= |script| then script[n..] else []
  }

  /** `k` copies of the retry note. */
  function Notes(k: nat): (notes: seq<Outbound>)
    ensures |notes| == k && forall i :: 0 <= i < k ==> notes[i] == Instruct(RetryNote)
  {
    seq(k, i => Instruct(RetryNote))
  }

  lemma ReplyAtAdvance(script: seq<Reply>, k: nat)
    ensures ReplyAt(Advance(script), k) == ReplyAt(script, k + 1)
    ensures Drop(Advance(script), k) == Drop(script, k + 1)
  {
  }

  /** One more request in the log, seen from both sides of the loop invariants. */
  lemma LogGrows(log: seq<Request>, request: Request, later: seq<Request>)
    ensures log + ([request] + later) == (log + [request]) + later
  {
  }

  /**
   * The loop with `attemptsLeft` iterations to go, the current `messages` and
   * `maxTokens`, and `responseText` as it stands, for a completeness test
   * `incomplete` (the source's is `IsResponseIncomplete`).
   */
  function Generate(incomplete: string -> bool, script: seq<Reply>, messages: seq<Outbound>, maxTokens: int,
                    attemptsLeft: nat, responseText: string): (run: Run)
    decreases attemptsLeft
  {
    if attemptsLeft == 0 then Run(Replied(responseText), [], script)
    else
      var request := Request(messages, maxTokens);
      match NextReply(script)
      case Fails => Run(Threw, [request], Advance(script))
      case Answered(text) =>
        if !incomplete(text) then Run(Replied(text), [request], Advance(script))
        else
          var later := Generate(incomplete, Advance(script), messages + [Instruct(RetryNote)], maxTokens + TokenStep,
                                attemptsLeft - 1, text);
          Run(later.result, [request] + later.requests, later.rest)
  }

  /** One `generateCompleteResponse(messages, maxTokens)` call, with the completeness test `isResponseIncomplete`. */
  function Ask(script: seq<Reply>, messages: seq<Outbound>, maxTokens: int): Run {
    Generate(IsResponseIncomplete, script, messages, maxTokens, MaxAttempts, "")
  }

  /**
   * At most one call per iteration left, at least one when any is left, and
   * the replies used are gone from the script.
   */
  lemma {:induction false} GenerateShape(incomplete: string -> bool, script: seq<Reply>, messages: seq<Outbound>, maxTokens: int,
                                         attemptsLeft: nat, responseText: string)
    ensures var run := Generate(incomplete, script, messages, maxTokens, attemptsLeft, responseText);
            && |run.requests| <= attemptsLeft
            && (attemptsLeft > 0 ==> |run.requests| > 0)
            && run.rest == Drop(script, |run.requests|)
    decreases attemptsLeft
  {
    if attemptsLeft > 0 && NextReply(script).Answered? && incomplete(NextReply(script).content) {
      var text := NextReply(script).content;
      var later := Generate(incomplete, Advance(script), messages + [Instruct(RetryNote)], maxTokens + TokenStep,
                            attemptsLeft - 1, text);
      GenerateShape(incomplete, Advance(script), messages + [Instruct(RetryNote)], maxTokens + TokenStep,
                    attemptsLeft - 1, text);
      ReplyAtAdvance(script, |later.requests|);
    }
  }

  /**
   * The first request carries the messages as given; the `k`-th retry carries
   * `k` retry notes after them and a budget raised by `100 * k`.
   */
  lemma {:induction false} GenerateRequests(incomplete: string -> bool, script: seq<Reply>, messages: seq<Outbound>, maxTokens: int,
                                            attemptsLeft: nat, responseText: string)
    ensures var run := Generate(incomplete, script, messages, maxTokens, attemptsLeft, responseText);
            forall k :: 0 <= k < |run.requests| ==>
              run.requests[k] == Request(messages + Notes(k), maxTokens + TokenStep * k)
    decreases attemptsLeft
  {
    if attemptsLeft > 0 && NextReply(script).Answered? && incomplete(NextReply(script).content) {
      var text := NextReply(script).content;
      var later := Generate(incomplete, Advance(script), messages + [Instruct(RetryNote)], maxTokens + TokenStep,
                            attemptsLeft - 1, text);
      GenerateRequests(incomplete, Advance(script), messages + [Instruct(RetryNote)], maxTokens + TokenStep,
                       attemptsLeft - 1, text);
      ShiftedRequests(messages, maxTokens, later.requests);
    } else if attemptsLeft > 0 {
      assert messages + Notes(0) == messages;
    }
  }

  /** Requests built on one more note and one more step are the next ones. */
  lemma ShiftedRequests(messages: seq<Outbound>, maxTokens: int, later: seq<Request>)
    requires forall k :: 0 <= k < |later| ==>
               later[k] == Request(messages + [Instruct(RetryNote)] + Notes(k), maxTokens + TokenStep + TokenStep * k)
    ensures forall k :: 0 <= k < |later| + 1 ==>
              ([Request(messages, maxTokens)] + later)[k] == Request(messages + Notes(k), maxTokens + TokenStep * k)
  {
    forall k | 0 <= k < |later| + 1
      ensures ([Request(messages, maxTokens)] + later)[k] == Request(messages + Notes(k), maxTokens + TokenStep * k)
    {
      if k > 0 {
        assert [Instruct(RetryNote)] + Notes(k - 1) == Notes(k);
      } else {
        assert messages + Notes(0) == messages;
      }
    }
  }

  /** Every reply before the last one obtained was an incomplete answer. */
  lemma {:induction false} GenerateRetriesOnlyIncomplete(incomplete: string -> bool, script: seq<Reply>, messages: seq<Outbound>, maxTokens: int,
                                                         attemptsLeft: nat, responseText: string)
    ensures var run := Generate(incomplete, script, messages, maxTokens, attemptsLeft, responseText);
            forall k :: 0 <= k < |run.requests| - 1 ==>
              ReplyAt(script, k).Answered? && incomplete(ReplyAt(script, k).content)
    decreases attemptsLeft
  {
    if attemptsLeft > 0 && NextReply(script).Answered? && incomplete(NextReply(script).content) {
      var text := NextReply(script).content;
      var later := Generate(incomplete, Advance(script), messages + [Instruct(RetryNote)], maxTokens + TokenStep,
                            attemptsLeft - 1, text);
      GenerateRetriesOnlyIncomplete(incomplete, Advance(script), messages + [Instruct(RetryNote)], maxTokens + TokenStep,
                                    attemptsLeft - 1, text);
      forall k | 0 < k < |later.requests|
        ensures ReplyAt(script, k).Answered? && incomplete(ReplyAt(script, k).content)
      {
        ReplyAtAdvance(script, k - 1);
      }
      assert ReplyAt(script, 0) == NextReply(script);
    }
  }

  /**
   * The result is the last reply obtained, or the exception it was; with no
   * call at all it is the text as it stood; and the loop stops short of its
   * bound only on a complete reply or an exception.
   */
  lemma {:induction false} GenerateReturnsLastReply(incomplete: string -> bool, script: seq<Reply>, messages: seq<Outbound>, maxTokens: int,
                                                    attemptsLeft: nat, responseText: string)
    ensures var run := Generate(incomplete, script, messages, maxTokens, attemptsLeft, responseText);
            && (run.result == Threw <==> (|run.requests| > 0 && ReplyAt(script, |run.requests| - 1) == Fails))
            && (run.result.Replied? && |run.requests| > 0 ==>
                  ReplyAt(script, |run.requests| - 1) == Answered(run.result.text))
            && (|run.requests| == 0 ==> run.result == Replied(responseText))
            && (|run.requests| < attemptsLeft && run.result.Replied? ==> !incomplete(run.result.text))
    decreases attemptsLeft
  {
    var run := Generate(incomplete, script, messages, maxTokens, attemptsLeft, responseText);
    if attemptsLeft > 0 {
      var first := NextReply(script);
      assert ReplyAt(script, 0) == first;
      if first.Answered? && incomplete(first.content) {
        var later := Generate(incomplete, Advance(script), messages + [Instruct(RetryNote)], maxTokens + TokenStep,
                              attemptsLeft - 1, first.content);
        assert run == Run(later.result, [Request(messages, maxTokens)] + later.requests, later.rest);
        GenerateReturnsLastReply(incomplete, Advance(script), messages + [Instruct(RetryNote)], maxTokens + TokenStep,
                                 attemptsLeft - 1, first.content);
        if |later.requests| > 0 {
          ReplyAtAdvance(script, |later.requests| - 1);
          assert ReplyAt(script, |run.requests| - 1) == ReplyAt(Advance(script), |later.requests| - 1);
        } else {
          assert run.result == Replied(first.content);
        }
      } else if first.Answered? {
        assert run == Run(Replied(first.content), [Request(messages, maxTokens)], Advance(script));
      } else {
        assert run == Run(Threw, [Request(messages, maxTokens)], Advance(script));
      }
    } else {
      assert run == Run(Replied(responseText), [], script);
    }
  }

  /**
   * The loop itself: its own copies of the messages and the token budget
   * grow by a retry note and 100 tokens between calls, and an exception from
   * the client leaves the loop.
   */
  method GenerateCompleteResponse(backend: ChatBackend, messages: seq<Outbound>, maxTokens: int)
    returns (result: Generated)
    modifies backend
    ensures var run := Generate(IsResponseIncomplete, old(backend.script), messages, maxTokens, MaxAttempts, "");
            && result == run.result
            && backend.requests == old(backend.requests) + run.requests
            && backend.script == run.rest
  {
    ghost var run := Generate(IsResponseIncomplete, backend.script, messages, maxTokens, MaxAttempts, "");
    var current := messages;
    var budget := maxTokens;
    var responseText := "";
    var attempts := 0;
    while attempts < MaxAttempts
      invariant 0 <= attempts <= MaxAttempts
      invariant var later := Generate(IsResponseIncomplete, backend.script, current, budget, MaxAttempts - attempts, responseText);
                && run.result == later.result && run.rest == later.rest
                && old(backend.requests) + run.requests == backend.requests + later.requests
    {
      ghost var later := Generate(IsResponseIncomplete, backend.script, current, budget, MaxAttempts - attempts, responseText);
      ghost var logged := backend.requests;
      var request := Request(current, budget);
      var reply := backend.Create(request);
      if reply.Fails? {
        assert later.requests == [request];
        return Threw;
      }
      responseText := reply.content;
      if !IsResponseIncomplete(responseText) {
        assert later.requests == [request];
        return Replied(responseText);
      }
      ghost var next := Generate(IsResponseIncomplete, backend.script, current + [Instruct(RetryNote)], budget + TokenStep,
                                 MaxAttempts - attempts - 1, responseText);
      assert later.requests == [request] + next.requests;
      LogGrows(logged, request, next.requests);
      current := current + [Instruct(RetryNote)];
      budget := budget + TokenStep;
      attempts := attempts + 1;
    }
    assert backend.requests + [] == backend.requests;
    return Replied(responseText);
  }

  /**
   * A model that keeps answering with cut-off text is asked exactly twice, and
   * the second answer is what the loop returns.
   */
  lemma IncompleteRepliesExhaustAttempts(script: seq<Reply>, messages: seq<Outbound>, maxTokens: int)
    requires |script| >= 2
    requires forall k :: 0 <= k < |script| ==> script[k].Answered? && IsResponseIncomplete(script[k].content)
    ensures var run := Ask(script, messages, maxTokens);
            && |run.requests| == 2
            && run.result == Replied(script[1].content)
            && run.requests[1] == Request(messages + [Instruct(RetryNote)], maxTokens + 100)
  {
    var run := Ask(script, messages, maxTokens);
    assert ReplyAt(script, 0) == script[0] && ReplyAt(script, 1) == script[1];
    assert Notes(1) == [Instruct(RetryNote)];
  }

  /** A complete first reply is returned after a single call with the request as given. */
  lemma CompleteFirstReplyStops(script: seq<Reply>, messages: seq<Outbound>, maxTokens: int)
    requires |script| >= 1 && script[0].Answered? && !IsResponseIncomplete(script[0].content)
    ensures var run := Ask(script, messages, maxTokens);
            && run.requests == [Request(messages, maxTokens)]
            && run.result == Replied(script[0].content)
            && run.rest == script[1..]
  {
  }
}
