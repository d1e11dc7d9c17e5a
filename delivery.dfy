/** The `messageCreate` handler from end to end: admission, payload, the
    webhook post and, when the post fails, one failure reaction on the original
    message. The network is not modelled: the post's result and the
    reaction's success are inputs, and the handler returns the trace of
    actions it issued and the outcome it reached. */
module Delivery {
  import opened Wrappers
  import opened BridgeConfig
  import opened Admission
  import opened Payload

  /** Why a post got no HTTP response. */
  datatype TransportFailure = Timeout | NetworkError

  /** What the webhook post came back with. */
  datatype PostResult = Responded(status: int) | NoResponse(cause: TransportFailure)

  /** The HTTP client rejects every status outside 200..299. */
  predicate PostSucceeded(r: PostResult) {
    r.Responded? && 200 <= r.status < 300
  }

  /** An effect the handler has on the outside world. */
  datatype Action =
    | PostJson(url: string, body: OutboundEvent, contentType: string, timeoutMs: nat)
    | React(messageId: string, emoji: string)

  /** Where one message ends up: dropped by the filter, delivered, or failed
      (with whether the failure reaction itself went through). */
  datatype Outcome =
    | Dropped(reason: DropReason)
    | Delivered(status: int)
    | Failed(post: PostResult, reactionSucceeded: bool)

  const JsonContentType: string := "application/json"
  const PostTimeoutMs: nat := 10000
  const FailureEmoji: string := "\U{274C}"

  function PostCount(trace: seq<Action>): (n: nat)
    ensures n <= |trace|
    ensures n == 0 <==> forall i :: 0 <= i < |trace| ==> !trace[i].PostJson?
  {
    if trace == [] then 0
    else (if trace[0].PostJson? then 1 else 0) + PostCount(trace[1..])
  }

  function ReactionCount(trace: seq<Action>): (n: nat)
    ensures n <= |trace|
    ensures n == 0 <==> forall i :: 0 <= i < |trace| ==> !trace[i].React?
  {
    if trace == [] then 0
    else (if trace[0].React? then 1 else 0) + ReactionCount(trace[1..])
  }

  /** The counts of the trace left by a successful post. */
  lemma CountsAfterPost(trace: seq<Action>, p: Action)
    requires trace == [p] && p.PostJson?
    ensures PostCount(trace) == 1 && ReactionCount(trace) == 0
  {
  }

  /** The counts of the trace left by a failed post and its reaction. */
  lemma CountsAfterReaction(trace: seq<Action>, p: Action, r: Action)
    requires trace == [p, r] && p.PostJson? && r.React?
    ensures PostCount(trace) == 1 && ReactionCount(trace) == 1
  {
    assert trace[1..] == [r];
  }

  /** The post the handler issues for an admitted message. */
  function ForwardAction(m: InboundMessage, s: Settings, now: string): Action {
    PostJson(s.webhookUrl, BuildEvent(m, now), JsonContentType, PostTimeoutMs)
  }

  /** One invocation of the handler. Nothing leaves it but the trace and the outcome:
      a failed reaction is recorded in the outcome and goes no further.
      - A dropped message issues nothing, for the reason the filter gives.
      - An admitted message is posted exactly once, to the webhook URL, as its
        payload, with the JSON content type and the 10-second timeout.
      - After a successful post nothing else happens.
      - After a failed post exactly one failure reaction is attempted on the
        original message, and nothing is retried. */
  method HandleMessage(m: InboundMessage, s: Settings, now: string, post: PostResult, reactionSucceeds: bool)
    returns (trace: seq<Action>, outcome: Outcome)
    ensures !ShouldForward(m, s) ==> trace == [] && outcome == Dropped(Admit(m, s).reason)
    ensures PostCount(trace) == (if ShouldForward(m, s) then 1 else 0)
    ensures ReactionCount(trace) == (if ShouldForward(m, s) && !PostSucceeded(post) then 1 else 0)
    ensures ShouldForward(m, s) ==> trace[0] == ForwardAction(m, s, now)
    ensures outcome.Delivered? <==> ShouldForward(m, s) && PostSucceeded(post)
    ensures outcome.Delivered? ==> trace == [ForwardAction(m, s, now)] && outcome.status == post.status
    ensures outcome.Failed? <==> ShouldForward(m, s) && !PostSucceeded(post)
    ensures outcome.Failed? ==>
      trace == [ForwardAction(m, s, now), React(m.id, FailureEmoji)]
      && outcome == Failed(post, reactionSucceeds)
  {
    trace := [];
    var verdict := Admit(m, s);
    if verdict.Drop? {
      outcome := Dropped(verdict.reason);
      return;
    }
    var request := ForwardAction(m, s, now);
    trace := [request];
    if PostSucceeded(post) {
      CountsAfterPost(trace, request);
      outcome := Delivered(post.status);
    } else {
      var reaction := React(m.id, FailureEmoji);
      trace := [request, reaction];
      CountsAfterReaction(trace, request, reaction);
      outcome := Failed(post, reactionSucceeds);
    }
  }
}
