// The client's outbox under the relay's answers: what each answer does to the
// queued row, and why a row was dropped.
module RelayOutbox {
  import opened Wrappers
  import opened Relay
  import opened RelayProtocol
  import DB = ClientDatabase

  /** An answer concerns the row of its reference only: a stored message leaves
      the outbox, an internal error costs one more retry, any other refusal drops
      the row. An answer to a row that is gone changes nothing. */
  lemma WhatAnAnswerDoes(world: World, response: Response, ref: Ref)
    requires response in world.responses
    ensures
      var next := Next(world, Receive(response));
      var own := (response.input.deviceId, response.input.clientMessageId);
      && next == world.(outbox := next.outbox, dropped := next.dropped)
      && (ref != own || ref !in world.outbox ==>
            (ref in next.outbox <==> ref in world.outbox) && (ref in next.dropped <==> ref in world.dropped)
            && (ref in world.outbox ==> next.outbox[ref] == world.outbox[ref]))
      && (ref == own && ref in world.outbox ==>
            if response.result == Err(Internal) then
              ref in next.outbox && next.dropped == world.dropped
              && next.outbox[ref] == DB.OutboxRow(world.outbox[ref].conversationId, world.outbox[ref].payload,
                                                  world.outbox[ref].createdAt, world.outbox[ref].retryCount + 1)
            else
              ref !in next.outbox
              && next.dropped == if response.result.Ok? then world.dropped else world.dropped + {ref})
  {}

  /** A send that fails before it is answered costs one more retry when the
      failure is retryable, and the row otherwise. */
  lemma WhatAFailureDoes(world: World, failed: Ref, retryable: bool, ref: Ref)
    ensures
      var next := Next(world, Fail(failed, retryable));
      && next == world.(outbox := next.outbox, dropped := next.dropped)
      && (ref != failed || ref !in world.outbox ==>
            (ref in next.outbox <==> ref in world.outbox) && (ref in next.dropped <==> ref in world.dropped))
      && (ref == failed && ref in world.outbox ==>
            if retryable then ref in next.outbox && next.outbox[ref].retryCount == world.outbox[ref].retryCount + 1
            else ref !in next.outbox && ref in next.dropped)
  {}

  /** The step refuses the reference for good. */
  ghost predicate Refuses(world: World, step: Step, ref: Ref) {
    || (step.Receive? && step.response in world.responses
        && (step.response.input.deviceId, step.response.input.clientMessageId) == ref
        && step.response.result.Err? && step.response.result.error != Internal)
    || step == Fail(ref, false)
  }

  ghost predicate RefusedInRun(world: World, steps: seq<Step>, ref: Ref)
    decreases steps
  {
    steps != [] && (Refuses(world, steps[0], ref) || RefusedInRun(Next(world, steps[0]), steps[1..], ref))
  }

  lemma StepDrops(world: World, step: Step, ref: Ref)
    ensures ref in Next(world, step).dropped ==> ref in world.dropped || Refuses(world, step, ref)
  {}

  /** In every run, what was dropped had been refused for good: by an answer
      other than an internal error, or by a failure that is not retryable. */
  lemma {:induction false} DroppedWasRefused(world: World, steps: seq<Step>, ref: Ref)
    requires ref in Run(world, steps).dropped
    ensures ref in world.dropped || RefusedInRun(world, steps, ref)
    decreases steps
  {
    if steps != [] {
      DroppedWasRefused(Next(world, steps[0]), steps[1..], ref);
      StepDrops(world, steps[0], ref);
    }
  }

  /** Queueing a row keeps the retries of one that is there already and starts
      with none; no other row changes. */
  lemma WhatQueueingDoes<K, P>(outbox: DB.Outbox<K, P>, key: K, conversationId: string, payload: P, createdAt: string,
      other: K)
    ensures
      var next := DB.Enqueued(outbox, key, conversationId, payload, createdAt);
      && key in next
      && next[key] == DB.OutboxRow(conversationId, payload, createdAt,
                                   if key in outbox then outbox[key].retryCount else 0)
      && (other != key ==> (other in next <==> other in outbox) && (other in outbox ==> next[other] == outbox[other]))
  {}
}
