/** The user service's SetupAsync, whose declarations try to recover from a 406
    by deleting and redeclaring, and RabbitMqTopologySetup.StartAsync, which
    retries the whole setup on a fresh connection up to ten times. */
module UserTopology {
  import opened Base
  import opened Amqp
  import opened Topology
  import PetTopology

  const MaxRetries: nat := 10
  const DelayMs: nat := 2000

  /** The catch filter: an OperationInterruptedException, of which
      AlreadyClosedException is a kind, with reply code 406. */
  predicate IsPreconditionFailed(o: Outcome<AmqpError>) {
    o.Fail? && o.error.replyCode == PreconditionFailed
  }

  /** One recorded action as written: on a 406 the declaration deletes the
      entity and declares it again, on the same channel. */
  function RunAction(c: Channel, a: Action): Reply {
    match a
    case DeclareExchangeAction(n, p) =>
      var (c1, o1) := ExchangeDeclare(c, n, p);
      if IsPreconditionFailed(o1) then
        var (c2, o2) := ExchangeDelete(c1, n);
        if o2.Fail? then (c2, o2) else ExchangeDeclare(c2, n, p)
      else (c1, o1)
    case DeclareQueueAction(n, p) =>
      var (c1, o1) := QueueDeclare(c, n, p);
      if IsPreconditionFailed(o1) then
        var (c2, o2) := QueueDelete(c1, n);
        if o2.Fail? then (c2, o2) else QueueDeclare(c2, n, p)
      else (c1, o1)
    case BindQueueAction(q, e, k) => QueueBind(c, q, e, k)
  }

  /** The actions in order, stopping at the first that throws. */
  function RunAll(c: Channel, acts: seq<Action>): Reply
    decreases |acts|
  {
    if acts == [] then (c, Pass)
    else
      var (c1, o1) := RunAction(c, acts[0]);
      if o1.Fail? then (c1, o1) else RunAll(c1, acts[1..])
  }

  /** The recovery is dead code: a 406 has already closed the channel, so the
      delete throws AlreadyClosedException with that 406 and nothing is deleted.
      Each action ends in the same broker and channel as the pet service's,
      which has no recovery, and fails exactly when that one fails. */
  lemma RecoveryNeverRepairs(c: Channel, a: Action)
    ensures RunAction(c, a).0 == PetTopology.RunAction(c, a).0
    ensures RunAction(c, a).1.Pass? <==> PetTopology.RunAction(c, a).1.Pass?
    ensures IsPreconditionFailed(PetTopology.RunAction(c, a).1) && IsOpen(c) ==>
      RunAction(c, a).1 == Fail(AlreadyClosed(PreconditionFailed))
  {
  }

  lemma {:induction false} RunAllAgrees(c: Channel, acts: seq<Action>)
    ensures RunAll(c, acts).0 == PetTopology.RunAll(c, acts).0
    ensures RunAll(c, acts).1.Pass? <==> PetTopology.RunAll(c, acts).1.Pass?
    decreases |acts|
  {
    if acts != [] {
      RecoveryNeverRepairs(c, acts[0]);
      RunAllAgrees(RunAction(c, acts[0]).0, acts[1..]);
    }
  }

  /** An exchange that exists as fanout and is configured as topic: the
      declaration fails with the 406 it meant to recover from, and the
      exchange stays a fanout exchange. */
  lemma ExchangeClashLeavesExchange()
    ensures var old_ := ExchangeProps("fanout", true, false);
      var b := Broker(map["user.events" := old_], map[], {});
      RunAction(Channel(b, None), DeclareExchangeAction("user.events", ExchangeProps("topic", true, false)))
        == (Channel(b, Some(PreconditionFailed)), Fail(AlreadyClosed(PreconditionFailed)))
  {
  }

  /** The recovery as intended: the delete and the second declaration go out on
      a newly opened channel, as the first channel is closed by the 406. */
  function CorrectedRunAction(c: Channel, a: Action): Reply {
    match a
    case DeclareExchangeAction(n, p) =>
      var (c1, o1) := ExchangeDeclare(c, n, p);
      if IsPreconditionFailed(o1) then
        var (c2, o2) := ExchangeDelete(Channel(c1.broker, None), n);
        if o2.Fail? then (c2, o2) else ExchangeDeclare(c2, n, p)
      else (c1, o1)
    case DeclareQueueAction(n, p) =>
      var (c1, o1) := QueueDeclare(c, n, p);
      if IsPreconditionFailed(o1) then
        var (c2, o2) := QueueDelete(Channel(c1.broker, None), n);
        if o2.Fail? then (c2, o2) else QueueDeclare(c2, n, p)
      else (c1, o1)
    case BindQueueAction(q, e, k) => QueueBind(c, q, e, k)
  }

  /** With the channel reopened, a declaration on an open channel succeeds for
      every name outside the reserved namespace, and for a reserved one only if
      it is already declared identically; afterwards the entity has the
      desired properties, the other kind of entity is untouched, and no binding
      is added (those of a replaced entity are dropped). */
  lemma CorrectedDeclareRepairs(c: Channel, n: string, ep: ExchangeProps, qp: QueueProps)
    requires IsOpen(c)
    ensures var b := c.broker; var (c', o) := CorrectedRunAction(c, DeclareExchangeAction(n, ep));
      (o.Pass? <==> !Reserved(n) || (n in b.exchanges && b.exchanges[n] == ep))
      && (o.Pass? ==> IsOpen(c') && c'.broker.exchanges == b.exchanges[n := ep] && c'.broker.queues == b.queues
                      && c'.broker.bindings <= b.bindings
                      && forall x :: x in b.bindings && x.exchange != n ==> x in c'.broker.bindings)
    ensures var b := c.broker; var (c', o) := CorrectedRunAction(c, DeclareQueueAction(n, qp));
      (o.Pass? <==> !Reserved(n) || (n in b.queues && b.queues[n] == qp))
      && (o.Pass? ==> IsOpen(c') && c'.broker.queues == b.queues[n := qp] && c'.broker.exchanges == b.exchanges
                      && c'.broker.bindings <= b.bindings
                      && forall x :: x in b.bindings && x.queue != n ==> x in c'.broker.bindings)
  {
    var b := c.broker;
    if n in b.exchanges && b.exchanges[n] != ep && !Reserved(n) {
      DeleteThenDeclare(Channel(b, None), n, ep, qp);
    }
    if n in b.queues && b.queues[n] != qp && !Reserved(n) {
      DeleteThenDeclare(Channel(b, None), n, ep, qp);
    }
  }

  /** SetupAsync: every recorded action in insertion order on one channel. */
  method SetupAsync(builder: RabbitMqTopologyBuilder, channel: Channel) returns (c: Channel, o: Outcome<AmqpError>)
    ensures (c, o) == RunAll(channel, builder.actions)
  {
    var acts := builder.actions;
    c := channel;
    var i := 0;
    while i < |acts|
      invariant 0 <= i <= |acts|
      invariant RunAll(c, acts[i..]) == RunAll(channel, acts)
    {
      assert acts[i..][0] == acts[i] && acts[i..][1..] == acts[i + 1..];
      var (c1, o1) := RunAction(c, acts[i]);
      if o1.Fail? {
        return c1, o1;
      }
      c := c1;
      i := i + 1;
    }
    o := Pass;
  }

  /** One attempt: a new connection and channel (if the connection opens),
      then the full setup; the broker keeps whatever the setup did before a
      failure. */
  function Attempt(b: Broker, acts: seq<Action>, connected: bool): (Broker, bool) {
    if !connected then (b, false)
    else
      var (c, o) := RunAll(Channel(b, None), acts);
      (c.broker, o.Pass?)
  }

  /** How StartAsync ended: the broker, whether it returned (rather than
      rethrew), the number of attempts made, and the time spent waiting. */
  datatype StartResult = StartResult(broker: Broker, succeeded: bool, attempts: nat, waitedMs: nat)

  /** The attempts from `attempt` on; `connects(k)` says whether attempt k
      manages to open its connection and channel. */
  function StartFrom(b: Broker, acts: seq<Action>, connects: nat -> bool, attempt: nat): StartResult
    requires 1 <= attempt <= MaxRetries
    decreases MaxRetries - attempt
  {
    var (b1, ok) := Attempt(b, acts, connects(attempt));
    if ok then StartResult(b1, true, attempt, 0)
    else if attempt == MaxRetries then StartResult(b1, false, attempt, 0)
    else
      var r := StartFrom(b1, acts, connects, attempt + 1);
      r.(waitedMs := r.waitedMs + DelayMs)
  }

  /** At most ten attempts; a rethrow only after the tenth; a 2000 ms wait
      after each failed attempt but the last; a return right after the first
      attempt that connects and sets everything up. */
  lemma {:induction false} StartSpec(b: Broker, acts: seq<Action>, connects: nat -> bool, attempt: nat)
    requires 1 <= attempt <= MaxRetries
    ensures var r := StartFrom(b, acts, connects, attempt);
      attempt <= r.attempts <= MaxRetries
      && r.waitedMs == DelayMs * (r.attempts - attempt)
      && (!r.succeeded ==> r.attempts == MaxRetries)
      && (r.succeeded ==> connects(r.attempts))
      && (Attempt(b, acts, connects(attempt)).1 ==> r == StartResult(Attempt(b, acts, connects(attempt)).0, true, attempt, 0))
    decreases MaxRetries - attempt
  {
    var (b1, ok) := Attempt(b, acts, connects(attempt));
    if !ok && attempt < MaxRetries {
      StartSpec(b1, acts, connects, attempt + 1);
    }
  }

  /** The consequence of the dead recovery: if the broker already has a
      configured exchange with other properties, no attempt can succeed, and
      StartAsync rethrows after all ten attempts and nine waits. */
  lemma {:induction false} ExchangeMismatchNeverStarts(b: Broker, acts: seq<Action>, connects: nat -> bool,
                                                       attempt: nat, i: nat)
    requires 1 <= attempt <= MaxRetries
    requires i < |acts| && acts[i].DeclareExchangeAction?
    requires acts[i].name in b.exchanges && b.exchanges[acts[i].name] != acts[i].exchangeProps
    ensures var r := StartFrom(b, acts, connects, attempt);
      !r.succeeded && r.attempts == MaxRetries && r.waitedMs == DelayMs * (MaxRetries - attempt)
      && acts[i].name in r.broker.exchanges && r.broker.exchanges[acts[i].name] == b.exchanges[acts[i].name]
    decreases MaxRetries - attempt
  {
    var n := acts[i].name;
    var c := Channel(b, None);
    RunAllAgrees(c, acts);
    PetTopology.ExchangeMismatchFails(c, acts, i);
    PetTopology.RunAllKeepsHolds(c, acts, DeclareExchangeAction(n, b.exchanges[n]));
    var (b1, ok) := Attempt(b, acts, connects(attempt));
    if attempt < MaxRetries {
      ExchangeMismatchNeverStarts(b1, acts, connects, attempt + 1, i);
    }
  }

  /** RabbitMqTopologySetup: the options it was configured with and the broker
      it provisions. */
  class RabbitMqTopologySetup {
    const options: RabbitMqOptions
    var broker: Broker

    constructor (options: RabbitMqOptions, broker: Broker)
      ensures this.options == options && this.broker == broker
    {
      this.options := options;
      this.broker := broker;
    }

    /** StartAsync: on each attempt a fresh builder from the options and a
        full setup; `succeeded` is false when the last failure is rethrown. */
    method StartAsync(connects: nat -> bool) returns (succeeded: bool, attempts: nat, waitedMs: nat)
      modifies this
      ensures var r := StartFrom(old(broker), Compile(options), connects, 1);
        broker == r.broker && succeeded == r.succeeded && attempts == r.attempts && waitedMs == r.waitedMs
    {
      var attempt := 1;
      waitedMs := 0;
      while true
        invariant 1 <= attempt <= MaxRetries
        invariant var r := StartFrom(broker, Compile(options), connects, attempt);
          StartFrom(old(broker), Compile(options), connects, 1) == r.(waitedMs := r.waitedMs + waitedMs)
        decreases MaxRetries - attempt
      {
        ghost var before := broker;
        var builder := new RabbitMqTopologyBuilder();
        var _ := builder.FromConfiguration(options);
        assert builder.actions == Compile(options);
        var ok := false;
        if connects(attempt) {
          var c, o := SetupAsync(builder, Channel(broker, None));
          broker := c.broker;
          ok := o.Pass?;
        }
        assert (broker, ok) == Attempt(before, Compile(options), connects(attempt));
        if ok {
          return true, attempt, waitedMs;
        }
        if attempt == MaxRetries {
          return false, attempt, waitedMs;
        }
        waitedMs := waitedMs + DelayMs;
        attempt := attempt + 1;
      }
    }
  }
}
