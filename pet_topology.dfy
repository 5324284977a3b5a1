/** The pet service's SetupAsync: the recorded actions run in order on one
    channel, with no recovery, and the first refusal ends the setup. */
module PetTopology {
  import opened Base
  import opened Amqp
  import opened Topology

  /** What one recorded action does on the channel. */
  function RunAction(c: Channel, a: Action): Reply {
    match a
    case DeclareExchangeAction(n, p) => ExchangeDeclare(c, n, p)
    case DeclareQueueAction(n, p) => QueueDeclare(c, n, p)
    case BindQueueAction(q, e, k) => QueueBind(c, q, e, k)
  }

  /** The actions in order, stopping at the first that throws. */
  function RunAll(c: Channel, acts: seq<Action>): Reply
    decreases |acts|
  {
    if acts == [] then (c, Pass)
    else
      var (c1, o1) := RunAction(c, acts[0]);
      if o1.Fail? then (c1, o1) else RunAll(c1, acts[1..])
  }

  /** The broker already has what the action declares or binds (a binding
      together with both of its ends). */
  predicate Holds(b: Broker, a: Action) {
    match a
    case DeclareExchangeAction(n, p) => n in b.exchanges && b.exchanges[n] == p
    case DeclareQueueAction(n, p) => n in b.queues && b.queues[n] == p
    case BindQueueAction(q, e, k) => q in b.queues && e in b.exchanges && Binding(q, e, k) in b.bindings
  }

  /** The broker lets the action through: a declaration identical to the
      existing entity, or of a missing entity with an unreserved name; a bind
      between a queue and an exchange that exist. */
  predicate Allowed(b: Broker, a: Action) {
    match a
    case DeclareExchangeAction(n, p) => if n in b.exchanges then b.exchanges[n] == p else !Reserved(n)
    case DeclareQueueAction(n, p) => if n in b.queues then b.queues[n] == p else !Reserved(n)
    case BindQueueAction(q, e, _) => q in b.queues && e in b.exchanges
  }

  /** On an open channel an action succeeds exactly when the broker allows it,
      and then the broker has what it declares and the channel stays open; a
      refusal leaves the broker as it was and closes the channel with the
      refusal's own code (403, 404 or 406). */
  lemma RunActionSpec(c: Channel, a: Action)
    requires IsOpen(c)
    ensures var (c', o) := RunAction(c, a);
      (o.Pass? <==> Allowed(c.broker, a))
      && (o.Pass? ==> IsOpen(c') && Holds(c'.broker, a))
      && (o.Fail? ==> c'.broker == c.broker && o.error.ChannelError? && c'.closeCode == Some(o.error.replyCode)
                      && o.error.replyCode in {AccessRefused, NotFound, PreconditionFailed})
  {
  }

  /** No pet-service action undoes what the broker already has. */
  lemma ActionKeepsHolds(c: Channel, a: Action, x: Action)
    requires Holds(c.broker, x)
    ensures Holds(RunAction(c, a).0.broker, x)
  {
  }

  lemma {:induction false} RunAllKeepsHolds(c: Channel, acts: seq<Action>, x: Action)
    requires Holds(c.broker, x)
    ensures Holds(RunAll(c, acts).0.broker, x)
    decreases |acts|
  {
    if acts != [] {
      ActionKeepsHolds(c, acts[0], x);
      var (c1, o1) := RunAction(c, acts[0]);
      if o1.Pass? {
        RunAllKeepsHolds(c1, acts[1..], x);
      }
    }
  }

  /** Running a concatenation is running the first part and, if it passed, the second. */
  lemma {:induction false} RunAllAppend(c: Channel, a: seq<Action>, b: seq<Action>)
    ensures RunAll(c, a + b) == (var (c1, o1) := RunAll(c, a); if o1.Fail? then (c1, o1) else RunAll(c1, b))
    decreases |a|
  {
    if a == [] {
      assert a + b == b;
    } else {
      assert (a + b)[0] == a[0] && (a + b)[1..] == a[1..] + b;
      var (c1, o1) := RunAction(c, a[0]);
      if o1.Pass? {
        RunAllAppend(c1, a[1..], b);
      }
    }
  }

  /** A setup that succeeds on an open channel leaves the channel open and the
      broker with every exchange, queue and binding it ran. */
  lemma {:induction false} SetupEstablishes(c: Channel, acts: seq<Action>)
    requires IsOpen(c)
    ensures var (c', o) := RunAll(c, acts);
      o.Pass? ==> IsOpen(c') && forall x :: x in acts ==> Holds(c'.broker, x)
    decreases |acts|
  {
    if acts != [] {
      RunActionSpec(c, acts[0]);
      var (c1, o1) := RunAction(c, acts[0]);
      if o1.Pass? {
        SetupEstablishes(c1, acts[1..]);
        RunAllKeepsHolds(c1, acts[1..], acts[0]);
        assert forall x :: x in acts ==> x == acts[0] || x in acts[1..];
      }
    }
  }

  /** A setup that fails stopped at some action: everything before it ran,
      the broker refused that one, and nothing after it ran. */
  lemma {:induction false} SetupFailsAt(c: Channel, acts: seq<Action>)
    requires IsOpen(c)
    ensures var (c', o) := RunAll(c, acts);
      o.Fail? ==> exists i :: (0 <= i < |acts| && RunAll(c, acts[..i]).1.Pass?
                               && IsOpen(RunAll(c, acts[..i]).0) && !Allowed(RunAll(c, acts[..i]).0.broker, acts[i])
                               && c'.broker == RunAll(c, acts[..i]).0.broker)
    decreases |acts|
  {
    var (c', o) := RunAll(c, acts);
    if o.Fail? {
      RunActionSpec(c, acts[0]);
      var (c1, o1) := RunAction(c, acts[0]);
      assert acts[..0] == [];
      if o1.Pass? {
        SetupFailsAt(c1, acts[1..]);
        var i :| 0 <= i < |acts[1..]| && RunAll(c1, acts[1..][..i]).1.Pass?
          && IsOpen(RunAll(c1, acts[1..][..i]).0) && !Allowed(RunAll(c1, acts[1..][..i]).0.broker, acts[1..][i])
          && c'.broker == RunAll(c1, acts[1..][..i]).0.broker;
        assert acts[..i + 1][0] == acts[0] && acts[..i + 1][1..] == acts[1..][..i];
        assert RunAll(c, acts[..i + 1]) == RunAll(c1, acts[1..][..i]);
      }
    }
  }

  /** There is no recovery: if the broker has exchange `name` with
      properties other than those that action `i` declares, the setup fails. */
  lemma {:induction false} ExchangeMismatchFails(c: Channel, acts: seq<Action>, i: nat)
    requires i < |acts| && acts[i].DeclareExchangeAction?
    requires acts[i].name in c.broker.exchanges && c.broker.exchanges[acts[i].name] != acts[i].exchangeProps
    ensures RunAll(c, acts).1.Fail?
    decreases i
  {
    var n := acts[i].name;
    var x := DeclareExchangeAction(n, c.broker.exchanges[n]);
    ActionKeepsHolds(c, acts[0], x);
    var (c1, o1) := RunAction(c, acts[0]);
    if i > 0 && o1.Pass? {
      ExchangeMismatchFails(c1, acts[1..], i - 1);
    }
  }

  lemma {:induction false} QueueMismatchFails(c: Channel, acts: seq<Action>, i: nat)
    requires i < |acts| && acts[i].DeclareQueueAction?
    requires acts[i].name in c.broker.queues && c.broker.queues[acts[i].name] != acts[i].queueProps
    ensures RunAll(c, acts).1.Fail?
    decreases i
  {
    var n := acts[i].name;
    var x := DeclareQueueAction(n, c.broker.queues[n]);
    ActionKeepsHolds(c, acts[0], x);
    var (c1, o1) := RunAction(c, acts[0]);
    if i > 0 && o1.Pass? {
      QueueMismatchFails(c1, acts[1..], i - 1);
    }
  }

  /** On a broker that already has everything, a run changes nothing. */
  lemma {:induction false} HoldingRunIsNoop(c: Channel, acts: seq<Action>)
    requires IsOpen(c) && forall x :: x in acts ==> Holds(c.broker, x)
    ensures RunAll(c, acts) == (c, Pass)
    decreases |acts|
  {
    if acts != [] {
      var b := c.broker;
      assert Holds(b, acts[0]) by {
        assert acts[0] in acts;
      }
      match acts[0] {
        case DeclareExchangeAction(n, p) =>
          assert b.(exchanges := b.exchanges[n := p]) == b;
          assert c.(broker := b) == c;
        case DeclareQueueAction(n, p) =>
          assert b.(queues := b.queues[n := p]) == b;
          assert c.(broker := b) == c;
        case BindQueueAction(q, e, k) =>
          assert b.(bindings := b.bindings + {Binding(q, e, k)}) == b;
          assert c.(broker := b) == c;
      }
      assert RunAction(c, acts[0]) == (c, Pass);
      HoldingRunIsNoop(c, acts[1..]);
    }
  }

  /** Running a successful setup again on the same open channel succeeds and
      changes nothing. */
  lemma RerunIsNoop(c: Channel, acts: seq<Action>)
    requires IsOpen(c) && RunAll(c, acts).1.Pass?
    ensures var c' := RunAll(c, acts).0; RunAll(c', acts) == (c', Pass)
  {
    SetupEstablishes(c, acts);
    HoldingRunIsNoop(RunAll(c, acts).0, acts);
  }

  /** SetupAsync: every recorded action in insertion order on one channel. */
  method SetupAsync(builder: RabbitMqTopologyBuilder, channel: Channel) returns (c: Channel, o: Outcome<AmqpError>)
    ensures (c, o) == RunAll(channel, builder.actions)
  {
    var acts := builder.actions;
    c := channel;
    var i := 0;
    while i < |acts|
      invariant 0 <= i <= |acts|
      invariant RunAll(c, acts[i..]) == RunAll(channel, acts)
    {
      assert acts[i..][0] == acts[i] && acts[i..][1..] == acts[i + 1..];
      var (c1, o1) := RunAction(c, acts[i]);
      if o1.Fail? {
        return c1, o1;
      }
      c := c1;
      i := i + 1;
    }
    o := Pass;
  }
}
