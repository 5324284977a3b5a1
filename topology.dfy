/** The broker topology as configuration, and the builder that compiles it into
    the ordered list of setup actions. Both services' builders record the same
    actions for the same calls; they differ only in how SetupAsync runs a
    declaration, which the PetTopology and UserTopology modules define. */
module Topology {
  import opened Amqp

  datatype BindingConfig = BindingConfig(exchange: string, routingKey: string)

  datatype ExchangeConfig = ExchangeConfig(name: string, kind: string, durable: bool, autoDelete: bool)

  datatype QueueConfig = QueueConfig(
    name: string, durable: bool, exclusive: bool, autoDelete: bool,
    bindings: seq<BindingConfig>, arguments: map<string, string>)

  datatype RabbitMqOptions = RabbitMqOptions(
    host: string, port: int, user: string, password: string, virtualHost: string,
    exchanges: seq<ExchangeConfig>, queues: seq<QueueConfig>)

  /** `new ExchangeConfig { Name = name }`. */
  function NewExchangeConfig(name: string): ExchangeConfig {
    ExchangeConfig(name, "topic", true, false)
  }

  /** `new QueueConfig { Name = name }`. */
  function NewQueueConfig(name: string): QueueConfig {
    QueueConfig(name, true, false, false, [], map[])
  }

  /** `new BindingConfig { Exchange = exchange }`. */
  function NewBindingConfig(exchange: string): BindingConfig {
    BindingConfig(exchange, "")
  }

  function DefaultOptions(): RabbitMqOptions {
    RabbitMqOptions("localhost", 5672, "guest", "guest", "/", [], [])
  }

  /** The configuration defaults: a topic exchange that is durable and not
      auto-deleted; a durable, non-exclusive, non-auto-deleted queue with no
      bindings and no arguments; the empty routing key; a local broker on the
      AMQP port with the guest account and no topology. */
  lemma ConfigDefaults(name: string)
    ensures var e := NewExchangeConfig(name); e.name == name && e.kind == "topic" && e.durable && !e.autoDelete
    ensures var q := NewQueueConfig(name);
      q.name == name && q.durable && !q.exclusive && !q.autoDelete && q.bindings == [] && q.arguments == map[]
    ensures NewBindingConfig(name).routingKey == "" && NewBindingConfig(name).exchange == name
    ensures var o := DefaultOptions();
      o.host == "localhost" && o.port == 5672 && o.user == "guest" && o.password == "guest"
      && o.virtualHost == "/" && o.exchanges == [] && o.queues == []
  {
  }

  /** One recorded setup action. */
  datatype Action =
    | DeclareExchangeAction(name: string, exchangeProps: ExchangeProps)
    | DeclareQueueAction(name: string, queueProps: QueueProps)
    | BindQueueAction(queue: string, exchange: string, routingKey: string)

  function ExchangeAction(e: ExchangeConfig): Action {
    DeclareExchangeAction(e.name, ExchangeProps(e.kind, e.durable, e.autoDelete))
  }

  function QueueDeclaration(q: QueueConfig): Action {
    DeclareQueueAction(q.name, QueueProps(q.durable, q.exclusive, q.autoDelete, q.arguments))
  }

  function BindingActions(queue: string, bs: seq<BindingConfig>): seq<Action> {
    seq(|bs|, m requires 0 <= m < |bs| => BindQueueAction(queue, bs[m].exchange, bs[m].routingKey))
  }

  /** A queue's declaration followed by its bindings. */
  function QueueBlock(q: QueueConfig): seq<Action> {
    [QueueDeclaration(q)] + BindingActions(q.name, q.bindings)
  }

  function ExchangeActions(es: seq<ExchangeConfig>): seq<Action> {
    seq(|es|, i requires 0 <= i < |es| => ExchangeAction(es[i]))
  }

  function QueueActions(qs: seq<QueueConfig>): seq<Action>
    decreases |qs|
  {
    if qs == [] then [] else QueueActions(qs[..|qs| - 1]) + QueueBlock(qs[|qs| - 1])
  }

  /** What FromConfiguration records. */
  function Compile(o: RabbitMqOptions): seq<Action> {
    ExchangeActions(o.exchanges) + QueueActions(o.queues)
  }

  lemma {:induction false} QueueActionsAppend(a: seq<QueueConfig>, b: seq<QueueConfig>)
    ensures QueueActions(a + b) == QueueActions(a) + QueueActions(b)
    decreases |b|
  {
    if b == [] {
      assert a + b == a;
    } else {
      var b' := b[..|b| - 1];
      var ab := a + b;
      assert ab[..|ab| - 1] == a + b' && ab[|ab| - 1] == b[|b| - 1];
      assert QueueActions(ab) == QueueActions(a + b') + QueueBlock(b[|b| - 1]);
      QueueActionsAppend(a, b');
    }
  }

  /** Extending the queues by one appends that queue's block. */
  lemma QueueActionsSnoc(qs: seq<QueueConfig>, k: nat)
    requires k < |qs|
    ensures QueueActions(qs[..k + 1]) == QueueActions(qs[..k]) + QueueBlock(qs[k])
  {
    var front := qs[..k + 1];
    assert front[..|front| - 1] == qs[..k] && front[|front| - 1] == qs[k];
  }

  /** Queue k's block sits between the blocks of the queues before it and after it. */
  lemma QueueActionsSplit(qs: seq<QueueConfig>, k: nat)
    requires k < |qs|
    ensures QueueActions(qs) == QueueActions(qs[..k]) + QueueBlock(qs[k]) + QueueActions(qs[k + 1..])
  {
    assert qs == qs[..k + 1] + qs[k + 1..];
    QueueActionsAppend(qs[..k + 1], qs[k + 1..]);
    QueueActionsSnoc(qs, k);
  }

  /** The layout FromConfiguration produces: first every exchange in order, then
      for each queue in order its declaration immediately followed by its
      bindings in order; `QueueOffset(o, k)` is where queue k's block starts. */
  function QueueOffset(o: RabbitMqOptions, k: nat): nat
    requires k <= |o.queues|
  {
    |o.exchanges| + |QueueActions(o.queues[..k])|
  }

  lemma CompileExchangesFirst(o: RabbitMqOptions)
    ensures |o.exchanges| <= |Compile(o)|
    ensures forall i :: 0 <= i < |o.exchanges| ==> Compile(o)[i] == ExchangeAction(o.exchanges[i])
  {
  }

  lemma CompileQueueBlock(o: RabbitMqOptions, k: nat)
    requires k < |o.queues|
    ensures var acts := Compile(o); var off := QueueOffset(o, k); var q := o.queues[k];
      off + 1 + |q.bindings| <= |acts|
      && acts[off] == QueueDeclaration(q)
      && (forall m :: 0 <= m < |q.bindings| ==>
            acts[off + 1 + m] == BindQueueAction(q.name, q.bindings[m].exchange, q.bindings[m].routingKey))
      && QueueOffset(o, k + 1) == off + 1 + |q.bindings|
  {
    var qs := o.queues;
    var q := qs[k];
    QueueActionsSplit(qs, k);
    QueueActionsSnoc(qs, k);
    var pre := ExchangeActions(o.exchanges) + QueueActions(qs[..k]);
    var blk := QueueBlock(q);
    var rest := QueueActions(qs[k + 1..]);
    assert Compile(o) == pre + blk + rest;
    ConcatAt(pre, blk, rest, 0);
    forall m | 0 <= m < |q.bindings|
      ensures Compile(o)[|pre| + 1 + m] == BindQueueAction(q.name, q.bindings[m].exchange, q.bindings[m].routingKey)
    {
      ConcatAt(pre, blk, rest, 1 + m);
      assert blk[1 + m] == BindingActions(q.name, q.bindings)[m];
    }
  }

  lemma ConcatAt<T>(p: seq<T>, q: seq<T>, r: seq<T>, i: nat)
    requires i < |q|
    ensures |p| + i < |p + q + r| && (p + q + r)[|p| + i] == q[i]
  {
  }

  /** Every recorded action comes from the configuration: a configured exchange,
      a configured queue, or one of a configured queue's bindings. */
  lemma {:induction false} QueueActionsFromConfig(qs: seq<QueueConfig>)
    ensures forall a :: a in QueueActions(qs) ==>
      exists q :: q in qs && (a == QueueDeclaration(q)
        || exists b :: b in q.bindings && a == BindQueueAction(q.name, b.exchange, b.routingKey))
    decreases |qs|
  {
    if qs != [] {
      var front := qs[..|qs| - 1];
      var q := qs[|qs| - 1];
      QueueActionsFromConfig(front);
      forall a | a in QueueActions(qs)
        ensures exists q :: q in qs && (a == QueueDeclaration(q)
                 || exists b :: b in q.bindings && a == BindQueueAction(q.name, b.exchange, b.routingKey))
      {
        if a in QueueActions(front) {
          var q' :| q' in front && (a == QueueDeclaration(q')
            || exists b :: b in q'.bindings && a == BindQueueAction(q'.name, b.exchange, b.routingKey));
          assert q' in qs;
        } else {
          assert a in QueueBlock(q);
          if a != QueueDeclaration(q) {
            var m :| 0 <= m < |q.bindings| && BindingActions(q.name, q.bindings)[m] == a;
            assert q.bindings[m] in q.bindings;
          }
        }
      }
    }
  }

  lemma CompileFromConfig(o: RabbitMqOptions)
    ensures forall a :: a in Compile(o) ==>
      (exists e :: e in o.exchanges && a == ExchangeAction(e))
      || (exists q :: q in o.queues && (a == QueueDeclaration(q)
            || exists b :: b in q.bindings && a == BindQueueAction(q.name, b.exchange, b.routingKey)))
  {
    QueueActionsFromConfig(o.queues);
    forall a | a in Compile(o) && a !in QueueActions(o.queues)
      ensures exists e :: e in o.exchanges && a == ExchangeAction(e)
    {
      var i :| 0 <= i < |ExchangeActions(o.exchanges)| && ExchangeActions(o.exchanges)[i] == a;
      assert o.exchanges[i] in o.exchanges;
    }
  }

  /** RabbitMqTopologyBuilder: the list of recorded actions. */
  class RabbitMqTopologyBuilder {
    var actions: seq<Action>

    constructor ()
      ensures actions == []
    {
      actions := [];
    }

    method DeclareExchange(name: string, kind: string := "topic", durable: bool := true, autoDelete: bool := false)
      returns (b: RabbitMqTopologyBuilder)
      modifies this
      ensures b == this
      ensures actions == old(actions) + [DeclareExchangeAction(name, ExchangeProps(kind, durable, autoDelete))]
    {
      actions := actions + [DeclareExchangeAction(name, ExchangeProps(kind, durable, autoDelete))];
      return this;
    }

    method DeclareQueue(name: string, durable: bool := true, exclusive: bool := false, autoDelete: bool := false,
                        arguments: map<string, string> := map[])
      returns (b: RabbitMqTopologyBuilder)
      modifies this
      ensures b == this
      ensures actions == old(actions) + [DeclareQueueAction(name, QueueProps(durable, exclusive, autoDelete, arguments))]
    {
      actions := actions + [DeclareQueueAction(name, QueueProps(durable, exclusive, autoDelete, arguments))];
      return this;
    }

    method BindQueue(queue: string, exchange: string, routingKey: string := "") returns (b: RabbitMqTopologyBuilder)
      modifies this
      ensures b == this
      ensures actions == old(actions) + [BindQueueAction(queue, exchange, routingKey)]
    {
      actions := actions + [BindQueueAction(queue, exchange, routingKey)];
      return this;
    }

    method FromConfiguration(options: RabbitMqOptions) returns (b: RabbitMqTopologyBuilder)
      modifies this
      ensures b == this
      ensures actions == old(actions) + Compile(options)
    {
      var es := options.exchanges;
      var i := 0;
      while i < |es|
        invariant 0 <= i <= |es|
        invariant actions == old(actions) + ExchangeActions(es[..i])
      {
        var e := es[i];
        var _ := DeclareExchange(e.name, e.kind, e.durable, e.autoDelete);
        assert ExchangeActions(es[..i + 1]) == ExchangeActions(es[..i]) + [ExchangeAction(e)];
        i := i + 1;
      }
      assert es[..i] == es;
      var qs := options.queues;
      var j := 0;
      while j < |qs|
        invariant 0 <= j <= |qs|
        invariant actions == old(actions) + ExchangeActions(es) + QueueActions(qs[..j])
      {
        AddQueue(qs[j]);
        QueueActionsSnoc(qs, j);
        j := j + 1;
      }
      assert qs[..j] == qs;
      return this;
    }

    /** One queue of FromConfiguration: its declaration, then its bindings. */
    method AddQueue(q: QueueConfig)
      modifies this
      ensures actions == old(actions) + QueueBlock(q)
    {
      var _ := DeclareQueue(q.name, q.durable, q.exclusive, q.autoDelete, q.arguments);
      var m := 0;
      while m < |q.bindings|
        invariant 0 <= m <= |q.bindings|
        invariant actions == old(actions) + [QueueDeclaration(q)] + BindingActions(q.name, q.bindings[..m])
      {
        var bc := q.bindings[m];
        var _ := BindQueue(q.name, bc.exchange, bc.routingKey);
        assert BindingActions(q.name, q.bindings[..m + 1])
          == BindingActions(q.name, q.bindings[..m]) + [BindQueueAction(q.name, bc.exchange, bc.routingKey)];
        m := m + 1;
      }
      assert q.bindings[..m] == q.bindings;
    }
  }
}
