/** The part of an AMQP 0-9-1 broker the topology code talks to, as RabbitMQ
    implements it: exchanges, queues and bindings, declared and deleted over one
    channel.

    - exchange.declare / queue.declare of an entity that exists with other
      properties is refused with reply code 406 PRECONDITION_FAILED; one that
      would create an entity in the reserved "amq." namespace is refused with
      403 ACCESS_REFUSED (AMQP 0-9-1, the exchange and queue classes), while an
      identical declaration of an existing one succeeds.
    - queue.bind naming a missing queue or exchange is refused with 404 NOT_FOUND.
    - Each of these refusals is a channel exception: the channel is closed, and
      every later call on it throws AlreadyClosedException, whose ShutdownReason
      is the reply that closed it.
    - exchange.delete of an "amq." exchange is refused with 403; otherwise
      exchange.delete / queue.delete of a missing entity succeeds, as RabbitMQ
      treats deletion as idempotent; deleting also removes its bindings. */
module Amqp {
  import opened Base

  const AccessRefused: int := 403
  const NotFound: int := 404
  const PreconditionFailed: int := 406

  datatype ExchangeProps = ExchangeProps(kind: string, durable: bool, autoDelete: bool)

  /** `arguments`: the x-arguments table; a null table is the empty one. */
  datatype QueueProps = QueueProps(durable: bool, exclusive: bool, autoDelete: bool, arguments: map<string, string>)

  datatype Binding = Binding(queue: string, exchange: string, routingKey: string)

  datatype Broker = Broker(exchanges: map<string, ExchangeProps>, queues: map<string, QueueProps>, bindings: set<Binding>)

  /** A channel on the broker; `closeCode` is the reply code that closed it. */
  datatype Channel = Channel(broker: Broker, closeCode: Option<int>)

  /** OperationInterruptedException (a channel exception closing the channel) and
      AlreadyClosedException (a call on a closed channel); both carry the reply
      code of the close. */
  datatype AmqpError = ChannelError(replyCode: int) | AlreadyClosed(replyCode: int)

  type Reply = (Channel, Outcome<AmqpError>)

  predicate IsOpen(c: Channel) {
    c.closeCode.None?
  }

  predicate Reserved(name: string) {
    |name| >= 4 && name[..4] == "amq."
  }

  function Refuse(c: Channel, code: int): Reply {
    (Channel(c.broker, Some(code)), Fail(ChannelError(code)))
  }

  function OnClosed(c: Channel): Reply
    requires !IsOpen(c)
  {
    (c, Fail(AlreadyClosed(c.closeCode.value)))
  }

  function ExchangeDeclare(c: Channel, name: string, p: ExchangeProps): Reply {
    if !IsOpen(c) then OnClosed(c)
    else if name in c.broker.exchanges && c.broker.exchanges[name] != p then Refuse(c, PreconditionFailed)
    else if name !in c.broker.exchanges && Reserved(name) then Refuse(c, AccessRefused)
    else (c.(broker := c.broker.(exchanges := c.broker.exchanges[name := p])), Pass)
  }

  function QueueDeclare(c: Channel, name: string, p: QueueProps): Reply {
    if !IsOpen(c) then OnClosed(c)
    else if name in c.broker.queues && c.broker.queues[name] != p then Refuse(c, PreconditionFailed)
    else if name !in c.broker.queues && Reserved(name) then Refuse(c, AccessRefused)
    else (c.(broker := c.broker.(queues := c.broker.queues[name := p])), Pass)
  }

  function ExchangeDelete(c: Channel, name: string): Reply {
    if !IsOpen(c) then OnClosed(c)
    else if Reserved(name) then Refuse(c, AccessRefused)
    else
      var b := c.broker;
      (c.(broker := Broker(b.exchanges - {name}, b.queues, set x | x in b.bindings && x.exchange != name)), Pass)
  }

  function QueueDelete(c: Channel, name: string): Reply {
    if !IsOpen(c) then OnClosed(c)
    else
      var b := c.broker;
      (c.(broker := Broker(b.exchanges, b.queues - {name}, set x | x in b.bindings && x.queue != name)), Pass)
  }

  function QueueBind(c: Channel, queue: string, exchange: string, routingKey: string): Reply {
    if !IsOpen(c) then OnClosed(c)
    else if queue !in c.broker.queues || exchange !in c.broker.exchanges then Refuse(c, NotFound)
    else (c.(broker := c.broker.(bindings := c.broker.bindings + {Binding(queue, exchange, routingKey)})), Pass)
  }

  /** Every binding joins a queue and an exchange that exist. */
  predicate WellFormed(b: Broker) {
    forall x :: x in b.bindings ==> x.queue in b.queues && x.exchange in b.exchanges
  }

  /** On an open channel, a declare succeeds exactly when the entity already has
      the same properties, or is missing and its name is not reserved; it then
      leaves the entity with those properties and the rest of the broker as it
      was. A refused declare changes nothing on the broker, closes the channel,
      and says 406 for a clash and 403 for a reserved new name. */
  lemma ExchangeDeclareSpec(c: Channel, name: string, p: ExchangeProps)
    requires IsOpen(c)
    ensures var (c', o) := ExchangeDeclare(c, name, p);
      (o.Pass? <==> if name in c.broker.exchanges then c.broker.exchanges[name] == p else !Reserved(name))
      && (o.Pass? ==> IsOpen(c') && c'.broker.exchanges == c.broker.exchanges[name := p]
                      && c'.broker.queues == c.broker.queues && c'.broker.bindings == c.broker.bindings)
      && (o.Fail? ==> c'.broker == c.broker && !IsOpen(c')
                      && o.error == ChannelError(if name in c.broker.exchanges then PreconditionFailed else AccessRefused)
                      && c'.closeCode == Some(o.error.replyCode))
  {
  }

  lemma QueueDeclareSpec(c: Channel, name: string, p: QueueProps)
    requires IsOpen(c)
    ensures var (c', o) := QueueDeclare(c, name, p);
      (o.Pass? <==> if name in c.broker.queues then c.broker.queues[name] == p else !Reserved(name))
      && (o.Pass? ==> IsOpen(c') && c'.broker.queues == c.broker.queues[name := p]
                      && c'.broker.exchanges == c.broker.exchanges && c'.broker.bindings == c.broker.bindings)
      && (o.Fail? ==> c'.broker == c.broker && !IsOpen(c')
                      && o.error == ChannelError(if name in c.broker.queues then PreconditionFailed else AccessRefused)
                      && c'.closeCode == Some(o.error.replyCode))
  {
  }

  /** Declaring twice with the same properties is declaring once. */
  lemma DeclareIdempotent(c: Channel, exchange: string, ep: ExchangeProps, queue: string, qp: QueueProps)
    ensures var (c1, o1) := ExchangeDeclare(c, exchange, ep);
      o1.Pass? ==> ExchangeDeclare(c1, exchange, ep) == (c1, Pass)
    ensures var (c1, o1) := QueueDeclare(c, queue, qp);
      o1.Pass? ==> QueueDeclare(c1, queue, qp) == (c1, Pass)
  {
    var (e1, eo) := ExchangeDeclare(c, exchange, ep);
    if eo.Pass? {
      assert e1.broker.exchanges[exchange := ep] == e1.broker.exchanges;
    }
    var (q1, qo) := QueueDeclare(c, queue, qp);
    if qo.Pass? {
      assert q1.broker.queues[queue := qp] == q1.broker.queues;
    }
  }

  /** On an open channel, deleting a non-reserved entity and declaring it again
      always succeeds and leaves it with the new properties; the entity's
      bindings are gone and the rest of the broker is as it was. */
  lemma DeleteThenDeclare(c: Channel, name: string, ep: ExchangeProps, qp: QueueProps)
    requires IsOpen(c) && !Reserved(name)
    ensures var (c1, o1) := ExchangeDelete(c, name); var (c2, o2) := ExchangeDeclare(c1, name, ep);
      o1.Pass? && o2.Pass? && IsOpen(c2) && c2.broker.exchanges == c.broker.exchanges[name := ep]
      && c2.broker.queues == c.broker.queues
      && (forall x :: x in c2.broker.bindings <==> x in c.broker.bindings && x.exchange != name)
    ensures var (c1, o1) := QueueDelete(c, name); var (c2, o2) := QueueDeclare(c1, name, qp);
      o1.Pass? && o2.Pass? && IsOpen(c2) && c2.broker.queues == c.broker.queues[name := qp]
      && c2.broker.exchanges == c.broker.exchanges
      && (forall x :: x in c2.broker.bindings <==> x in c.broker.bindings && x.queue != name)
  {
  }

  /** A bind succeeds exactly when both ends exist, and then adds the binding. */
  lemma QueueBindSpec(c: Channel, queue: string, exchange: string, routingKey: string)
    requires IsOpen(c)
    ensures var (c', o) := QueueBind(c, queue, exchange, routingKey);
      (o.Pass? <==> queue in c.broker.queues && exchange in c.broker.exchanges)
      && (o.Pass? ==> IsOpen(c') && Binding(queue, exchange, routingKey) in c'.broker.bindings
                      && c'.broker == c.broker.(bindings := c.broker.bindings + {Binding(queue, exchange, routingKey)}))
      && (o.Fail? ==> c'.broker == c.broker && c'.closeCode == Some(NotFound) && o.error == ChannelError(NotFound))
  {
  }

  /** A closed channel refuses everything, repeating the reply that closed it, and
      changes nothing. */
  lemma ClosedChannelRefuses(c: Channel, name: string, ep: ExchangeProps, qp: QueueProps, other: string, key: string)
    requires !IsOpen(c)
    ensures ExchangeDeclare(c, name, ep) == (c, Fail(AlreadyClosed(c.closeCode.value)))
    ensures QueueDeclare(c, name, qp) == (c, Fail(AlreadyClosed(c.closeCode.value)))
    ensures ExchangeDelete(c, name) == (c, Fail(AlreadyClosed(c.closeCode.value)))
    ensures QueueDelete(c, name) == (c, Fail(AlreadyClosed(c.closeCode.value)))
    ensures QueueBind(c, name, other, key) == (c, Fail(AlreadyClosed(c.closeCode.value)))
  {
  }

  /** No operation leaves a binding dangling. */
  lemma OperationsKeepWellFormed(c: Channel, name: string, ep: ExchangeProps, qp: QueueProps, other: string, key: string)
    requires WellFormed(c.broker)
    ensures WellFormed(ExchangeDeclare(c, name, ep).0.broker)
    ensures WellFormed(QueueDeclare(c, name, qp).0.broker)
    ensures WellFormed(ExchangeDelete(c, name).0.broker)
    ensures WellFormed(QueueDelete(c, name).0.broker)
    ensures WellFormed(QueueBind(c, name, other, key).0.broker)
  {
  }
}
