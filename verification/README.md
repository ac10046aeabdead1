# Verified model of go-messaging-amqp

This project models the AMQP transport of the repository in Dafny and proves what its concurrent and
distributed parts do for every input, every interleaving and every reachable state.

`dafny verify dfyconfig.toml` checks everything.

## What is modelled

| module | what it covers |
|---|---|
| `ConfirmProtocol` | any number of concurrent `Publish` and `PublishRaw` calls on one publisher: the mutex, the delivery tags, the broker's verdicts, the confirmation channel, cancelled contexts, channel shutdown. A run is a sequence of steps, each enabled where it is taken |
| `Headers`, `Publishing` | header validation and collection, the rewrite of `ce-` headers that inserts and deletes in the map it ranges over, the outbox adapter's own rewrite, the stamped CloudEvents attributes, the `Publisher` object, and what the consumer reads back |
| `Registry`, `TopicWords` | per-queue pattern tables, overlap-checked registration, lookup in arbitrary map order; the topic semantics as an instance |
| `GoErrors`, `Consumer`, `BrokerQueue` | `errors.Is` on error trees, the delivery loop with its settlement calls and counters, and the loop against a broker queue with redelivery, lost calls and disconnects |
| `RequestResponse`, `Answering` | the answering handler, the message it puts on the wire, and how many responses a request gets over whole runs of the queue |
| `Naming` | exchange and queue names |
| `Setups`, `SetupLaws`, `SetupTrace`, `Topology`, `SetupOps`, `DryRun`, `Lifecycle` | every setup function as a sequence of broker operations any of which may be refused, what all sequences of setups keep, exactly what they do when they succeed (operations, bindings, queue arguments, endpoints, wired publishers) and leave when they fail, the dry run, and the connection object with `Start` and `Close` |
| `Routing`, `EndToEnd` | broker routing over the bindings of several services, which handler a routed message finds, and the request/response round trip from handler to handler |

Map iteration order, random names, the clock, the trace carrier, handler results and broker refusals are
parameters or nondeterministic choices, so each statement holds for all of them.

### Assumptions

- `spec.MatchRoutingKey` and `spec.RoutingKeyOverlaps` belong to another module. `Registry.Sound` states what is
  assumed: overlap is reflexive and symmetric, and two patterns matching a common key overlap.
  `Routing.LiteralsMatch` adds that a key without wildcards matches itself. `TopicWords.TopicIsSound` and
  `Routing.TopicLiteralsMatch` show that the topic semantics of section 3.1.3.3 of AMQP 0-9-1 meets both; nothing
  is claimed about the library's own functions. The broker's topic matching is taken to be the same relation.
- `spec.NormalizeCEHeaders` and `spec.HasCEHeaders` appear as `Publishing.Normalizes` (every header is renamed to its
  `ce-` key; of several that compete for one key, one value is kept) and `Publishing.RecognisesComplete`;
  `Publishing.SamplesNormalize` shows the former can be met.
- `spec.AMQPCEHeaderKey(x)` is `cloudEvents:` followed by x, as the rewrite in setup_publisher.go:257 writes it, and the
  attribute names are those of CloudEvents 1.0 (`specversion`, `type`, `source`, `datacontenttype`, `time`, `id`).
- RabbitMQ's sender-selected distribution: direct, topic and default exchanges also route by the keys listed under `CC`
  and `BCC`; headers exchanges do not look at keys.
- The value of the client library's `QueueTTLArg` is `x-expires`; nothing but the distinctness of argument names
  depends on it.
- The AMQP client library assigns a delivery tag only to a publish that succeeds, hands confirmations to the
  registered channel in tag order starting with tag 1, and closes that channel when the AMQP channel shuts down.
- Each publisher is wired to one channel and nobody else reads its confirmation channel. Handlers return.
- Callers build consumer options with the library's functions only (`SetupLaws.Legit`).

### Where the code differs from its documentation

- `Publish` documents that nil means the broker confirmed the message (setup_publisher.go:91-94). An abandoned wait
  leaves its confirmation in the channel, so every later caller reads a confirmation that belongs to an earlier
  message. `ConfirmProtocol.LagLaw` gives the exact shift; `ConfirmProtocol.PromiseExactlyWithoutLag` shows that the
  documented promise holds for callers behind no abandoned wait and for no others. Once more waits were abandoned than
  the confirmation channel has room for, the client library can stay blocked handing over a confirmation while no
  call is waiting, and only then (`ConfirmProtocol.StuckExactlyBeyondCapacity`).
- docs/request-response.md:54-57 says a handler error means requeue. An error with `spec.ErrParseJSON` or
  `ErrNoMessageTypeForRouteKey` anywhere in its tree discards the request instead (`RequestResponse.WrapsDecideNothing`).
- A response consumer binds by header only, so a response with another routing key is routed into its queue and then
  discarded for want of a handler (`Routing.HeaderRoutedMayLackHandler`). It has a handler exactly when the caller's
  setups include a response consumer for that responder whose pattern matches the key
  (`Routing.ResponseHandledExactly`).
- docs/request-response.md describes one response per request. A request can be answered any number of times when
  acks are lost (`Answering.AnyNumberOfResponses`); the excess is exactly the number of lost acks
  (`Answering.AckedIsAnswered`).
- A caller may also send attributes in the JMS spelling `cloudEvents_`, which is neither rejected nor rewritten. The
  consumer's normalisation may then keep that value instead (`Publishing.RoundTrip`, `Publishing.RivalCanWin`).
- docs/consumers.md:147 says transient queues are classic auto-delete queues, and docs/consumers.md:145 that the
  five-day limit is `x-message-ttl`. The code declares all queues as quorum queues and sets `amqp.QueueTTLArg`, which
  limits the life of the unused queue, to five days or, for transient ones, one second (`Setups.QueueArgsMeaning`).
- A queue-name suffix and a longer service name give the same queue (`Naming.SuffixCollides`), and so can dots in a
  service name (`Naming.DottedNamesCollide`). Without suffixes, queue names are unique for services without dots
  (`Naming.QueueNamesInjective`) and, in general, exactly when no service name contains the end of another queue's
  name (`Naming.NamesUniqueExactly`). With suffixes and random parts, all without dots, they are unique exactly when no
  service name is another one followed by a dash (`Naming.TailedNamesUniqueExactly`). A suffix with dots can give any
  service's queue the name of any other's (`Naming.DottedSuffixCollides`).
- A caller may list further routing keys under `CC` and `BCC`, which `validateKey` accepts and RabbitMQ routes by, as
  `QueuePublisher` itself does (setup_publisher.go:158-175). The consumer looks up its handler by the message's own
  key, so a message that arrives because of a listed key may find none (`Routing.SelectedMayLackHandler`).
- `Close` does nothing after a failed `Start` (`Lifecycle.StartCloseClose`), so channels and connection stay open.
- docs/publishers.md:145 says `cloudEvents:source` is the exchange name. The code stamps the service name
  (`Publishing.RoundTrip`).

## Model

| member | source | states |
|---|---|---|
| ConfirmProtocol.StepKeepsInv | setup_publisher.go:95-125 | every step of either entry point, of the broker and of the library keeps mutual exclusion, lock-ordered sending, the accounting equation and the backing of nil results |
| ConfirmProtocol.RunKeepsInv | setup_publisher.go:95-125 | the same after every run of any number of calls |
| ConfirmProtocol.StateIsHistory | setup_publisher.go:95-125 | in every run: who locked and who sent, in which order, how many confirmations were received, which waits were abandoned and what the broker decided are exactly the steps taken |
| ConfirmProtocol.LagLaw | setup_publisher.go:114-122 | in every interleaving the call that sent tag n receives the confirmation for n minus the number of earlier senders that abandoned their wait, and returns nil exactly if the run contains the broker's ack of that tag |
| ConfirmProtocol.Accounting | setup_publisher.go:96-123 | sent minus received equals abandoned plus waiting in every reachable state; a zero value is read only from a closed, drained channel; one call at a time is inside; messages go out in the order in which their calls took the lock |
| ConfirmProtocol.NilMeansLaggedAck | setup_publisher.go:116-124 | nil means the broker acked, and did not nack, the message k tags before the caller's own, also with a closed channel |
| ConfirmProtocol.NilDespiteNack | setup_publisher.go:120-121 | behind any k > 0 abandoned waits there is a run in which a caller gets nil although its message was nacked |
| ConfirmProtocol.PromiseExactlyWithoutLag | setup_publisher.go:91-94 | "nil means this very message was acked" holds for lag k if and only if k = 0 |
| ConfirmProtocol.StuckExactlyBeyondCapacity | setup_publisher.go:212-220 | behind k abandoned waits the library can be unable to hand over a decided confirmation, with nobody waiting, iff k exceeds the channel's capacity |
| ConfirmProtocol.Backlog | setup_publisher.go:114-122 | in every reachable state of an open channel the buffer holds at most its capacity, and at least abandoned plus waiting minus capacity confirmations are not handed over |
| ConfirmProtocol.CallFollowsScript | outbox_adapter.go:49-93 | in every interleaving each call of either entry point walks along one of the paths lock, reject or send, wait, unlock, and has that path's result |
| ConfirmProtocol.EveryPathHappens | setup_publisher.go:95-125 | each of those paths is taken to its end in some run |
| Headers.CollectHeaders | setup_publisher.go:99-108 | the table holds exactly the last write of each key, defaults first; accepted iff no caller key is empty or `service`; a rejection is that of the first such header, with its own error |
| Headers.NormalizeInPlace | setup_publisher.go:249-263 | for every order and every choice of visiting inserted keys the loop ends with no `ce-` key, other entries unchanged, and each attribute under `cloudEvents:` with its original value, else the `ce-` value |
| Headers.OutboxTable | outbox_adapter.go:57-67 | the table is the fold of the headers in some iteration order and has the publisher's key set |
| Headers.OutboxKeys | outbox_adapter.go:60-67 | in every order the adapter's key set is the publisher's |
| Headers.OutboxValue | outbox_adapter.go:60-67 | in every order each key holds a value one of its two spellings was given |
| Headers.OutboxAgreesExactly | outbox_adapter.go:57-67 | adapter and publisher agree for every order iff no attribute has two different values under the two prefixes |
| Publishing.PublishMessage | setup_publisher.go:224-311 | what is sent is the payload with the normalised, stamped and trace-injected headers; nothing is sent on a marshalling or send error |
| Publishing.Publisher.constructor | setup_publisher.go:83-89 | an unwired publisher with the chosen confirm options |
| Publishing.Publisher.Setup | setup_publisher.go:199-222 | invalid headers change nothing; otherwise the publisher is wired with the service header last, and confirms are on unless disabled; a confirm-mode failure is reported |
| Publishing.Publisher.Publish | setup_publisher.go:95-125 | sent iff no header key is empty or `service`, the payload marshals and the send succeeds; nil iff sent and, with confirms, an ack was received; each failure has its own result; the call's path is one of the protocol's |
| Publishing.Publisher.PublishRaw | outbox_adapter.go:49-93 | an unwired publisher is reported; sent iff wired and the send succeeds; nil iff sent and, with confirms, an ack was received; the headers are some order's fold |
| Publishing.AwaitConfirm | setup_publisher.go:114-124 | the select: ack, nack or closed channel, cancelled context |
| Publishing.ServiceHeaderIntegrity | setup_publisher.go:199-205 | for every accepted header list the wire `service` header is the publisher's service name, unless and only unless the trace carrier overwrites it |
| Publishing.WireAttr | setup_publisher.go:265-281 | each attribute on the wire: the caller's `cloudEvents:` value, else the caller's `ce-` value, else the default; an id that is empty or not a string is replaced |
| Publishing.RoundTrip | consumer.go:93-97 | for every accepted header list: after the consumer's normalisation each attribute is present under `ce-` exactly when expected or given as `cloudEvents_`, with the expected value or that one; without a `cloudEvents_id` the id is a nonempty string |
| Publishing.PlainHeaderRoundTrip | consumer.go:93-97 | every other header arrives as last written, unless the trace carrier uses its key |
| Publishing.RivalCanWin | consumer.go:94-97 | an attribute given as `cloudEvents_` reaches the consumer with that value under some admissible normalisation |
| Publishing.RoundTripExactly | consumer.go:93-97 | the consumer sees the expected attribute under every admissible normalisation iff the caller gave no `cloudEvents_` spelling of it, or the expected value there |
| Publishing.PassesOthers | consumer.go:94-97 | normalisation passes headers outside the CloudEvents spellings through |
| Publishing.NeverLegacy | consumer.go:97-124 | for every accepted header list all six standard attributes arrive, so the consumer never takes the legacy branch |
| Publishing.SamplesNormalize | consumer.go:94-97 | the assumption on header normalisation can be met, in two ways |
| Registry.FindHandler | routingkey_handlers.go:33-40 | the first match of some iteration order: a matching pattern's handler, or none matches |
| Registry.FindOverlap | routingkey_handlers.go:43-50 | some registered pattern overlapping the new one, iff there is one |
| Registry.Register | consumer.go:213-228 | registration succeeds iff no registered pattern of the queue overlaps; adds exactly that pattern, or changes nothing |
| Registry.QueueConsumers.constructor | connection.go:335-338 | the registry starts empty |
| Registry.QueueConsumers.Add | consumer.go:213-228 | succeeds iff no registered pattern of the queue overlaps; adds exactly that pattern, or changes nothing |
| Registry.QueueConsumers.Get | consumer.go:205-211 | a matching handler of that queue, or none and none matches |
| Registry.RegistryDeterminism | consumer.go:205-228 | after every sequence of adds at most one pattern matches a key, all iteration orders give the same handler, and one is found iff some pattern matches |
| Registry.FirstComeFirstServed | consumer.go:213-228 | a queue maps a pattern to a handler iff some add that met no overlap registered it; nothing is replaced or lost |
| TopicWords.MatchExact | docs/consumers.md:122-130 | a pattern matches a key iff the key falls into parts, one per pattern word: any number of words for `#`, one for `*`, the word itself otherwise |
| TopicWords.OverlapExact | docs/consumers.md:122-130 | two topic patterns overlap iff some key is matched by both |
| TopicWords.TopicIsSound | routingkey_handlers.go:33-50 | the topic semantics meets the registry's assumptions |
| GoErrors.IsExact | consumer.go:167-177 | `errors.Is` finds a sentinel iff it is a node of the error tree at any depth |
| GoErrors.DispositionExact | consumer.go:166-198 | discard as unparsable iff the parse sentinel occurs, reject iff only the no-type sentinel does, requeue iff neither |
| GoErrors.DispositionStable | consumer.go:166-198 | any number of wrapping layers leaves the settlement unchanged |
| GoErrors.WrappersDecide | handler.go:53-64 | a payload that does not parse, or has no type in a type-mapping handler, decides the settlement; otherwise the handler's result does |
| Consumer.QueueConsumer.constructor | consumer.go:216-220 | a consumer with its queue and pattern table and nothing settled |
| Consumer.QueueConsumer.Loop | consumer.go:70-91 | one settlement call per delivery, in order, for its tag alone: ack iff the handler of the matching pattern succeeded, requeued iff its error has neither sentinel, discarded otherwise; per label as many received as deliveries, and each outcome in its own counter |
| Consumer.QueueConsumer.Turn | consumer.go:71-88 | one turn: the handler of the pattern matching the key is run, or the delivery is rejected; one call and one count that fit the outcome |
| Consumer.QueueConsumer.RejectUnhandled | consumer.go:77-86 | a key without a handler: rejected without requeue, counted as without handler |
| Consumer.QueueConsumer.HandleDelivery | consumer.go:136-198 | one call for the tag: ack iff no error, requeue iff neither sentinel is in the error tree; one count, by the outcome |
| Consumer.CallFits | consumer.go:166-198 | the call for any handling acks exactly successes, requeues exactly ordinary failures, never settles several tags |
| Consumer.VerdictIsCounted | metrics.go:141-167 | the counter that rises is the one of the outcome: ack, nack, not parsable, without handler |
| Consumer.ProgressNext | metrics.go:141-167 | a turn adds one to received and one to exactly the counter of its outcome, for its label only |
| Consumer.ExactlyOnce | consumer.go:70-91 | with distinct tags each tag is settled by exactly one call, none with multiple=true |
| BrokerQueue.MessageConservation | consumer.go:70-91 | in every run every message is in exactly one of ready, unacked, acked, discarded |
| BrokerQueue.GoneForAReason | consumer.go:166-198 | with a broker that acts on the calls themselves, a message is discarded iff some turn found no handler, a parse failure or no type mapping for it, and acked iff some turn succeeded, the call reaching the broker |
| BrokerQueue.OtherErrorsNeverLose | consumer.go:186-197 | a message whose handlings end in success or in errors without either sentinel is never discarded |
| BrokerQueue.CounterConservation | metrics.go:141-167 | in every state received = ack + nack + withoutHandler + notParsable per label, plus one while such a delivery is being handled; the i-th call settles tag i, with multiple=false |
| Answering.OneResponsePerSuccess | request_response.go:43-58 | in every run the responses sent for a request number exactly its turns that ended without error, each on the service's response exchange and addressed to the request's sender |
| Answering.SuccessesAreAckedOrLost | consumer.go:136-148 | successful turns on a message = lost acks + one if it is acked at the broker |
| Answering.AckedIsAnswered | request_response.go:43-58 | over whole runs with redelivery, lost calls and disconnects: responses = lost acks + one if the request is acked, so an acked request was answered |
| Answering.ExtraResponseHasCause | consumer.go:136-148 | an acked request has exactly one response and any other none iff no ack call of a successful turn was lost and no disconnect came between its delivery and its ack |
| Answering.AnyNumberOfResponses | request_response.go:43-58 | a request whose handling always succeeds can be answered any number of times before it is acked |
| Naming.NamesAsDocumented | docs/topology.md:10-48 | every exchange and queue name spelled out |
| Naming.ExchangeNamesInjective | naming.go:35-53 | each exchange-name builder is injective and the three ranges are disjoint, for all strings |
| Naming.QueueNamesInjective | naming.go:39-61 | the queue builders are jointly injective when the consuming services' names have no dots |
| Naming.DottedNamesCollide | naming.go:39-41 | with dots in a consuming service's name two queues share a name |
| Naming.ConsumersCollideExactly | naming.go:39-61 | queues of two consumers can share a name iff one name, after a dot, ends with the queue tail and name of the other |
| Naming.RequestCollidesExactly | naming.go:55-57 | a queue has the name of some request queue iff its consumer's name, after a dot, ends with the request queue's tail |
| Naming.NamesUniqueExactly | naming.go:39-61 | all queues of a set of services have different names, whatever streams and targets, iff no name hides another's queue or a request queue |
| Naming.SuffixCollides | queue_binding_config.go:69-77 | a suffix or random part equals a longer service name |
| Naming.TailedNamesEqual | naming.go:39-61 | names of queues with dot-free ends are equal iff they belong to one exchange and consumer name plus suffix are equal |
| Naming.TailedConsumersCollideExactly | queue_binding_config.go:69-77 | for dot-free services and dot-free suffixes or random parts, queues of two services can share a name iff one service name is the other followed by a dash |
| Naming.TailedNamesUniqueExactly | naming.go:39-61 | queue names of a set of dot-free services, with any dot-free suffixes and random parts, determine queue and suffix iff no service name is another followed by a dash |
| Naming.DottedSuffixCollides | queue_binding_config.go:69-77 | a dotted suffix gives a queue of any service the name of a queue of any other |
| Naming.TrimQueueNames | naming.go:67-69 | trimming the exchange from any built queue name, suffix included, recovers the rest |
| Setups.NewConsumerConfig | queue_binding_config.go:38-55 | the options folded in order, failing at the first that fails |
| Setups.FoldMeaning | queue_binding_config.go:38-77 | fails iff some option is bad; routing key, handler, exchange and kind stay; the queue name gains the suffixes; the binding carries the last service header only |
| Setups.QueueArgsMeaning | queue_binding_config.go:79-107 | the declared queue's arguments, and no others: quorum, single active consumer unless disabled, queue TTL, last dead-letter exchange and routing key |
| SetupLaws.SetupKeeps | setup_consumer.go:71-219 | each setup function, whatever is refused, keeps disjoint registration, registered bindings and matching endpoints |
| SetupLaws.AllSetupsKeep | connection.go:146-150 | the same after every sequence of setups |
| SetupLaws.OneKindPerExchange | connection.go:305-307 | no sequence of setups declares one exchange with two kinds |
| SetupTrace.BindQueueLater | connection.go:285-303 | a queue is bound only after its exchange and queue were declared |
| SetupTrace.AllSetupsLater | setup_publisher.go:133-197 | in every reachable state bindings follow declarations, every endpoint is backed by accepted operations, every wired publisher stamps the connection's service name, no channel is opened twice, nothing is consumed, closed or undone |
| Topology.SetupEffect | setup_consumer.go:71-219 | a successful setup registers and binds what it asks for and nothing else |
| Topology.RegisteredExactly | setup_consumer.go:71-219 | after successful setups a queue maps a pattern to a handler iff some setup asked for that |
| Topology.BoundExactly | connection.go:285-303 | after successful setups the broker has accepted a binding iff some setup asked for it |
| SetupOps.SetupDoes | setup_publisher.go:133-222 | a successful setup performs exactly its operations, in order: exchange and queue declared with the arguments its options ask for, then bound; or exchange declared, own channel, confirms unless disabled; records its endpoint; wires its publisher |
| SetupOps.SetupSucceedsExactly | setup_consumer.go:71-219 | a setup succeeds iff its options are good, its pattern overlaps none on its queue and none of its operations is refused |
| SetupOps.SetupLeaves | connection.go:285-303 | a failed setup stops at the first refusal; a consumer leaves no endpoint but possibly its registration; a publisher is wired and has its endpoint iff its channel was opened |
| SetupOps.EndpointsExactly | connection.go:105-107 | after successful setups the topology is exactly the list of the setups' endpoints, in order |
| SetupOps.WiredExactly | setup_publisher.go:199-211 | after successful setups a publisher has exactly the exchange, service and default headers that the last setup for it asks for |
| SetupOps.DeclaredExactly | connection.go:309-312 | after successful setups the broker has accepted a queue with given arguments iff some consumer's options ask for it |
| DryRun.MoreInternalSame | setup_consumer.go:73-76 | the options a setup value gains by being run change neither failure nor queue name |
| DryRun.DryRunFaithful | topology_export.go:37-58 | the setup phases: if the real one succeeds the dry one does with equal endpoints; with a broker that never fails they succeed together; for any two copies of the setup values, however often used |
| DryRun.UsedIsStale | setup_consumer.go:186-189 | setup values stay usable for the previous statement however often they were run, completely or not |
| Lifecycle.CollectTopology | topology_export.go:37-58 | the endpoints of the setups against operations that all succeed, or an error |
| Lifecycle.CollectStartCollect | topology_export.go:37-58 | `CollectTopology`, `Start` of a new connection and `CollectTopology` again, each with the setup values the previous one left: equal topologies, a successful `Start` has exactly their endpoints, and with a broker that never fails it succeeds iff they do |
| Lifecycle.StartCloseClose | connection.go:115-196 | `Start`, `Close`, `Close` on a new connection: orderly trace; on success all registered queues consumed on distinct channels, endpoints in bijection with registered pairs, each consumer channel closed exactly once and the connection last, second `Close` without effect; after a failed `Start` nothing is closed by `Close` |
| Lifecycle.Connection.constructor | connection.go:330-344 | a new connection is not started, has declared nothing and is valid |
| Lifecycle.Connection.BindQueueToExchange | connection.go:285-303 | on success the pattern is registered and its binding accepted; on failure the pattern overlaps and nothing happened, or the last operation was refused; keeps the invariant |
| Lifecycle.Connection.Apply | setup_consumer.go:71-219 | every setup function keeps the invariant whatever is refused, keeps endpoints complete on success, and leaves its closure with the appended option |
| Lifecycle.Connection.ApplyAll | connection.go:146-150 | setups in order, stopping at the first failure; the invariant is kept |
| Lifecycle.Connection.StartConsumer | connection.go:357-368 | a channel of its own, then Consume on it, up to the first refusal |
| Lifecycle.Connection.StartConsumers | connection.go:346-371 | the registered queues, none twice, in some order up to the first refusal; on success all of them |
| Lifecycle.Connection.Prepare | connection.go:137-154 | succeeds iff both channels open, the setups succeed and the setup channel closes; what it leaves in each case, the response channel closed again if the setup channel cannot be opened; never consumes; keeps the invariant |
| Lifecycle.Connection.Start | connection.go:115-178 | refused when started; a first Start, successful or not, leaves an orderly trace and a valid connection; a successful one leaves it running: all queues consumed on distinct channels of their own, endpoints in bijection; with a broker that never fails it succeeds iff the setups do |
| Lifecycle.StartIsOrderly | connection.go:115-178 | declarations and bindings precede the setup-channel close, which precedes every Consume; no queue is consumed twice, each on a channel nothing else opens; also when startConsumers stops early |
| Lifecycle.StartConsumesAll | connection.go:346-371 | on success every registered queue is consumed, and the recorded consumer channels are exactly those consumed on, without repetition, the response and the setup channel not among them |
| Lifecycle.Connection.CloseEach | connection.go:186-195 | every consumer channel in order and then the connection, whatever fails; errors counted |
| Lifecycle.Connection.Close | connection.go:181-196 | on a running connection each consumer channel is closed exactly once in its life, the connection exactly once and last, nothing else but the setup channel; as many errors as refused closes; nothing changes when not started |
| RequestResponse.WrapsDecideNothing | request_response.go:43-58 | none of the wraps changes the settlement; a missing sender means requeue |
| RequestResponse.StepAcksIffItSent | request_response.go:43-58 | a handling step acks iff it put a message on the wire: on the service's response exchange, with the handler's key and the encoded response, addressed to the service in the request's `service` header; a failing step sends none |
| RequestResponse.ResponseContent | connection.go:90-92 | the response has the given body, the service as its source and the routing key as its type |
| RequestResponse.ResponseIsAddressed | connection.go:90-92 | the response names the target in its `service` header iff the trace carrier does not overwrite it |
| RequestResponse.PublishServiceResponse | connection.go:90-92 | the response goes to the service's own response exchange with the target's name in its `service` header; sent iff it encodes and the send succeeds |
| Routing.SingleHeaderModes | setup_consumer.go:73-76 | every accepted response binding of a deployment matches the same messages under all and any: those addressed to its service |
| Routing.RoutedHasHandler | connection.go:285-303 | a message that a topic binding or a wildcard-free direct binding routes into a queue finds the handler registered with that binding, in every iteration order and every reachable setup state, if its own key matches, as it does without CC and BCC; it finds some handler iff a registered pattern matches its own key |
| Routing.SelectedMayLackHandler | setup_publisher.go:158-175 | a message routed by a listed key only may have no handler |
| Routing.QueuePublisherSelects | setup_publisher.go:158-175 | a message sent through a queue publisher is routed to the queues named by its routing key and by the publisher, and no others |
| Routing.HeaderRoutedMayLackHandler | setup_consumer.go:71-90 | for any key the pattern does not match, a response is routed into the queue and has no handler |
| Routing.ResponseHandledExactly | setup_consumer.go:71-90 | a response finds a handler in a response queue, dot-free suffixes included, in every iteration order, iff one of the service's setups is a response consumer for that queue with that handler and a pattern matching the key |
| Routing.ForeignQueueDiffers | naming.go:39-61 | no queue of another service, suffixes and random parts included, has the name of a service's response queue, without suffixes on response consumers, or with dot-free ones and names not related by a dash |
| Routing.ResponseReachesCaller | setup_consumer.go:71-90 | a response for the caller is routed to the caller's response queues for the responder and nowhere else, whatever the suffixes; under the previous row's condition these queues are the caller's alone |
| Routing.RequestReachesTarget | setup_publisher.go:178-197 | a request is routed only by the target's own bindings with one of its routing keys, into the target's request queues |
| Routing.RequestRoutedExactly | setup_consumer.go:106-118 | a request is routed to a queue iff it is the queue of a request consumer of the target for one of the request's routing keys |
| Routing.RequestHandled | consumer.go:70-88 | in that queue the request finds that consumer's handler, in every iteration order |
| Routing.TakesResponsesExactly | setup_consumer.go:71-90 | after successful setups a service takes a responder's responses from a queue iff one of its setups does |
| EndToEnd.PublisherIsWired | setup_publisher.go:178-211 | the publisher of the last `ServicePublisher` setup for it sends to the target's request exchange in the caller's name |
| EndToEnd.SenderIsCaller | request_response.go:62-73 | the responder reads the caller's name from any accepted request, and sends the response to it iff nothing fails |
| EndToEnd.RequestLeg | request_response.go:34-41 | the request reaches exactly the responder's request queues for its routing keys and finds the handler for its own |
| EndToEnd.ResponseLeg | setup_consumer.go:71-90 | the response reaches exactly the caller's response queues, and a handler iff one of the caller's setups awaits its key there |
| EndToEnd.RequestIsAnsweredToCaller | request_response.go:34-73 | for distinct dot-free services with no suffixes, or dot-free ones, on response consumers: a request sent with any accepted headers through the publisher of a `ServicePublisher` setup reaches the responder's handler for its key; a response is sent iff nothing fails there; it reaches the caller's response queues and no others, and there the handler the caller's setups register for that key, if any |

## Left out

- Dialling, URI parsing, QoS, heartbeats, close notifications, prefetch: library plumbing.
- Calling `Start` again after a failed `Start` or after `Close`: the lifecycle statements are about a first `Start`.
- Publishing on a publisher that was never wired: `Publish` dereferences a nil channel; only `PublishRaw` reports it.
- JSON encoding and reflection: marshalling and unmarshalling succeed or fail; message type names are not in `Endpoint`.
- The durable and auto-delete flags of declarations, which are constants in the code.
- The content type and delivery mode properties, and the mandatory and immediate flags, of a published message.
- Tracing spans, logging, histograms, metric registration, notification channels, `Must`, the TCK adapter, option setters that only store a value.
- A change of the routing-key mapper while deliveries are being handled: counters are for a fixed mapper.
- Custom `Is` methods on error types, and panics in handlers.
- Broker expiry, delivery limits, dead-letter routing, and bindings left by earlier deployments.
- External readers of a channel given to `WithConfirm`.
- The backing array that setup values may share when a caller passes one options slice with spare capacity to several of them.
- Consumer.QueueConsumer.Loop: handles a finite sequence of deliveries; runs of any length against the broker are in `BrokerQueue`.
- Publishing.Publisher.Publish: one call at a time; its interleaving with other calls is in `ConfirmProtocol`.
- Registry.QueueConsumers.Add: the per-queue consumer objects are values in a map, so aliasing between them is not represented.
- `Connection` keeps the registry and the wired publishers as values, so aliasing between it and the `Publisher` and `QueueConsumers` objects is not represented.
- Numbers and booleans in queue arguments are tokens.
