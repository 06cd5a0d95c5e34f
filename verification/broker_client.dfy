/** The broker-publishing client (`src/simod_http/broker_client.py`): the
    retry budget of `connect`, the connect/dispatch decisions of
    `publish_request`, the message `basic_publish_request` sends, and the
    environment switch of `make_broker_client`.

    Every pika call is I/O and is replaced by an oracle: each connection
    attempt takes the next `ConnectOutcome` from a sequence, each
    `basic_publish` the next `PublishOutcome`. A run that needs more
    outcomes than the oracle holds stops with `InputExhausted`, which is a
    property of the model's input and not a behaviour of the client. */
module Broker {
  import opened Results
  import opened Requests

  /** The retry budget a client starts with and is reset to after a
      successful connection. */
  const InitialRetries: int := 5

  /** Seconds slept between two connection attempts. */
  const InitialRetryDelay: int := 1

  /** pika's `PERSISTENT_DELIVERY_MODE`: the broker keeps the message
      across restarts. */
  const PersistentDeliveryMode: int := 2

  /** Content type of the JSON body of `basic_publish_request`. */
  const JsonContentType: string := "application/json"

  // ---------------------------------------------------------------------
  // Client state
  // ---------------------------------------------------------------------

  /** A pika connection or channel handle: `None`, open, or reporting
      `is_closed`. */
  datatype Handle = Absent | Open | Closed

  /** The fields of a `BrokerClient`. */
  datatype Client = Client(
    brokerUrl: string,
    exchangeName: string,
    routingKey: string,
    connection: Handle,
    channel: Handle,
    retries: int,
    retryDelay: int)

  /** `BrokerClient(broker_url, exchange_name, routing_key, connection,
      channel)`: the handles as given (`None` by default), a full retry
      budget and a one-second retry delay. */
  function NewClient(brokerUrl: string, exchangeName: string, routingKey: string,
                     connection: Handle, channel: Handle): (c: Client)
    ensures c.retries == 5 && c.retryDelay == 1
    ensures c.connection == connection && c.channel == channel
    ensures c.brokerUrl == brokerUrl && c.exchangeName == exchangeName && c.routingKey == routingKey
  {
    Client(brokerUrl, exchangeName, routingKey, connection, channel, InitialRetries, InitialRetryDelay)
  }

  /** Two client states share the configuration fixed at construction. */
  predicate SameConfig(c: Client, d: Client) {
    && c.brokerUrl == d.brokerUrl
    && c.exchangeName == d.exchangeName
    && c.routingKey == d.routingKey
    && c.retryDelay == d.retryDelay
  }

  /** The condition under which `publish_request` connects first: the
      connection or the channel is `None` or reports that it is closed. */
  predicate NeedsConnect(c: Client) {
    c.connection == Absent || c.channel == Absent || c.connection == Closed || c.channel == Closed
  }

  // ---------------------------------------------------------------------
  // Outcomes and errors
  // ---------------------------------------------------------------------

  /** What one connection attempt (open the connection, open a channel,
      declare the exchange) does. */
  datatype ConnectOutcome =
    | Connected           // all three calls return
    | ConnectionRefused   // one of them raises AMQPConnectionError
    | ConnectCrashed      // one of them raises any other exception

  /** What one `basic_publish` call does. */
  datatype PublishOutcome =
    | Delivered
    | ConnectionClosed    // pika.exceptions.ConnectionClosed
    | ChannelClosed       // pika.exceptions.ChannelClosed
    | StreamLost          // pika.exceptions.StreamLostError
    | OtherFailure        // any other exception

  /** The three publish failures `publish_request` recovers from by
      reconnecting. */
  predicate Transient(o: PublishOutcome) {
    o == ConnectionClosed || o == ChannelClosed || o == StreamLost
  }

  /** The exceptions that can leave the client. */
  datatype Error =
    | BrokerUnavailable            // the RuntimeError of an exhausted budget
    | ConnectionError              // AMQPConnectionError of a one-off connection
    | UnexpectedError              // any other exception of a connection attempt
    | PublishError(failure: PublishOutcome)   // exception of a one-off publish
    | AttributeError               // `get_id` called on a `str`
    | InputExhausted               // the oracle ran out (model only)

  /** How a call ends: it returns, or it raises. */
  datatype Outcome = Returned | Raised(error: Error)

  // ---------------------------------------------------------------------
  // connect
  // ---------------------------------------------------------------------

  /** One call of `connect`: how it ended, the client afterwards, how many
      connection attempts and sleeps it made, and the unused outcomes. */
  datatype ConnectRun = ConnectRun(
    outcome: Outcome,
    client: Client,
    attempts: nat,
    sleeps: nat,
    rest: seq<ConnectOutcome>)

  /** The most attempts one call of `connect` makes when entered with
      budget `b`: `b` when positive, otherwise one. */
  function MaxAttempts(b: int): (n: nat)
    ensures n >= 1
    ensures b >= 1 ==> n == b
  {
    if b >= 1 then b else 1
  }

  /** The first `n` outcomes exist and are all refusals. */
  predicate RefusedRun(outcomes: seq<ConnectOutcome>, n: nat) {
    n <= |outcomes| && forall i | 0 <= i < n :: outcomes[i] == ConnectionRefused
  }

  /** `connect`: on `AMQPConnectionError` the budget drops by one and, while
      it stays positive, the client sleeps and calls itself; at zero it
      raises `RuntimeError`. The budget is reset to 5 only when the call
      returns: a raise skips the reset. Any other exception propagates with
      the budget as it stands. */
  function Connect(c: Client, outcomes: seq<ConnectOutcome>): (r: ConnectRun)
    ensures SameConfig(c, r.client)
    ensures r.attempts <= |outcomes| && r.rest == outcomes[r.attempts..]
    ensures r.attempts <= MaxAttempts(c.retries)
    ensures r.outcome != Raised(InputExhausted) ==> r.attempts >= 1 && r.sleeps == r.attempts - 1
    ensures r.outcome.Returned? ==>
              && RefusedRun(outcomes, r.attempts - 1) && outcomes[r.attempts - 1] == Connected
              && r.client.retries == InitialRetries
              && r.client.connection == Open && r.client.channel == Open
    ensures r.outcome == Raised(BrokerUnavailable) ==>
              && RefusedRun(outcomes, r.attempts)
              && r.attempts == MaxAttempts(c.retries)
              && r.client.retries == c.retries - r.attempts
              && r.client.retries <= 0
    ensures r.outcome.Raised? ==> r.client.connection == c.connection && r.client.channel == c.channel
    ensures r.outcome.Raised? ==> r.outcome.error in {BrokerUnavailable, UnexpectedError, InputExhausted}
    decreases |outcomes|
  {
    if outcomes == [] then ConnectRun(Raised(InputExhausted), c, 0, 0, [])
    else
      match outcomes[0]
      case Connected =>
        ConnectRun(Returned, c.(connection := Open, channel := Open, retries := InitialRetries), 1, 0, outcomes[1..])
      case ConnectCrashed =>
        ConnectRun(Raised(UnexpectedError), c, 1, 0, outcomes[1..])
      case ConnectionRefused =>
        var left := c.retries - 1;
        if left > 0 then
          var r := Connect(c.(retries := left), outcomes[1..]);
          ConnectRun(r.outcome, r.client, r.attempts + 1, r.sleeps + 1, r.rest)
        else
          ConnectRun(Raised(BrokerUnavailable), c.(retries := left), 1, 0, outcomes[1..])
  }

  /** Entering `connect` with budget `b`, a run of refusals raises
      `RuntimeError` after exactly `b` attempts and `b - 1` sleeps when
      `b >= 1`, and after one attempt when `b <= 0`; the budget is left at
      `b` minus the attempts, and the handles are untouched. */
  lemma {:induction false} ConnectGivesUp(c: Client, outcomes: seq<ConnectOutcome>)
    requires RefusedRun(outcomes, MaxAttempts(c.retries))
    ensures Connect(c, outcomes).outcome == Raised(BrokerUnavailable)
    ensures Connect(c, outcomes).attempts == MaxAttempts(c.retries)
    ensures Connect(c, outcomes).sleeps == MaxAttempts(c.retries) - 1
    ensures Connect(c, outcomes).client == c.(retries := c.retries - MaxAttempts(c.retries))
    decreases |outcomes|
  {
    assert outcomes[0] == ConnectionRefused;
    if c.retries - 1 > 0 {
      var tail := outcomes[1..];
      assert RefusedRun(tail, MaxAttempts(c.retries - 1)) by {
        forall i | 0 <= i < MaxAttempts(c.retries - 1)
          ensures tail[i] == ConnectionRefused
        {
          assert tail[i] == outcomes[i + 1];
        }
      }
      ConnectGivesUp(c.(retries := c.retries - 1), tail);
    }
  }

  /** If attempt `k` (counting from zero) is the first to connect and lies
      within the budget, `connect` returns after `k + 1` attempts and `k`
      sleeps, with open handles and a budget of 5 again. */
  lemma {:induction false} ConnectSucceeds(c: Client, outcomes: seq<ConnectOutcome>, k: nat)
    requires k < MaxAttempts(c.retries) && k < |outcomes|
    requires RefusedRun(outcomes, k) && outcomes[k] == Connected
    ensures Connect(c, outcomes).outcome == Returned
    ensures Connect(c, outcomes).attempts == k + 1
    ensures Connect(c, outcomes).sleeps == k
    ensures Connect(c, outcomes).client ==
              c.(connection := Open, channel := Open, retries := InitialRetries)
    decreases k
  {
    if k > 0 {
      assert outcomes[0] == ConnectionRefused;
      var tail := outcomes[1..];
      assert RefusedRun(tail, k - 1) by {
        forall i | 0 <= i < k - 1
          ensures tail[i] == ConnectionRefused
        {
          assert tail[i] == outcomes[i + 1];
        }
      }
      assert tail[k - 1] == outcomes[k];
      ConnectSucceeds(c.(retries := c.retries - 1), tail, k - 1);
    }
  }

  /** A fresh client that cannot reach the broker gives up after five
      attempts separated by four one-second sleeps, and keeps a budget of
      zero. */
  lemma FreshClientGivesUp(url: string, exchange: string, key: string, outcomes: seq<ConnectOutcome>)
    requires RefusedRun(outcomes, 5)
    ensures Connect(NewClient(url, exchange, key, Absent, Absent), outcomes).outcome == Raised(BrokerUnavailable)
    ensures Connect(NewClient(url, exchange, key, Absent, Absent), outcomes).attempts == 5
    ensures Connect(NewClient(url, exchange, key, Absent, Absent), outcomes).sleeps
              * NewClient(url, exchange, key, Absent, Absent).retryDelay == 4
    ensures Connect(NewClient(url, exchange, key, Absent, Absent), outcomes).client.retries == 0
  {
    ConnectGivesUp(NewClient(url, exchange, key, Absent, Absent), outcomes);
  }

  /** After a call of `connect` gave up, the budget stays spent: the next
      call raises `RuntimeError` after a single refused attempt, even when
      the attempt after it would have connected. */
  lemma SpentBudgetFailsFast(c: Client, first: seq<ConnectOutcome>, second: seq<ConnectOutcome>)
    requires c.retries >= 1 && RefusedRun(first, c.retries)
    requires |second| >= 2 && second[0] == ConnectionRefused && second[1] == Connected
    ensures Connect(c, first).client.retries == 0
    ensures Connect(Connect(c, first).client, second).outcome == Raised(BrokerUnavailable)
    ensures Connect(Connect(c, first).client, second).attempts == 1
    ensures Connect(Connect(c, first).client, second).client.retries == -1
  {
    ConnectGivesUp(c, first);
    var spent := Connect(c, first).client;
    ConnectGivesUp(spent, second);
  }

  /** `connect` with the budget restored when the call raises, as a
      `finally` would: whatever happens, the client leaves with a full
      budget, so the next call starts from five attempts. A return still
      means refusals followed by one success and open handles; a raise
      still leaves the handles untouched. */
  function ConnectRestoringBudget(c: Client, outcomes: seq<ConnectOutcome>): (r: ConnectRun)
    ensures r.client.retries == InitialRetries
    ensures SameConfig(c, r.client)
    ensures r.attempts <= |outcomes| && r.rest == outcomes[r.attempts..]
    ensures r.attempts <= MaxAttempts(c.retries)
    ensures r.outcome.Returned? ==>
              && r.attempts >= 1 && r.sleeps == r.attempts - 1
              && RefusedRun(outcomes, r.attempts - 1) && outcomes[r.attempts - 1] == Connected
              && r.client.connection == Open && r.client.channel == Open
    ensures r.outcome == Raised(BrokerUnavailable) ==>
              RefusedRun(outcomes, r.attempts) && r.attempts == MaxAttempts(c.retries)
    ensures r.outcome.Raised? ==> r.client.connection == c.connection && r.client.channel == c.channel
  {
    var r := Connect(c, outcomes);
    r.(client := r.client.(retries := InitialRetries))
  }

  /** With the budget restored, a call that follows any earlier one gets
      the full five attempts again: when its first success comes after `k`
      refusals with `k < 5`, it returns after `k + 1` attempts and `k`
      sleeps. */
  lemma RestoredBudgetRetries(c: Client, first: seq<ConnectOutcome>, second: seq<ConnectOutcome>, k: nat)
    requires k < InitialRetries && k < |second|
    requires RefusedRun(second, k) && second[k] == Connected
    ensures ConnectRestoringBudget(ConnectRestoringBudget(c, first).client, second).outcome == Returned
    ensures ConnectRestoringBudget(ConnectRestoringBudget(c, first).client, second).attempts == k + 1
    ensures ConnectRestoringBudget(ConnectRestoringBudget(c, first).client, second).sleeps == k
  {
    ConnectSucceeds(ConnectRestoringBudget(c, first).client, second, k);
  }

  /** The connect used by a publishing variant: as written, or with the
      budget restored on a raise. */
  function ConnectWith(restoreBudget: bool, c: Client, outcomes: seq<ConnectOutcome>): ConnectRun {
    if restoreBudget then ConnectRestoringBudget(c, outcomes) else Connect(c, outcomes)
  }

  // ---------------------------------------------------------------------
  // Messages
  // ---------------------------------------------------------------------

  /** A message body: the raw id bytes, or a JSON object (kept as a
      document, not as text). */
  datatype Body = RawId(id: string) | Json(doc: seq<Field>)

  /** One `basic_publish` call that returned. */
  datatype Message = Message(
    exchange: string,
    routingKey: string,
    body: Body,
    deliveryMode: int,
    contentType: Option<string>)

  /** The message `publish_request` sends: the id as body, persistent, no
      content type. */
  function IdMessage(c: Client, requestId: string): (m: Message)
    ensures m.exchange == c.exchangeName && m.routingKey == c.routingKey
    ensures m.body == RawId(requestId)
    ensures m.deliveryMode == PersistentDeliveryMode && m.contentType == None
  {
    Message(c.exchangeName, c.routingKey, RawId(requestId), PersistentDeliveryMode, None)
  }

  /** The message `basic_publish_request` sends for a job: a JSON object
      with exactly the keys `request_id` and `configuration_path`,
      persistent, typed `application/json`. An unassigned id is `null`. */
  function JobMessage(c: Client, job: JobRequest): (m: Message)
    ensures m.exchange == c.exchangeName && m.routingKey == c.routingKey
    ensures m.deliveryMode == PersistentDeliveryMode && m.contentType == Some(JsonContentType)
    ensures m.body.Json? && Keys(m.body.doc) == ["request_id", "configuration_path"]
    ensures Lookup(m.body.doc, "configuration_path") == Some(Str(job.configurationPath))
    ensures Lookup(m.body.doc, "request_id") == Some(OptStr(GetId(job)))
  {
    var doc := [Field("request_id", OptStr(GetId(job))),
                Field("configuration_path", Str(job.configurationPath))];
    assert Keys(doc) == ["request_id", "configuration_path"];
    Message(c.exchangeName, c.routingKey, Json(doc), PersistentDeliveryMode, Some(JsonContentType))
  }

  // ---------------------------------------------------------------------
  // basic_publish_request
  // ---------------------------------------------------------------------

  /** What `basic_publish_request` is handed: it declares a `JobRequest`,
      but Python lets a caller pass a `str`. */
  datatype Arg = JobArg(job: JobRequest) | TextArg(text: string)

  /** One call of `basic_publish_request`: how it ended, what it published,
      whether its one-off connection was opened and closed, and the unused
      outcomes. */
  datatype BasicRun = BasicRun(
    outcome: Outcome,
    published: seq<Message>,
    oneOffOpened: bool,
    oneOffClosed: bool,
    connectRest: seq<ConnectOutcome>,
    publishRest: seq<PublishOutcome>)

  /** `basic_publish_request`: opens a one-off connection and channel,
      declares the exchange, reads the id from its argument, publishes the
      JSON job message, and only then closes the connection. Nothing is
      retried; any exception propagates and leaves the connection open. */
  function BasicPublishRequest(c: Client, request: Arg,
                               connects: seq<ConnectOutcome>, publishes: seq<PublishOutcome>): (r: BasicRun)
    ensures r.oneOffClosed ==> r.oneOffOpened
    ensures r.oneOffClosed <==> r.outcome.Returned?
    ensures r.outcome.Returned? ==> request.JobArg? && r.published == [JobMessage(c, request.job)]
    ensures r.outcome.Raised? ==> r.published == []
    ensures r.outcome.Returned? <==>
              request.JobArg? && |connects| >= 1 && connects[0] == Connected
              && |publishes| >= 1 && publishes[0] == Delivered
    ensures request.TextArg? && |connects| >= 1 && connects[0] == Connected ==>
              r.outcome == Raised(AttributeError) && r.oneOffOpened && !r.oneOffClosed
    ensures |r.connectRest| <= |connects| && |r.publishRest| <= |publishes|
  {
    if connects == [] then BasicRun(Raised(InputExhausted), [], false, false, [], publishes)
    else
      match connects[0]
      case ConnectionRefused =>
        BasicRun(Raised(ConnectionError), [], false, false, connects[1..], publishes)
      case ConnectCrashed =>
        BasicRun(Raised(UnexpectedError), [], false, false, connects[1..], publishes)
      case Connected =>
        match request
        case TextArg(_) =>
          BasicRun(Raised(AttributeError), [], true, false, connects[1..], publishes)
        case JobArg(job) =>
          if publishes == [] then BasicRun(Raised(InputExhausted), [], true, false, connects[1..], [])
          else if publishes[0] == Delivered then
            BasicRun(Returned, [JobMessage(c, job)], true, true, connects[1..], publishes[1..])
          else
            BasicRun(Raised(PublishError(publishes[0])), [], true, false, connects[1..], publishes[1..])
  }

  // ---------------------------------------------------------------------
  // publish_request
  // ---------------------------------------------------------------------

  /** The observable steps of a publish: a call of `connect` (with its
      attempts and outcome), a `basic_publish` on the shared channel, and
      the fallback into `basic_publish_request`. */
  datatype Step =
    | ConnectCall(attempts: nat, result: Outcome)
    | PublishAttempt(failure: PublishOutcome)
    | FallbackCall(result: Outcome)

  /** One call of `publish_request`: how it ended, the client afterwards,
      its steps, the messages of the `basic_publish` calls that returned, the
      one-off connections left open, and the unused outcomes. */
  datatype PublishRun = PublishRun(
    outcome: Outcome,
    client: Client,
    steps: seq<Step>,
    published: seq<Message>,
    leaked: nat,
    connectRest: seq<ConnectOutcome>,
    publishRest: seq<PublishOutcome>)

  /** The handle a publish failure reports closed. */
  function AfterFailure(c: Client, o: PublishOutcome): (d: Client)
    requires Transient(o)
    ensures NeedsConnect(d) && SameConfig(c, d) && d.retries == c.retries
  {
    if o == ChannelClosed then c.(channel := Closed) else c.(connection := Closed)
  }

  /** The control logic of `publish_request`, shared by the code as written
      and by its corrected form: connect first when the connection or the
      channel is missing or closed, then publish. `restoreBudget` selects the
      connect variant and `fallback` is what the fallback path is handed. */
  function Publish(c: Client, requestId: string, fallback: Arg, restoreBudget: bool,
                   connects: seq<ConnectOutcome>, publishes: seq<PublishOutcome>): (r: PublishRun)
    ensures SameConfig(c, r.client)
    ensures NeedsConnect(c) ==> |r.steps| >= 1 && r.steps[0].ConnectCall?
    ensures !NeedsConnect(c) && publishes != [] ==> |r.steps| >= 1 && r.steps[0] == PublishAttempt(publishes[0])
    ensures |r.published| <= 1
    ensures r.outcome.Returned? <==> |r.published| == 1
    ensures r.outcome.Returned? ==>
              r.published[0] == IdMessage(c, requestId)
              || (fallback.JobArg? && r.published[0] == JobMessage(c, fallback.job))
    ensures r.outcome.Returned? ==> !NeedsConnect(r.client)
    ensures r.leaked <= 1
    decreases |publishes|, 1
  {
    if NeedsConnect(c) then
      var pre := ConnectWith(restoreBudget, c, connects);
      var step := ConnectCall(pre.attempts, pre.outcome);
      if pre.outcome.Raised? then
        PublishRun(pre.outcome, pre.client, [step], [], 0, pre.rest, publishes)
      else
        var r := Dispatch(pre.client, requestId, fallback, restoreBudget, pre.rest, publishes);
        r.(steps := [step] + r.steps)
    else
      Dispatch(c, requestId, fallback, restoreBudget, connects, publishes)
  }

  /** The `try` block of `publish_request` on an open connection: publish
      the id; on a transient failure reconnect and call `publish_request`
      again with the same id; on any other failure call
      `basic_publish_request` with `fallback`. */
  function Dispatch(c: Client, requestId: string, fallback: Arg, restoreBudget: bool,
                    connects: seq<ConnectOutcome>, publishes: seq<PublishOutcome>): (r: PublishRun)
    requires !NeedsConnect(c)
    ensures SameConfig(c, r.client)
    ensures publishes != [] ==> |r.steps| >= 1 && r.steps[0] == PublishAttempt(publishes[0])
    ensures |r.published| <= 1
    ensures r.outcome.Returned? <==> |r.published| == 1
    ensures r.outcome.Returned? ==>
              r.published[0] == IdMessage(c, requestId)
              || (fallback.JobArg? && r.published[0] == JobMessage(c, fallback.job))
    ensures r.outcome.Returned? ==> !NeedsConnect(r.client)
    ensures r.leaked <= 1
    decreases |publishes|, 0
  {
    if publishes == [] then
      PublishRun(Raised(InputExhausted), c, [], [], 0, connects, [])
    else
      var o := publishes[0];
      if o == Delivered then
        PublishRun(Returned, c, [PublishAttempt(o)], [IdMessage(c, requestId)], 0, connects, publishes[1..])
      else if Transient(o) then
        var re := ConnectWith(restoreBudget, AfterFailure(c, o), connects);
        var tried := [PublishAttempt(o), ConnectCall(re.attempts, re.outcome)];
        if re.outcome.Raised? then
          PublishRun(re.outcome, re.client, tried, [], 0, re.rest, publishes[1..])
        else
          var again := Publish(re.client, requestId, fallback, restoreBudget, re.rest, publishes[1..]);
          again.(steps := tried + again.steps)
      else
        var b := BasicPublishRequest(c, fallback, connects, publishes[1..]);
        PublishRun(b.outcome, c, [PublishAttempt(o), FallbackCall(b.outcome)], b.published,
                   if b.oneOffOpened && !b.oneOffClosed then 1 else 0, b.connectRest, b.publishRest)
  }

  /** `publish_request(request_id)` as written: the fallback passes the id
      string to `basic_publish_request`, and the budget is not restored. */
  function PublishRequest(c: Client, requestId: string,
                          connects: seq<ConnectOutcome>, publishes: seq<PublishOutcome>): (r: PublishRun)
    ensures DispatchTrace(r.steps)
    ensures r.outcome.Returned? ==> r.published == [IdMessage(c, requestId)]
    ensures r.leaked <= 1
  {
    PublishTraceShape(c, requestId, TextArg(requestId), false, connects, publishes);
    Publish(c, requestId, TextArg(requestId), false, connects, publishes)
  }

  /** `publish_request` as evidently intended: the fallback hands the job
      record itself to `basic_publish_request`, and every `connect` starts
      from a full budget. */
  function PublishRequestFixed(c: Client, job: JobRequest,
                               connects: seq<ConnectOutcome>, publishes: seq<PublishOutcome>): (r: PublishRun)
    requires job.id.Some?
    ensures DispatchTrace(r.steps)
    ensures r.outcome.Returned? ==> r.published == [IdMessage(c, job.id.value)] || r.published == [JobMessage(c, job)]
    ensures r.leaked <= 1
  {
    PublishTraceShape(c, job.id.value, JobArg(job), true, connects, publishes);
    Publish(c, job.id.value, JobArg(job), true, connects, publishes)
  }

  /** On a healthy connection, a `basic_publish` that returns is the only
      one of the call: it carries the id with persistent delivery on the
      configured exchange and routing key, and no connection is attempted. */
  lemma PublishHealthyDelivers(c: Client, requestId: string,
                               connects: seq<ConnectOutcome>, publishes: seq<PublishOutcome>)
    requires !NeedsConnect(c) && publishes != [] && publishes[0] == Delivered
    ensures PublishRequest(c, requestId, connects, publishes).outcome == Returned
    ensures PublishRequest(c, requestId, connects, publishes).published == [IdMessage(c, requestId)]
    ensures PublishRequest(c, requestId, connects, publishes).steps == [PublishAttempt(Delivered)]
    ensures PublishRequest(c, requestId, connects, publishes).connectRest == connects
  {
    assert PublishRequest(c, requestId, connects, publishes)
        == Dispatch(c, requestId, TextArg(requestId), false, connects, publishes);
  }

  /** With the connection or channel missing or closed, `publish_request`
      connects first; when that connection succeeds and the `basic_publish`
      returns, it is the only one of the call. */
  lemma PublishReopensFirst(c: Client, requestId: string,
                            connects: seq<ConnectOutcome>, publishes: seq<PublishOutcome>)
    requires NeedsConnect(c)
    requires connects != [] && connects[0] == Connected
    requires publishes != [] && publishes[0] == Delivered
    ensures PublishRequest(c, requestId, connects, publishes).outcome == Returned
    ensures PublishRequest(c, requestId, connects, publishes).published == [IdMessage(c, requestId)]
    ensures PublishRequest(c, requestId, connects, publishes).steps ==
              [ConnectCall(1, Returned), PublishAttempt(Delivered)]
  {
    ConnectSucceeds(c, connects, 0);
    var pre := Connect(c, connects);
    var r := Dispatch(pre.client, requestId, TextArg(requestId), false, pre.rest, publishes);
    assert r.steps == [PublishAttempt(Delivered)];
    assert PublishRequest(c, requestId, connects, publishes) == r.(steps := [ConnectCall(1, Returned)] + r.steps);
  }

  /** When the connect that `publish_request` needs first raises, the error
      leaves `publish_request` and nothing is published or attempted. */
  lemma PublishConnectFailure(c: Client, requestId: string,
                              connects: seq<ConnectOutcome>, publishes: seq<PublishOutcome>)
    requires NeedsConnect(c) && Connect(c, connects).outcome.Raised?
    ensures PublishRequest(c, requestId, connects, publishes).outcome == Connect(c, connects).outcome
    ensures PublishRequest(c, requestId, connects, publishes).published == []
    ensures PublishRequest(c, requestId, connects, publishes).steps ==
              [ConnectCall(Connect(c, connects).attempts, Connect(c, connects).outcome)]
    ensures PublishRequest(c, requestId, connects, publishes).publishRest == publishes
  {
    assert PublishRequest(c, requestId, connects, publishes)
        == Publish(c, requestId, TextArg(requestId), false, connects, publishes);
  }

  /** On a connection-closed, channel-closed or stream-lost failure,
      `publish_request` calls `connect`; once that returns, after however
      many refusals, it behaves exactly as a new call of `publish_request`
      with the same id on the reconnected client. */
  lemma PublishTransientRetries(c: Client, requestId: string, failure: PublishOutcome,
                                connects: seq<ConnectOutcome>, publishes: seq<PublishOutcome>)
    requires !NeedsConnect(c) && Transient(failure)
    requires Connect(AfterFailure(c, failure), connects).outcome.Returned?
    ensures PublishRequest(c, requestId, connects, [failure] + publishes) ==
              var re := Connect(AfterFailure(c, failure), connects);
              var again := PublishRequest(re.client, requestId, re.rest, publishes);
              again.(steps := [PublishAttempt(failure), ConnectCall(re.attempts, Returned)] + again.steps)
  {
    assert ([failure] + publishes)[1..] == publishes;
    assert PublishRequest(c, requestId, connects, [failure] + publishes)
        == Dispatch(c, requestId, TextArg(requestId), false, connects, [failure] + publishes);
  }

  /** A channel closed under a healthy client: `publish_request`
      reconnects once, and the second `basic_publish`, of the id with
      persistent delivery, is the only one that returns. */
  lemma ChannelForceClosed(c: Client, requestId: string)
    requires !NeedsConnect(c)
    ensures PublishRequest(c, requestId, [Connected], [ChannelClosed, Delivered]).outcome == Returned
    ensures PublishRequest(c, requestId, [Connected], [ChannelClosed, Delivered]).published ==
              [IdMessage(c, requestId)]
    ensures PublishRequest(c, requestId, [Connected], [ChannelClosed, Delivered]).steps ==
              [PublishAttempt(ChannelClosed), ConnectCall(1, Returned), PublishAttempt(Delivered)]
  {
    ConnectSucceeds(AfterFailure(c, ChannelClosed), [Connected], 0);
    PublishTransientRetries(c, requestId, ChannelClosed, [Connected], [Delivered]);
    PublishHealthyDelivers(c.(connection := Open, channel := Open, retries := InitialRetries),
                           requestId, [], [Delivered]);
  }

  /** As written, the fallback never delivers: any other publish failure
      hands the id string to `basic_publish_request`, which opens a one-off
      connection and then raises `AttributeError` on `get_id`, leaving that
      connection open. */
  lemma FallbackRaisesAttributeError(c: Client, requestId: string,
                                     connects: seq<ConnectOutcome>, publishes: seq<PublishOutcome>)
    requires !NeedsConnect(c)
    requires connects != [] && connects[0] == Connected
    requires publishes != [] && publishes[0] == OtherFailure
    ensures PublishRequest(c, requestId, connects, publishes).outcome == Raised(AttributeError)
    ensures PublishRequest(c, requestId, connects, publishes).published == []
    ensures PublishRequest(c, requestId, connects, publishes).leaked == 1
  {
    assert PublishRequest(c, requestId, connects, publishes)
        == Dispatch(c, requestId, TextArg(requestId), false, connects, publishes);
  }

  /** Corrected, the fallback delivers the job: after any other publish
      failure the one-off connection publishes the JSON job message and is
      closed. */
  lemma FixedFallbackDelivers(c: Client, job: JobRequest,
                              connects: seq<ConnectOutcome>, publishes: seq<PublishOutcome>)
    requires job.id.Some? && !NeedsConnect(c)
    requires connects != [] && connects[0] == Connected
    requires |publishes| >= 2 && publishes[0] == OtherFailure && publishes[1] == Delivered
    ensures PublishRequestFixed(c, job, connects, publishes).outcome == Returned
    ensures PublishRequestFixed(c, job, connects, publishes).published == [JobMessage(c, job)]
    ensures PublishRequestFixed(c, job, connects, publishes).leaked == 0
  {
    assert publishes[1..][0] == Delivered;
    assert PublishRequestFixed(c, job, connects, publishes)
        == Dispatch(c, job.id.value, JobArg(job), true, connects, publishes);
  }

  /** The shape of every `publish_request` trace: a transient failure is
      immediately followed by a call of `connect`; a delivered publish is
      the last step; any other failure is followed by the fallback, which
      is the last step. */
  predicate DispatchTrace(steps: seq<Step>) {
    forall i | 0 <= i < |steps| :: StepFits(steps, i)
  }

  /** The step at index `i` is placed as a `publish_request` trace allows. */
  predicate StepFits(steps: seq<Step>, i: nat)
    requires i < |steps|
  {
    match steps[i]
    case PublishAttempt(o) =>
      if o == Delivered then i == |steps| - 1
      else if Transient(o) then i + 1 < |steps| && steps[i + 1].ConnectCall?
      else i + 2 == |steps| && steps[i + 1].FallbackCall?
    case FallbackCall(_) => i == |steps| - 1
    case ConnectCall(_, _) => true
  }

  /** A trace keeps its shape when prefixed by a call of `connect`, or by a
      transient failure when it starts with a call of `connect`. */
  lemma DispatchTraceCons(s: Step, steps: seq<Step>)
    requires DispatchTrace(steps)
    requires s.ConnectCall? || (s.PublishAttempt? && Transient(s.failure) && steps != [] && steps[0].ConnectCall?)
    ensures DispatchTrace([s] + steps)
  {
    var t := [s] + steps;
    forall i | 1 <= i < |t|
      ensures StepFits(t, i)
    {
      assert StepFits(steps, i - 1);
      assert t[i] == steps[i - 1];
      if i + 1 < |t| {
        assert t[i + 1] == steps[i];
      }
    }
  }

  /** Every trace of `publish_request` has the dispatch shape. */
  lemma {:induction false} PublishTraceShape(c: Client, requestId: string, fallback: Arg, restoreBudget: bool,
                                             connects: seq<ConnectOutcome>, publishes: seq<PublishOutcome>)
    ensures DispatchTrace(Publish(c, requestId, fallback, restoreBudget, connects, publishes).steps)
    decreases |publishes|, 1
  {
    if NeedsConnect(c) {
      var pre := ConnectWith(restoreBudget, c, connects);
      if pre.outcome.Returned? {
        DispatchTraceShape(pre.client, requestId, fallback, restoreBudget, pre.rest, publishes);
        var r := Dispatch(pre.client, requestId, fallback, restoreBudget, pre.rest, publishes);
        DispatchTraceCons(ConnectCall(pre.attempts, pre.outcome), r.steps);
      }
    } else {
      DispatchTraceShape(c, requestId, fallback, restoreBudget, connects, publishes);
    }
  }

  /** Every trace of the `try` block has the dispatch shape. */
  lemma {:induction false} DispatchTraceShape(c: Client, requestId: string, fallback: Arg, restoreBudget: bool,
                                              connects: seq<ConnectOutcome>, publishes: seq<PublishOutcome>)
    requires !NeedsConnect(c)
    ensures DispatchTrace(Dispatch(c, requestId, fallback, restoreBudget, connects, publishes).steps)
    decreases |publishes|, 0
  {
    var r := Dispatch(c, requestId, fallback, restoreBudget, connects, publishes);
    if publishes != [] {
      var o := publishes[0];
      if o == Delivered {
        assert r.steps == [PublishAttempt(o)];
        LastStepTrace(PublishAttempt(o));
      } else if Transient(o) {
        var re := ConnectWith(restoreBudget, AfterFailure(c, o), connects);
        var cc := ConnectCall(re.attempts, re.outcome);
        if re.outcome.Raised? {
          assert r.steps == [PublishAttempt(o), cc];
          DispatchTraceCons(cc, []);
          DispatchTraceCons(PublishAttempt(o), [cc]);
        } else {
          PublishTraceShape(re.client, requestId, fallback, restoreBudget, re.rest, publishes[1..]);
          var again := Publish(re.client, requestId, fallback, restoreBudget, re.rest, publishes[1..]);
          assert r.steps == [PublishAttempt(o)] + ([cc] + again.steps);
          DispatchTraceCons(cc, again.steps);
          DispatchTraceCons(PublishAttempt(o), [cc] + again.steps);
        }
      } else {
        var b := BasicPublishRequest(c, fallback, connects, publishes[1..]);
        assert r.steps == [PublishAttempt(o), FallbackCall(b.outcome)];
        FallbackTrace(o, b.outcome);
      }
    }
  }

  /** A one-step trace of a delivered publish or a fallback has the
      dispatch shape. */
  lemma LastStepTrace(s: Step)
    requires s == PublishAttempt(Delivered) || s.FallbackCall?
    ensures DispatchTrace([s])
  {
    assert StepFits([s], 0);
  }

  /** A failure that is neither a delivery nor transient, followed by the
      fallback, has the dispatch shape. */
  lemma FallbackTrace(o: PublishOutcome, result: Outcome)
    requires o != Delivered && !Transient(o)
    ensures DispatchTrace([PublishAttempt(o), FallbackCall(result)])
  {
    var t := [PublishAttempt(o), FallbackCall(result)];
    assert StepFits(t, 0);
    assert StepFits(t, 1);
  }

  // ---------------------------------------------------------------------
  // make_broker_client
  // ---------------------------------------------------------------------

  /** The environment variable that selects the stub client. */
  const FakeBrokerVariable: string := "SIMOD_FAKE_BROKER_CLIENT"

  /** What `make_broker_client` returns: the stub, or a real client. */
  datatype BrokerChoice = StubClient | RealClient(client: Client)

  /** Lower-cases an ASCII letter; every other character is kept. */
  function LowerChar(ch: char): char {
    if 'A' <= ch <= 'Z' then (ch as int + 32) as char else ch
  }

  /** `str.lower` on ASCII text. */
  function Lower(s: string): (r: string)
    ensures |r| == |s|
    ensures forall i | 0 <= i < |r| :: !('A' <= r[i] <= 'Z')
    ensures forall i | 0 <= i < |s| :: 'A' <= s[i] <= 'Z' ==> r[i] as int == s[i] as int + 32
    ensures forall i | 0 <= i < |s| :: !('A' <= s[i] <= 'Z') ==> r[i] == s[i]
  {
    seq(|s|, i requires 0 <= i < |s| => LowerChar(s[i]))
  }

  /** Lower-casing twice is lower-casing once. */
  lemma LowerIdempotent(s: string)
    ensures Lower(Lower(s)) == Lower(s)
  {
  }

  /** The four letters of `true`, each in either case. */
  predicate SpellsTrue(s: string) {
    |s| == 4 && forall i | 0 <= i < 4 :: s[i] == "true"[i] || s[i] == "TRUE"[i]
  }

  /** A character lower-cases to a given lower-case letter exactly when it
      is that letter in either case. */
  lemma LowerCharIs(ch: char, lower: char, upper: char)
    requires 'a' <= lower <= 'z' && upper as int == lower as int - 32
    ensures LowerChar(ch) == lower <==> ch == lower || ch == upper
  {
  }

  /** Lower-casing gives `true` exactly for the four letters of `true`
      in any mix of cases. */
  lemma LowerIsTrue(s: string)
    ensures Lower(s) == "true" <==> SpellsTrue(s)
  {
    if |s| == 4 {
      LowerCharIs(s[0], 't', 'T');
      LowerCharIs(s[1], 'r', 'R');
      LowerCharIs(s[2], 'u', 'U');
      LowerCharIs(s[3], 'e', 'E');
      if SpellsTrue(s) {
        assert forall i | 0 <= i < 4 :: Lower(s)[i] == "true"[i];
      }
    }
  }

  /** `make_broker_client`: the stub exactly when the variable, defaulting
      to `false`, lower-cases to `true`; otherwise a fresh client with no
      connection or channel. */
  function MakeBrokerClient(brokerUrl: string, exchangeName: string, routingKey: string,
                            environ: map<string, string>): (r: BrokerChoice)
    ensures r.StubClient? <==> FakeBrokerVariable in environ && SpellsTrue(environ[FakeBrokerVariable])
    ensures r.RealClient? ==> r.client == NewClient(brokerUrl, exchangeName, routingKey, Absent, Absent)
  {
    var flag := if FakeBrokerVariable in environ then environ[FakeBrokerVariable] else "false";
    LowerIsTrue(flag);
    if Lower(flag) == "true" then StubClient
    else RealClient(NewClient(brokerUrl, exchangeName, routingKey, Absent, Absent))
  }
}
