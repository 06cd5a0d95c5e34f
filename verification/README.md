# simod-http request records and broker client, in Dafny

This project models the job-dispatch core of the simod-http service. That
core has two parts.

**Request records** (`src/simod_http/requests.py`):
- the `RequestStatus` and `NotificationMethod` enums with their wire strings;
- the `JobRequest` record with its dataclass defaults;
- `get_id` and `set_id`;
- `to_dict(without_id)`, the document stored for a job;
- `remove_none_values_from_dict`, which drops every `None` value, recursing into nested dicts.

**Broker client** (`src/simod_http/broker_client.py`):
- the `BrokerClient` state;
- `connect`, with its retry budget of 5 and one-second delay;
- `publish_request`, which connects first when needed, reconnects and calls itself again on the three transient pika failures, and hands anything else to the fallback;
- `basic_publish_request`, which publishes a JSON job message over a one-off connection;
- `make_broker_client`, which chooses the stub client through the `SIMOD_FAKE_BROKER_CLIENT` environment variable.

Files:
- `results.dfy` (module `Results`) holds the `Option` and `Result` types.
- `requests.dfy` (module `Requests`) holds the records.
- `broker_client.dfy` (module `Broker`) holds the client.

Python dicts become association lists of `Field(key, val)`. Their order is the insertion order. A `del` of a missing key is a `KeyError` result.

Every pika call is replaced by an oracle. Each connection attempt consumes the next `ConnectOutcome`, and each `basic_publish` consumes the next `PublishOutcome`. A run records:
- how it ended: returned, or the exception it raised;
- the client state afterwards;
- the steps it took: connect calls with their attempt counts, publish attempts and fallback calls;
- the messages of the `basic_publish` calls that returned;
- the one-off connections left open.

`time.sleep` becomes a count of sleeps, and logging is dropped.

## Model

| member | source | states |
|---|---|---|
| Requests.StatusWire | src/simod_http/requests.py:9-16 | the wire string of a status is the entry of the value table at the member's position in declaration order |
| Requests.StatusFromWire | src/simod_http/requests.py:9-16 | parsing a wire string gives the status whose wire value is that string, and nothing when no status has it |
| Requests.StatusMembers | src/simod_http/requests.py:9-16 | there are exactly seven statuses, with wire values `unknown` … `deleted` in declaration order, and distinct statuses have distinct wire values |
| Requests.StatusWireRoundTrip | src/simod_http/requests.py:9-16 | parsing the wire value of any status gives that status back |
| Requests.MethodWire | src/simod_http/requests.py:19-21 | a notification method is serialised as `callback` or `email`, and as `callback` exactly for HTTP |
| Requests.MethodFromWire | src/simod_http/requests.py:19-21 | parsing a wire string gives the method whose wire value is that string, and nothing when no method has it |
| Requests.MethodWireRoundTrip | src/simod_http/requests.py:19-21 | parsing the wire value of any method gives that method back |
| Requests.PruneValue | src/simod_http/requests.py:76-77 | a nested dict stays a dict and a non-dict value is kept as it is; no `None` is left at any depth of a non-`None` value |
| Requests.RemoveNoneValues | src/simod_http/requests.py:72-77 | the pruned dict is no longer than the input and holds no `None` at any depth |
| Requests.RemoveNoneKeys | src/simod_http/requests.py:72-75 | a key survives pruning exactly when the input holds it with a non-`None` value |
| Requests.RemoveNoneAppend | src/simod_http/requests.py:73-77 | each entry is pruned independently of the others, so pruning a concatenation is the concatenation of the pruned parts |
| Requests.RemoveNoneOrder | src/simod_http/requests.py:73-75 | the surviving keys keep their insertion order: they are a subsequence of the input keys |
| Requests.RemoveNoneUniqueKeys | src/simod_http/requests.py:72-77 | pruning a dict with distinct keys keeps its keys distinct |
| Requests.RemoveNoneLookup | src/simod_http/requests.py:72-77 | after pruning, looking a key up gives nothing when it was absent or `None`, and otherwise its pruned value |
| Requests.PruneNullFreeIdentity | src/simod_http/requests.py:76-77 | a value with no `None` at any depth is left unchanged |
| Requests.RemoveNoneNullFreeIdentity | src/simod_http/requests.py:72-77 | a dict with no `None` at any depth is left unchanged |
| Requests.RemoveNoneIdempotent | src/simod_http/requests.py:72-77 | pruning twice is the same as pruning once |
| Requests.PruneIdempotent | src/simod_http/requests.py:76-77 | pruning a value twice is the same as pruning it once |
| Requests.EmptiedDictStays | src/simod_http/requests.py:74-77 | a nested dict whose values are all `None` becomes empty, but its key stays in the outer dict |
| Requests.AllNoneRemoved | src/simod_http/requests.py:73-75 | a dict whose values are all `None` becomes empty |
| Requests.Without | src/simod_http/requests.py:67 | removing a key leaves it absent and the other entries in order; a dict without the key is unchanged |
| Requests.WithoutLookup | src/simod_http/requests.py:67 | removing a key keeps the lookup of every other key |
| Requests.WithoutUniqueKeys | src/simod_http/requests.py:67 | removing a key from a dict leaves a dict |
| Requests.WithoutLength | src/simod_http/requests.py:67 | removing a key present in a dict drops exactly one entry |
| Requests.WithoutNullFree | src/simod_http/requests.py:67 | removing a key introduces no `None` |
| Requests.Del | src/simod_http/requests.py:66-67 | `del d[k]` fails with `KeyError(k)` exactly when `k` is absent; otherwise `k` is gone, the rest stays in order, other lookups are kept, a dict stays a dict one entry shorter and no `None` appears |
| Requests.NewJobRequest | src/simod_http/requests.py:30-41 | `JobRequest(path, status)` with every other field at its dataclass default; the contracts of `FreshRecordPruned` and `NewJobRequestDict` state what those defaults serialise to |
| Requests.GetId | src/simod_http/requests.py:43-44 | `get_id` returns an id exactly when `to_dict()` holds `_id`, and then the stored `_id` is that id |
| Requests.SetId | src/simod_http/requests.py:43-47 | after `set_id`, `get_id` returns the new id and every other field is unchanged |
| Requests.SettingsDict | src/simod_http/requests.py:24-27 | `dict(exclude_none=True)` of notification settings holds no `None`, has distinct keys, and keeps `method`, `callback_url` and `email` in that order exactly when each is set |
| Requests.ToDict | src/simod_http/requests.py:49-69 | a produced document holds no `None` at any depth; the only failure is `KeyError('_id')` |
| Requests.RawDict | src/simod_http/requests.py:50-62 | the dict literal of `to_dict` before pruning; the contracts of `RawDictKeys` and `RawDictPresence` state its keys, their order and which entries are `None` |
| Requests.FieldNamesDistinct | src/simod_http/requests.py:50-62 | the ten keys of the document literal are distinct |
| Requests.RawDictKeys | src/simod_http/requests.py:50-62 | the literal holds the ten keys in source order, each once |
| Requests.RawDictPresence | src/simod_http/requests.py:50-62 | an entry of the literal is non-`None` exactly when its field is set, or is one of `configuration_path`, `status` and `notified` |
| Requests.ToDictKeys | src/simod_http/requests.py:49-69 | a key is in `to_dict()` exactly when it is one of the ten field keys and that field is set |
| Requests.ToDictOrder | src/simod_http/requests.py:50-64 | the keys of `to_dict()` are distinct and appear in the order of the literal |
| Requests.ToDictFailsWithoutId | src/simod_http/requests.py:64-67 | `to_dict(without_id)` raises exactly when `without_id` is true and no id was assigned, since pruning already removed `_id` |
| Requests.ToDictHasNotified | src/simod_http/requests.py:41-61 | every produced document has `notified` |
| Requests.ToDictLookup | src/simod_http/requests.py:50-64 | each of the ten keys maps to its pruned literal value, or is absent when that value is `None` |
| Requests.ToDictMandatory | src/simod_http/requests.py:50-64 | `to_dict()` maps `configuration_path`, `status` and `notified` to the record's values |
| Requests.ToDictSettings | src/simod_http/requests.py:50-64 | `to_dict()` maps `notification_settings` to the settings dict unchanged, and omits it when the record has no settings |
| Requests.ToDictId | src/simod_http/requests.py:50-64 | `to_dict()` maps `_id` to the assigned id, and omits it when none was assigned |
| Requests.ToDictWithoutId | src/simod_http/requests.py:66-67 | with an id assigned, `to_dict(True)` is `to_dict()` without `_id`: one entry shorter, same order, every other lookup the same |
| Requests.FreshRecordPruned | src/simod_http/requests.py:30-64 | for a record with all defaults, pruning the literal leaves exactly `configuration_path`, `status` and `notified = False` |
| Requests.NewJobRequestDict | src/simod_http/requests.py:30-69 | a fresh record serialises to those three entries, and `to_dict(without_id=True)` on it raises `KeyError('_id')` |
| Requests.SetIdThenToDict | src/simod_http/requests.py:46-69 | after `set_id`, `to_dict(True)` succeeds and `to_dict()` carries the new id |
| Broker.NewClient | src/simod_http/broker_client.py:15-31 | a new client keeps the given URL, exchange, routing key and handles, with a budget of 5 and a delay of 1 |
| Broker.NeedsConnect | src/simod_http/broker_client.py:59 | the condition under which `publish_request` connects first: the connection or channel is `None` or closed; the contracts of `Publish` and `PublishReopensFirst` state the connect it triggers |
| Broker.Connect | src/simod_http/broker_client.py:38-56 | configuration is kept and outcomes are consumed in order, with at most `max(budget, 1)` attempts and one sleep between attempts; returning means refusals then one success, open handles and a budget of 5 again; giving up means `max(budget, 1)` refusals and a budget spent to zero or below; any raise leaves the handles untouched |
| Broker.ConnectGivesUp | src/simod_http/broker_client.py:47-54 | with budget `b`, a run of refusals raises `RuntimeError` after `max(b, 1)` attempts and one sleep fewer, leaving the budget at `b - max(b, 1)` |
| Broker.ConnectSucceeds | src/simod_http/broker_client.py:42-56 | when attempt `k` is the first to connect and lies within the budget, `connect` returns after `k + 1` attempts and `k` sleeps, with open handles and a budget of 5 |
| Broker.FreshClientGivesUp | src/simod_http/broker_client.py:30-54 | a fresh client that cannot reach the broker gives up after 5 attempts with 4 one-second sleeps between them, keeping a budget of 0 |
| Broker.SpentBudgetFailsFast | src/simod_http/broker_client.py:47-56 | after a `connect` that gave up, the next call raises after a single refusal even when its second attempt would connect |
| Broker.RestoredBudgetRetries | src/simod_http/broker_client.py:47-56 | with the budget restored as the reset after success suggests, a call that follows any earlier call, failed or not, returns after `k + 1` attempts and `k` sleeps whenever its first success comes after `k < 5` refusals |
| Broker.IdMessage | src/simod_http/broker_client.py:63-70 | the shared-channel message goes to the configured exchange and routing key, with the raw id as body, persistent delivery and no content type |
| Broker.JobMessage | src/simod_http/broker_client.py:103-118 | the fallback message is persistent and typed `application/json`, with body keys `request_id` then `configuration_path` holding the record's id and path |
| Broker.BasicPublishRequest | src/simod_http/broker_client.py:97-120 | it returns exactly when handed a job record, the one-off connection connects and the publish succeeds; it then publishes one JSON message and closes the connection; handed a `str` with the connection up, it raises `AttributeError` and leaves the connection open; any raise publishes nothing |
| Broker.Publish | src/simod_http/broker_client.py:58-95 | the first step is a connect exactly when the client needs one; at most one `basic_publish` call returns, and one returns exactly when the call returns; its message is the id message or the fallback job message; a returning call leaves a usable connection and at most one leaked one-off connection |
| Broker.Dispatch | src/simod_http/broker_client.py:62-95 | on a usable connection the first step is the publish attempt; it keeps the message guarantees of `Publish` |
| Broker.PublishHealthyDelivers | src/simod_http/broker_client.py:58-72 | on a usable connection, when `basic_publish` returns, the call returns after that one publish of the id message, with no connection attempt |
| Broker.PublishReopensFirst | src/simod_http/broker_client.py:58-70 | with the connection or channel missing or closed, the call connects once; when `basic_publish` then returns, the id message is the one publish that returned |
| Broker.PublishConnectFailure | src/simod_http/broker_client.py:58-60 | when the preliminary connect raises, the same error leaves `publish_request`, with no publish attempt |
| Broker.PublishTransientRetries | src/simod_http/broker_client.py:74-90 | after a connection-closed, channel-closed or stream-lost failure, the call runs `connect`; once that returns, after however many refusals, the call behaves as a fresh `publish_request` of the same id on the reconnected client with the remaining outcomes |
| Broker.ChannelForceClosed | src/simod_http/broker_client.py:80-84 | a channel closed under a healthy client costs one reconnect, after which the second `basic_publish` of the id message returns |
| Broker.FallbackRaisesAttributeError | src/simod_http/broker_client.py:92-103 | as written, any other publish failure ends in `AttributeError` before the fallback publishes, with one one-off connection left open |
| Broker.PublishRequest | src/simod_http/broker_client.py:58-103 | `publish_request` as written: every trace has the dispatch shape of `PublishTraceShape`; a returning call has published the id message and never the JSON fallback; at most one one-off connection leaks |
| Broker.PublishRequestFixed | src/simod_http/broker_client.py:58-120 | the corrected `publish_request`, which hands the record to the fallback and restores the budget: the same trace shape; a returning call has published the id message or the JSON job message; at most one one-off connection leaks |
| Broker.FixedFallbackDelivers | src/simod_http/broker_client.py:92-120 | with the job record handed to the fallback, any other publish failure leads to the JSON job message being delivered, with no connection leaked |
| Broker.PublishTraceShape | src/simod_http/broker_client.py:58-95 | in every trace, a transient failure is followed immediately by a connect; a successful publish is the last step; any other failure is followed by the fallback, which ends the trace |
| Broker.DispatchTraceShape | src/simod_http/broker_client.py:62-95 | the same trace shape holds for the `try` block entered with a usable connection |
| Broker.Lower | src/simod_http/broker_client.py:124 | `lower()` keeps the length, leaves no upper-case ASCII letter, turns each upper-case letter into its lower-case counterpart and keeps every other character |
| Broker.LowerIdempotent | src/simod_http/broker_client.py:124 | lower-casing twice is lower-casing once |
| Broker.LowerIsTrue | src/simod_http/broker_client.py:124 | a string lower-cases to `true` exactly when it spells `true` in any mix of cases |
| Broker.MakeBrokerClient | src/simod_http/broker_client.py:123-133 | it returns the stub exactly when `SIMOD_FAKE_BROKER_CLIENT` is set to `true` in any case; otherwise it returns a new client with no connection or channel, with an unset variable read as `false` |

## Left out

- pika I/O: connections, channels, `exchange_declare` and `basic_publish` are replaced by the outcome oracles. A run that needs more outcomes than the oracle holds ends in `InputExhausted`, which belongs to the model and not to the client.
- Broker.Connect: when `channel()` or `exchange_declare` raises after the connection was opened, the source has already stored the new handle. The model treats the whole attempt as one outcome and leaves the stored handles unchanged on any failed attempt.
- Broker.Publish: a `basic_publish` that raises is assumed to have delivered nothing. Whether such a message reached the broker is not modelled, so a reconnect-and-retry may in reality publish it twice; `published` lists only the calls that returned.
- Broker.Publish: when only the channel was closed, `connect` replaces a shared connection that is still open (line 43) without closing it. `leaked` counts only the one-off connections of `basic_publish_request`, not these dropped shared connections.
- Broker.BasicPublishRequest: a failed one-off connection attempt is treated as failing before the connection opened. When `channel()` or `exchange_declare` raises after line 99, the opened connection stays open in the source but is not counted as leaked.
- Broker.Publish: an unclassified `basic_publish` failure (the catch-all handler of lines 92-95) is assumed to leave the shared connection and channel as they were, so the client after the fallback is the client before it. Nothing in the source guarantees this; the promise of `Broker.Publish` and `Broker.Dispatch` that a returning call leaves a usable connection rests on it for returns through the fallback.
- Broker.Publish: the nesting of recursive `publish_request` calls is bounded only by the finite publish oracle. Python's recursion limit is not modelled.
- Which handle a transient failure leaves closed: the model assumes channel-closed closes the channel and the other two close the connection. Either way the next call reconnects.
- `time.sleep` is modelled as a count of sleeps, and logging is left out, because neither affects the state.
- `json.dumps` and `.encode()` are not modelled as text: message bodies are kept as documents or id strings, and string escaping is left out.
- `BrokerClient.__repr__` is left out because it only formats strings.
- The stub client (`broker_client_stub`) is not part of this model. It appears only as the `StubClient` choice.
- Broker.Lower: only ASCII letters are lower-cased. Python's full Unicode `str.lower` is not modelled, and no other character lowers to a letter of `true`.
- Concurrency: the source shares one connection between callers with no locking. The model is sequential.
- `datetime` values are kept as opaque instants, because `to_dict` stores them unchanged.
- Requests.SettingsDict: pydantic's `dict(exclude_none=True)` is modelled directly. Its contract states keys and null-freeness, not the stored values, which are the settings fields themselves.
- `remove_none_values_from_dict` mutates its argument in place. The model returns the new dict.
- The HTTP layer, the files repository and the test suite are outside this core.

## Findings

| source | as written | input that shows it | evidently intended | confidence | as-written member | corrected member |
|---|---|---|---|---|---|---|
| src/simod_http/broker_client.py:92-103 | the catch-all handler calls `basic_publish_request(request_id)` with the id string; after opening a one-off connection that calls `request.get_id()` on a `str` and raises `AttributeError` | a healthy client whose `basic_publish` raises an unclassified exception, with a reachable broker | the fallback publishes the job message for the request and closes its connection | high; not executed | Broker.FallbackRaisesAttributeError | Broker.FixedFallbackDelivers |
| src/simod_http/broker_client.py:47-56 | raising `RuntimeError` skips the reset on line 56, so once `connect` gives up the budget stays at 0 or below | a client whose `connect` saw five refusals, then a refusal followed by a success | each call of `connect` gets five attempts, as the reset after success suggests | medium; not executed | Broker.SpentBudgetFailsFast | Broker.RestoredBudgetRetries |
