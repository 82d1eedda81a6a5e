# User-stream producer: a verified model

The repository's streaming pipeline begins with an Airflow task,
`stream_data`. For ten seconds it repeats three steps:

1. it fetches a random user from the randomuser.me API (`get_data`);
2. it flattens that user into a 12-field record with a fresh UUID (`format_data`);
3. it publishes the record to the Kafka topic `user_stream`.

A failure in any step is logged, and the loop moves on to the next tick.
Downstream, a Spark job reads a topic into a Cassandra table. Its message
schema and the table's columns name the same twelve fields.

The model has five modules:

- `Wrappers` (`wrappers.dfy`): `Option` and `Result`. A Python exception
  raised inside a step becomes `None` or `Err`.
- `PyJson` (`pyjson.dfy`): the values `json` decodes (None, bool, int, str,
  list, dict with insertion order), and Python's `v[key]`. A `KeyError` and a
  `TypeError` both give `None`. It also models `str()` of such a value, which
  is what an f-string placeholder prints. Integer rendering reads back.
- `Record` (`record.dfy`): the flat record and its twelve field names. It
  also holds the dict the producer builds from the record, and the consumer
  schema and table column lists.
- `Format` (`format.dfy`):
  - `format_data` as a pure function of the user object and the supplied
    identifier. It reads the sixteen source paths in the order the code
    reads them, and the first missing one raises.
  - The `res["results"][0]` step of `get_data`.
- `Stream` (`stream.dfy`):
  - one tick of the try block;
  - `stream_data` as a method with the deadline loop, run over given clock
    readings (integer milliseconds) and given per-tick inputs: the response,
    the UUID and whether the send succeeded;
  - the properties of the sent messages and the log lines over a run.

The sent messages and the log lines are specified through each tick's
*outcome*: `RunTick` gives either the message sent or the step that failed.
`SentMessages` is the messages of the successful outcomes, in order: these
are the messages `producer.send` accepted without raising (a call that raises sends nothing in the model). `Logged` is one line per outcome.

## Model

| member | source | states |
|---|---|---|
| PyJson.FindSpec | src/kafka_stream.py:35 | a dict lookup fails exactly when no key matches; otherwise it yields the value of the first matching entry |
| PyJson.GetSpec | src/kafka_stream.py:35-50 | `v[key]` (Get) raises, giving None, exactly when `v` is not a dict (TypeError) or has no entry under `key` (KeyError); otherwise it yields the value of the first entry with that key |
| PyJson.AtMissingStops | src/kafka_stream.py:35-50 | for a path lookup `v[p0][p1]...` (At): once a lookup raises, the longer path raises too, so nothing after the missing key is read |
| PyJson.AtConcat | src/kafka_stream.py:35-43 | reading `location` and then `street.number` inside it is the same as reading the whole path from the user object |
| PyJson.NatToString | src/kafka_stream.py:41 | the decimal rendering of a natural number is non-empty, all digits, with no leading zero |
| PyJson.IntToString | src/kafka_stream.py:41 | `str()` of an int starts with '-' exactly when the int is negative; the rest is one or more digits with no leading zero |
| PyJson.ParseNatToString | src/kafka_stream.py:41 | parsing the digits of a natural number gives back that number |
| PyJson.ParseIntToString | src/kafka_stream.py:41 | parsing `str(n)` for any int n gives back n |
| PyJson.Str | src/kafka_stream.py:40-43 | `str()` of a str is the string itself; `str()` of an int is its canonical decimal and reads back as that int; `str()` of any other value is its `repr()` |
| PyJson.Repr | src/kafka_stream.py:40-43 | `repr()` of None is "None", of a bool "True" or "False", of an int its decimal; a str is wrapped in single quotes around the unchanged text (no escaping; see Left out); a list is bracketed by `[` `]` and a dict by `{` `}` |
| PyJson.ReprList | src/kafka_stream.py:40-43 | `repr()` of a list is the reprs of its items, in order, joined by ", " (Join, Python's `", ".join`) inside brackets |
| PyJson.ReprDict | src/kafka_stream.py:40-43 | `repr()` of a dict is its entries, in insertion order, each the quoted key, ": " and the value's repr, joined by ", " inside braces |
| PyJson.JoinFromJoin | src/kafka_stream.py:40-43 | emitting each part after a ", " separator, except the first, gives exactly `", ".join` of the parts |
| PyJson.DigitValue | src/kafka_stream.py:41 | a digit character's value is below ten and renders back as that character |
| Record.IndexOf | src/kafka_stream.py:36-50 | every field has a position in the producer's insertion order |
| Record.ProducerKeysDistinct | src/kafka_stream.py:36-50 | the twelve keys the producer assigns are pairwise distinct |
| Record.KeyOrder | src/kafka_stream.py:36-50 | the i-th field inserted is stored under the i-th producer key |
| Record.EntriesOf | src/kafka_stream.py:36-50 | the entry for each field is that field's key bound to that field's value, at the field's position |
| Record.GetDistinct | src/kafka_stream.py:36-50 | in a dict with distinct keys, each entry's key looks up that entry's value |
| Record.AsDict | src/kafka_stream.py:34-51 | the dict returned has exactly the twelve keys id, first_name, …, picture, in insertion order |
| Record.LookupAsDict | src/kafka_stream.py:36-50 | each field's key in the returned dict holds that field's value |
| Record.RecordOfFields | src/kafka_stream.py:36-50 | a dict that holds each field of a record under its name reads back as that record |
| Record.RecordOfAsDict | src/kafka_stream.py:34-51 | the returned dict loses nothing: reading it back by field name gives the record |
| Record.ConsumerSchemaAgrees | src/ETL.py:104-115 | the consumer's message schema has twelve distinct names, and they are exactly the twelve distinct keys the producer assigns |
| Record.TableColumnsAgree | src/ETL.py:29-40 | the destination table's twelve columns are distinct and are exactly the keys the producer assigns |
| Format.LookupAll | src/kafka_stream.py:35-50 | the lookups all succeed exactly when every path is present, and each value is what its path holds; otherwise the error names the first missing path |
| Format.FormatData | src/kafka_stream.py:32-51 | a record exists exactly when all sixteen paths are present; it has the supplied id, verbatim copies of the ten copied fields, and the address `str(number) + " " + street + ", " + city + ", " + state + ", " + country`; otherwise the error names the first missing path, and there is no partial record |
| Format.IdIsSupplied | src/kafka_stream.py:36 | the identifier comes only from the supplied UUID: another UUID changes the id and nothing else |
| Format.LookupAllAgree | src/kafka_stream.py:35-50 | reading the same paths from two objects that agree on them gives the same outcome |
| Format.FormatReadsOnlyRequiredPaths | src/kafka_stream.py:35-50 | two user objects that agree on the sixteen paths read give the same outcome |
| Format.AddressLeadsWithStreetNumber | src/kafka_stream.py:40-43 | an int street number is the address's prefix up to the first space, and that prefix parses back to the number |
| Format.AddressPrefix | src/kafka_stream.py:40-43 | the address starts with the street number followed by a space |
| Format.FirstResult | src/kafka_stream.py:28 | `res["results"][0]` is the first element of a non-empty list, or the first character of a non-empty string; anything else raises |
| Stream.ExpiredIsStrict | src/kafka_stream.py:60 | the deadline check (Expired) is strict: a reading exactly 10 s after the start still starts an iteration, one 1 ms later does not; once past, every later reading is past too |
| Stream.RunTickSpec | src/kafka_stream.py:63-69 | one tick of the try block (RunTick) sends exactly when the response holds a user, the user formats and the send succeeds; the message is then addressed to `user_stream` with that user's record and the tick's UUID. A failure reports the first step that raised: the fetch, the projection with its missing path, or the send |
| Stream.MapTicks | src/kafka_stream.py:59-69 | one outcome per tick |
| Stream.MapTicksAt | src/kafka_stream.py:59-69 | the k-th outcome is that of the k-th tick |
| Stream.Outcomes | src/kafka_stream.py:59-69 | a run has one outcome per tick |
| Stream.OutcomeAt | src/kafka_stream.py:59-69 | the k-th outcome of a run is the outcome of the k-th tick |
| Stream.LoggedPerTick | src/kafka_stream.py:67-69 | the log (Logged) has one line per tick: "sent" exactly for a tick that succeeded, otherwise the step that failed |
| Stream.OutcomesExtend | src/kafka_stream.py:59-69 | one more tick adds exactly that tick's outcome |
| Stream.RunOneMore | src/kafka_stream.py:63-69 | one more tick adds its message, if it has one, to the sent sequence, and adds one log line |
| Stream.PassedAt | src/kafka_stream.py:57-61 | the first clock reading later than start + 10 s: it is in range and past the deadline, and no earlier reading is |
| Stream.TryTick | src/kafka_stream.py:63-69 | the try block passes on a message that `producer.send` accepted exactly when the tick succeeds, and that message is the tick's; the log line is "sent", or the step that raised |
| Stream.Iterate | src/kafka_stream.py:62-69 | a pass through the else branch extends the sent messages and the log by exactly the n-th tick's contribution |
| Stream.SentAreFormattedRecords | src/kafka_stream.py:63-69 | for any run, the messages `producer.send` accepted without raising are, one each and in tick order, the formatted records of exactly the ticks that fetched a user, formatted it and sent it, each addressed to `user_stream` |
| Stream.StreamData | src/kafka_stream.py:54-69 | if the producer cannot be created, nothing runs. Otherwise the loop stops at the first clock reading later than start + 10 s, and no earlier reading was past it. The messages `producer.send` accepted without raising are the formatted records of exactly the successful ticks, one each in tick order, addressed to `user_stream`; the log has one line per tick |
| Stream.SentAppend | src/kafka_stream.py:59-69 | what two consecutive stretches of ticks send is what the first sends followed by what the second sends |
| Stream.FailedTickIsolated | src/kafka_stream.py:68-69 | inserting a failed tick anywhere in a run leaves the sent messages unchanged |
| Stream.NothingSent | src/kafka_stream.py:68-69 | ticks that all fail send nothing |
| Stream.OutageThenRecovery | src/kafka_stream.py:63-69 | after any number of failed ticks, one good tick sends exactly its own message |
| Stream.SuccessesAscending | src/kafka_stream.py:59-69 | the positions of the successful ticks are in range and strictly increasing |
| Stream.SuccessesExact | src/kafka_stream.py:63-69 | a tick's position is listed exactly when that tick succeeded |
| Stream.SentMessagesAtSuccesses | src/kafka_stream.py:63-69 | the messages sent (SentMessages) are, j by j, the message of the j-th successful outcome, and there are as many messages as successful outcomes |
| Stream.AddressedTo | src/ETL.py:89 | the messages kept for a topic are no more than those sent, and each is addressed to that topic |
| Stream.AddressedToMembers | src/ETL.py:89 | a message is kept for a topic exactly when it is among those sent and addressed to that topic |
| Stream.SentToProducerTopic | src/kafka_stream.py:66 | every message `producer.send` accepts during a run is addressed to `user_stream` |
| Stream.NoneAddressedTo | src/ETL.py:89 | if no message sent is addressed to a topic, none is kept for it |
| Stream.AllAddressedTo | src/ETL.py:89 | if every message sent is addressed to a topic, all of them are kept, in order |
| Stream.NoneAddressedToConsumerTopic | src/ETL.py:89 | the consumer's topic `users_created` is not the producer's, and no message of any run is addressed to it |
| Stream.AllAddressedToProducerTopic | src/kafka_stream.py:66 | every message `producer.send` accepts during a run is addressed to `user_stream`, in the order sent |

## Left out

- The HTTP request to randomuser.me and `res.json()` are not modelled. A tick takes the decoded response as an input, and `None` means the request or its decoding raised.
- JSON floats are not modelled. Numbers are ints.
- PyJson.Repr, PyJson.Str: a string nested inside a list or dict component prints between single quotes without Python's escaping of quotes, backslashes and unprintable characters. Python's choice of double quotes for strings that contain a single quote is not modelled either.
- A dict value may hold duplicate keys, and a lookup takes the first matching entry. A dict decoded by `json` never has duplicate keys, so the two agree; which of two duplicates `json` keeps is not modelled.
- `json.dumps(...).encode("utf-8")` is not modelled. A message carries the record, and `Record.AsDict` is the dict that would be encoded.
- `producer.send` is asynchronous in kafka-python. Broker delivery, acknowledgement and the `max_block_ms` bound are not modelled; a tick's send is a given success or failure. The future that `send` returns is discarded, so a message `send` accepted can still fail to reach the broker. A call to `send` that raises is a failed tick: its message is not among the sent messages. The model speaks only of the messages `producer.send` accepted without raising and the topic they are addressed to.
- `KafkaProducer(...)` raises outside the loop when the broker is unreachable. This is the `producerUp` input: when it is false, nothing runs.
- `time.time()` is a given sequence of integer millisecond readings, not floats. The window is 10000 ms.
- Stream.StreamData: requires that some clock reading passes the deadline. The model does not cover a clock that never advances, which would make the loop run forever.
- Stream.StreamData: assumes every tick returns. `requests.get` (src/kafka_stream.py:26) has no timeout, so one tick can block forever and the loop then never reaches its next deadline check. The 10 s window bounds when iterations start, not how long a run takes.
- `uuid.uuid4()` is a supplied string per tick. Its randomness and uniqueness are not modelled.
- The text of the log lines is not modelled, only whether a line reports a send or names the failing step.
- The Airflow DAG and its schedule (src/kafka_stream.py:13-21, 72-83) are not modelled.
- flaskServer.py is not part of this model: every endpoint passes CQL to Cassandra.
- src/ETL.py is used only for its field lists and its subscribed topic. Spark parsing, checkpointing and Cassandra writes are library behaviour.

## Findings

| source | as written | input that shows it | evidently intended | confidence | as-written member | corrected member |
|---|---|---|---|---|---|---|
| src/ETL.py:89 | the consumer subscribes to `users_created`, but the producer publishes only on `user_stream` (src/kafka_stream.py:66) | any run with one successful tick: `producer.send` accepts one message, and none is addressed to `users_created` | the consumer reads the topic the producer publishes on | not executed; high | Stream.NoneAddressedToConsumerTopic | Stream.AllAddressedToProducerTopic |
