# sensu-trapd event pipeline in Dafny

A model of the event pipeline of sensu-trapd, a bridge that turns SNMP traps
into Sensu events. The model covers four parts. A handler rule accepts a trap
and builds its substitution map. An event template is rendered by replacing
`{token}` placeholders. The server loads rules and routes each trap to the first
rule that accepts it. The dispatcher keeps a queue of pending events, tries to
deliver the head over a fresh connection and backs off after a failure. There is
also the small host-name split used after a reverse DNS lookup.

Modules follow the source files:

- `Traps` (trap.dfy): the trap record, plus Python's `str()` of the values a trap carries.
- `Event` (event.dfy): the template value, `str.format` on named placeholders, `_apply_substitutions`, `TrapEvent`.
- `Handler` (handler.dfy): `TrapHandler`, with `handles`, `_build_substitutions` and `transform`.
- `Server` (server.dfy): `_load_trap_handler` through an abstract symbol lookup, `_handle_trap`, `run` and `stop`.
- `Dispatcher` (dispatcher.dfy): the queue step function and its lemmas, the reply check, and the classes `TrapEventDispatcher` and `TrapEventDispatcherThread`.
- `Util` (util.dfy): `get_hostname_from_address`, given the result of the reverse lookup.
- `Wrappers` (wrappers.dfy): `Option` and `Result`.

A few modelling choices:

- Python dicts are iterated in an unspecified order. Methods that loop over a
  dict pick the next key with `:|`. Their contracts hold for every order.
- An event template's mapping is the sequence of its entries in the order
  Python iterates it. Python 2 iterates a dict in hash order, which the model
  does not compute. Which of two template keys rendering to the same key wins,
  and which failure is reported first, are stated relative to that sequence.
  The dict built by `dict(pairs)` is given one possible order: each key at the
  place of its first pair.
- The server's dict of handlers is a sequence, in whatever order the loop
  visits it.
- Object identifiers are their dotted strings, so `str(oid)` is the identifier.
- A failed outcome from the network, from the DNS resolver or from the symbol
  resolver is an input to the model.
- In `run`, `backoff` is a local variable. Here it is a field of the dispatcher
  thread, so that one loop iteration (`Tick`) can be a method.

Three behaviours of the code that the model keeps:

- A render error in `transform` is not caught. It propagates out of
  `_handle_trap`, and nothing is enqueued (`HandleOutcome.Handled` with an `Err` result).
- The rule collection is a dict, so first-match order is the dict's iteration order.
- The dispatcher thread's `stop` closes the transport's socket unconditionally.

## Model

| member | source | states |
|---|---|---|
| `Event.Format` | src/sensu/snmp/event.py:10-11 | a `MissingKey` failure names a token absent from the substitution map; formatting never reports a non-mapping |
| `Event.Fill` | src/sensu/snmp/event.py:10-11 | reference semantics of a format string as text and placeholders: it succeeds exactly when every placeholder's token is in the map, and otherwise fails with a missing token |
| `Event.FormatUnparse` | src/sensu/snmp/event.py:10-11 | for text with plain `{name}` placeholders, `str.format` output is the text with each placeholder replaced by `substitutions[name]`; it fails when a referenced token is absent |
| `Event.FormatOkIsUnparse` | src/sensu/snmp/event.py:10-11 | every string the model formats successfully is literal text (braces doubled) plus plain placeholders, so the previous row describes every success of the model; strings outside the model's grammar (see `Event.Format` under Left out) fail in the model |
| `Event.FormatField` | src/sensu/snmp/event.py:10-11 | a `{name}` placeholder with a plain name formats to `substitutions[name]` followed by the formatted rest, and fails with `KeyError` on that name when it is absent |
| `Event.FormatNoBraces` | src/sensu/snmp/event.py:10-11 | a string with no braces formats to itself under any map |
| `Event.Insert` | src/sensu/snmp/event.py:18-24 | one store `d[key] = value` while `dict(pairs)` is built: keys stay distinct, the key set gains the key, the binding is present, every other entry is an old one of a different key; a new key is placed last |
| `Event.InsertReplaces` | src/sensu/snmp/event.py:18-24 | storing a key that is already present replaces its binding where it stands: same length, and every other entry is unchanged and in place |
| `Event.FromPairs` | src/sensu/snmp/event.py:18-24 | `dict(pairs)`: keys unique, key set equal to the pairs' keys, no more entries than pairs, each entry is a pair that no later pair of the same key overrides |
| `Event.FromPairsUnique` | src/sensu/snmp/event.py:7 | `dict()` of a mapping with distinct keys is that mapping |
| `Event.Render` | src/sensu/snmp/event.py:9-26 | a non-string, non-list, non-dict scalar is returned unchanged; a string renders to its formatted string; a list keeps its length; a dict renders to a dict with unique keys and no more entries; a `MissingKey` failure names an absent token |
| `Event.RenderList` | src/sensu/snmp/event.py:12-16 | a list renders exactly when every element does, to a list of the same length whose i-th element is the rendering of the i-th element |
| `Event.RenderPairs` | src/sensu/snmp/event.py:17-24 | dict entries render exactly when every key and value does; the i-th rendered pair is the rendering of the i-th template key and value |
| `Event.RenderDict` | src/sensu/snmp/event.py:17-24 | each entry of a rendered dict is a rendered template key and value that no later template key of the same rendering overrides; every rendered template key is present |
| `Event.RenderPlain` | src/sensu/snmp/event.py:9-26 | a template with no `{` or `}` anywhere (and distinct dict keys) renders to itself under any map (escapes are excluded too, since `{{` formats to `{`) |
| `Event.RenderFailsOnString` | src/sensu/snmp/event.py:9-26 | if any string at any depth (keys included) fails to format, the whole rendering fails |
| `Event.ToDict` | src/sensu/snmp/event.py:7 | `dict(event)`: a dict with distinct keys is copied as is; a list succeeds exactly when every item is a two-element list, and then gives `dict(pairs)` of those pairs in order; a scalar or string is refused; any result has distinct keys |
| `Event.NewTrapEvent` | src/sensu/snmp/event.py:5-7 | a built event stores exactly the given substitutions and its event is a mapping; for a mapping template with distinct keys, the event is built exactly when the template renders, and the event is that rendering; a `MissingKey` failure names an absent token |
| `Event.TrapEventOfPlainTemplate` | src/sensu/snmp/event.py:5-7 | a mapping template with no `{` or `}` anywhere (and distinct dict keys) becomes an event equal to the template |
| `Event.MissingTokenNoEvent` | src/sensu/snmp/event.py:5-11 | a mapping template holding a string that cannot be formatted builds no event |
| `Handler.TrapHandler.Accepts` | src/sensu/snmp/handler.py:12-18 | the acceptance rule: the trap type is the handler's, and the trap's arguments other than sysUpTime are all declared |
| `Handler.TrapHandler.Handles` | src/sensu/snmp/handler.py:12-18 | true exactly when the trap type matches and every trap argument is sysUpTime `1.3.6.1.2.1.1.3.0` or declared; declared arguments the trap lacks do not matter (both directions) |
| `Handler.TrapHandler.BuildSubstitutions` | src/sensu/snmp/handler.py:20-35 | keys are exactly "oid", the property names and the tokens of declared arguments the trap carries; a token gets `str()` of an argument declaring it; a property keeps its value unless a token overrides it; "oid" is the trap identifier unless overridden |
| `Handler.TrapHandler.ArgLayerStep` | src/sensu/snmp/handler.py:31-33 | writing one more declared argument keeps the argument-layer invariant of the loop |
| `Handler.TrapHandler.TokenTakesArgument` | src/sensu/snmp/handler.py:31-33 | when only one carried argument declares a token, the token's value is `str()` of that argument, since the argument layer is written last |
| `Handler.TrapHandler.SubstitutionsDetermined` | src/sensu/snmp/handler.py:20-35 | with distinct tokens, every iteration order gives the same substitution map |
| `Handler.TrapHandler.Transform` | src/sensu/snmp/handler.py:37-39 | the result is `TrapEvent(self.event, subs)` for a substitution map satisfying `BuildSubstitutions`' contract (`IsSubstitutionMap`) |
| `Handler.ScenarioUserArgument` | src/sensu/snmp/handler.py:12-35 | a rule declaring one argument as token "user" accepts a trap holding "alice" there, and builds user = "alice" and oid = the trap type |
| `Server.Resolve` | src/sensu/snmp/server.py:69-71 | a reference resolves exactly when it unpacks into two names that the lookup knows, and its value is the lookup's |
| `Server.LoadTrapHandler` | src/sensu/snmp/server.py:57-78 | the rule loads exactly when its type and every argument reference resolve; otherwise a failing type is the error; without `args` the declared arguments are empty; otherwise their OIDs are exactly the resolved references and each maps to a token whose reference resolves to it; so a loaded rule binds no token to two identifiers and its substitution map does not depend on iteration order |
| `Server.ResolvedTokensDistinct` | src/sensu/snmp/server.py:66-72 | when each declared identifier is what its token's reference resolves to, no two carried identifiers share a token, for every trap |
| `Server.SensuTrapServer.constructor` | src/sensu/snmp/server.py:13-29 | the server starts stopped with the given rules and an idle dispatcher with an empty queue |
| `Server.SensuTrapServer.HandleTrap` | src/sensu/snmp/server.py:83-96 | no event is enqueued and `NoHandler` is returned exactly when no rule accepts; otherwise the first accepting rule transforms the trap and its event, if rendered, is the single one appended |
| `Server.SensuTrapServer.Run` | src/sensu/snmp/server.py:109-117 | the server and the dispatcher thread are running with backoff 0 |
| `Server.SensuTrapServer.Stop` | src/sensu/snmp/server.py:98-107 | a running server stops its dispatcher thread and releases its connection; when stopped already, nothing changes |
| `Dispatcher.Step` | src/sensu/snmp/dispatcher.py:38-61 | one loop iteration: the queue loses its head exactly on a delivered attempt and is otherwise unchanged; a pending countdown drops by one; a failed attempt sets it to the configured backoff; otherwise it stays |
| `Dispatcher.FifoDelivery` | src/sensu/snmp/dispatcher.py:22-61 | for any run of enqueues and ticks, delivered events followed by still-queued events equal the queued events followed by enqueued ones, so deliveries are a prefix of the enqueue order |
| `Dispatcher.HeadOfLine` | src/sensu/snmp/dispatcher.py:42-50 | until something is delivered, every attempt is on the same head event, and that event stays at the head |
| `Dispatcher.BackoffIdle` | src/sensu/snmp/dispatcher.py:37-61 | while the countdown lasts no attempt is made, the queue only grows by enqueues and each tick takes exactly one off the countdown |
| `Dispatcher.RetryAfterFailure` | src/sensu/snmp/dispatcher.py:45-59 | after a failure with configured backoff b >= 0 the queue is unchanged; exactly b idle ticks pass; the next attempt is on the event that failed |
| `Dispatcher.StripLeft` | src/sensu/snmp/dispatcher.py:126 | the leading half of `str.strip()`: the result is a suffix of the input, what is removed is all whitespace, and the result does not start with whitespace |
| `Dispatcher.StripRight` | src/sensu/snmp/dispatcher.py:126 | the trailing half of `str.strip()`: the result is a prefix of the input, what is removed is all whitespace, and the result does not end with whitespace |
| `Dispatcher.Strip` | src/sensu/snmp/dispatcher.py:126 | `data.strip()`: the result is the input with only whitespace cut from each end, and neither end of the result is whitespace |
| `Dispatcher.AckPadded` | src/sensu/snmp/dispatcher.py:126 | "ok" with any `str.strip()` whitespace around it strips to "ok" |
| `Dispatcher.PaddedAck` | src/sensu/snmp/dispatcher.py:126 | data that is "ok" with only whitespace around it is non-empty and strips to "ok" |
| `Dispatcher.AckShape` | src/sensu/snmp/dispatcher.py:126 | data that strips to "ok" is "ok" with whitespace around it and nothing else |
| `Dispatcher.StripOk` | src/sensu/snmp/dispatcher.py:126 | non-empty data strips to "ok" exactly when it is "ok" with only whitespace around it |
| `Dispatcher.IsAck` | src/sensu/snmp/dispatcher.py:126 | the reply check `len(data) > 0 and data.strip() == "ok"` holds exactly when the reply is "ok" padded with whitespace |
| `Dispatcher.Delivers` | src/sensu/snmp/dispatcher.py:106-137 | `dispatch` returns True exactly when the event was sent and, when replies are checked, the reply is "ok" padded with whitespace |
| `Dispatcher.TrapEventDispatcher.constructor` | src/sensu/snmp/dispatcher.py:66-72 | the transport starts holding no socket; it keeps the configuration's `check_response` flag, which `dispatch` reads later (host, port and timeout belong to the socket I/O left out) |
| `Dispatcher.TrapEventDispatcher.Close` | src/sensu/snmp/dispatcher.py:100-104 | afterwards no socket is held; a held socket is closed; with none held, nothing changes, so the call is idempotent |
| `Dispatcher.TrapEventDispatcher.Connect` | src/sensu/snmp/dispatcher.py:74-98 | a fresh socket is opened and held; after a connect failure it is closed and none is held |
| `Dispatcher.TrapEventDispatcher.Dispatch` | src/sensu/snmp/dispatcher.py:106-137 | success exactly when the event was sent and, with `check_response`, the reply is an acknowledgement; on every path the connection is closed and none is held |
| `Dispatcher.TrapEventDispatcherThread.constructor` | src/sensu/snmp/dispatcher.py:13-20 | empty queue, not running, a transport holding no socket |
| `Dispatcher.TrapEventDispatcherThread.Dispatch` | src/sensu/snmp/dispatcher.py:22-28 | the event is appended at the tail, earlier entries unchanged, and True is returned |
| `Dispatcher.TrapEventDispatcherThread.Start` | src/sensu/snmp/dispatcher.py:34-37 | running, backoff 0 |
| `Dispatcher.TrapEventDispatcherThread.Stop` | src/sensu/snmp/dispatcher.py:30-32 | not running, and the transport holds no open socket |
| `Dispatcher.TrapEventDispatcherThread.Tick` | src/sensu/snmp/dispatcher.py:38-61 | the new queue and countdown are the queue step of the old ones. With backoff > 0 the countdown drops by one and nothing is attempted. An empty queue is left alone. Otherwise only the head is attempted: success drops it, failure puts it back at the head and sets the configured backoff |
| `Traps.Digits` | src/sensu/snmp/handler.py:24-33 | decimal digits of a natural number: digits only, no leading zero, and they denote the number |
| `Traps.Show` | src/sensu/snmp/handler.py:24-33 | `str()` of a trap value: a string as it is; an integer in canonical decimal, with a leading '-' when negative, denoting the integer; `True`/`False`; `None` |
| `Util.Split` | src/sensu/snmp/util.py:10 | `split('.')` gives one more part than there are dots, none containing a dot |
| `Util.JoinSplit` | src/sensu/snmp/util.py:10-14 | joining the split parts with the separator gives back the string |
| `Util.Join` | src/sensu/snmp/util.py:14 | `sep.join(parts)` of parts without the separator contains one separator fewer than there are parts |
| `Util.SplitJoin` | src/sensu/snmp/util.py:10-14 | splitting a join of separator-free parts gives the parts back, the converse of JoinSplit |
| `Util.HostnameFromAddress` | src/sensu/snmp/util.py:6-16 | a name with at most one dot (at most two labels) is returned whole with domain ""; otherwise `host + "." + domain` is the name, the host has no dot and the domain holds every other dot; a host-not-found error gives `(addr, addr)`; other lookup errors propagate |

## Left out

- Socket I/O: connecting, `sendall`, the non-blocking `recv` poll against `time.time()` and the timeouts. Each attempt's network behaviour is the input `LinkOutcome`. A reply is the first chunk read, or "" when nothing arrives before the timeout.
- The dead branch of `_connect` where `socket.socket` returns `None`: Python never returns `None` there.
- Threads, `time.sleep(1)`, `join` and the race between `stop` and the consumer. The consumer loop is one `Tick` per iteration, and the server's wait loop is left out.
- `TrapReceiverThread` and `MibResolver` are not part of this model. The receiver's start and stop in `run` and `stop` are left out. Symbol lookup is a function parameter. Its `None` stands for `lookup` raising. A lookup that returned Python `None` would be stored as the trap type or as an argument key, and the rule would load; that case is not modelled.
- Logging, `to_json`, `json.dumps` and `__repr__`, except for the failures listed in the next four lines.
- Dispatcher.TrapEventDispatcherThread.Dispatch: the model assumes the rendered event serialises to JSON and has a top-level `"name"` key. Otherwise `json.dumps` in `to_json` (src/sensu/snmp/dispatcher.py:24) raises first and nothing is enqueued. Or the event is appended (src/sensu/snmp/dispatcher.py:26) and the `%r` log line (src/sensu/snmp/dispatcher.py:27) then raises `KeyError` from `__repr__`, so the call raises instead of returning True.
- Dispatcher.TrapEventDispatcherThread.Tick: the model assumes the head event has a top-level `"name"` key. Otherwise the `%r` log line at the start of the transport's `dispatch` (src/sensu/snmp/dispatcher.py:107) raises `KeyError` outside its `try`. `run` catches only `IndexError` (src/sensu/snmp/dispatcher.py:54), so the consumer thread ends and the event already popped is lost.
- Dispatcher.TrapEventDispatcher.Dispatch: the model assumes the event has a top-level `"name"` key. Otherwise the `%r` log line (src/sensu/snmp/dispatcher.py:107) raises `KeyError` before the `try`, so no connection is opened or closed and no result is returned; the model's outcome does not apply.
- Server.SensuTrapServer.HandleTrap: inherits the assumptions of the enqueue above (src/sensu/snmp/dispatcher.py:24 and 27). With an event that does not serialise, or that lacks `"name"`, the exception propagates out of `_handle_trap`, and the model's outcome for that trap does not apply.
- `_parse_trap_handlers`, `_configure_mibs` and the rule-file reading. These are file I/O and JSON parsing. `HandlerConfig` assumes the document already has the `trap`/`type`/`event` shape.
- `_load_trap_handler`'s handler-id parameter: it is used only in a commented-out log line.
- Event.Format: models plain `{name}` placeholders and the `{{` and `}}` escapes only. A field followed by `.`, `[`, `!` or `:` (attributes, indexing, conversion, format spec) gives `UnsupportedField`, whereas Python would evaluate it. A `{` inside a field name gives `BraceInField`, whereas Python 2.7 matches nested braces and looks up the brace-balanced text: `"{a{b}}"` formats to `"x"` under `{"a{b}": "x"}` (and raises `KeyError` when `a{b}` is absent), but the model reports `BraceInField`.
- Event.ToDict: differs from Python's `dict()` in four cases. `dict("")` is `{}`, but the model reports `NotAMapping` (a non-empty string fails in both). A list whose items are two-character strings or two-key mappings gives a dict in Python but `NotAMapping` here. A list of pairs whose first element is a list or a mapping makes Python raise `TypeError` (unhashable key), but the model accepts it. Pairs whose first elements are `1` and `True` (or `0` and `False`) give one key in Python, which treats those as equal keys, but two entries here: `[[1, "a"], [true, "b"]]` is `{1: "b"}` in Python and keeps both pairs in the model.
- Event.Insert: keys are compared as model values. Python treats `1` and `True`, and `0` and `False`, as the same key, so storing `True` into a dict holding key `1` replaces that binding in Python but adds a second entry here.
- Event.FromPairs: keys are compared as model values, as in `Event.Insert`, so pairs keyed `1` and `True` (or `0` and `False`) give two entries here and one in Python.
- Event.Render: template strings are taken to be byte strings (`str`). A Python 2 `unicode` string fails the `isinstance(template, str)` test and would be returned unrendered.
- Template scalars are integers, booleans and null. Floats are left out.
- `Traps.Show`: `str()` of trap values is modelled for strings, integers, booleans and `None`. Other SNMP value types are represented by their string form.
