# Permission-filtered SSE broadcast, round-robin balancer and auth store

A Dafny model of the core of a small server-sent-events system:

- **The broadcast engine** (`SSEService`, `src/sse.ts`). It keeps the active
  push sessions, each tagged with a permission list. A message from the bus
  first passes the `{event: string, data}` shape check. It is then pushed to
  every session whose permissions include its event. A push that throws on
  one session is caught and the pass goes on. The engine also sends
  heartbeats, accepts connections (401 without a user or a permission list),
  publishes `{event, data}` to the bus, counts sessions per permission and
  sends a shutdown notice on `close`.
- **The load balancer** (`src/loadBalancer.ts`): a round-robin cursor over
  the backend list, read and advanced on every request.
- **The front-end auth store** (`front/src/lib/stores/auth.svelte.ts`): an
  in-memory token and flag mirrored into `localStorage`.

Files and modules:

| file | module | contents |
|---|---|---|
| `wrappers.dfy` | `Wrappers` | `Option` |
| `values.dfy` | `Values` | decoded JavaScript values, opaque timestamps |
| `messages.dfy` | `Messages` | the shape check and the message `publish` builds |
| `sessions.dfy` | `Sessions` | sessions as values; what one pass of each engine loop does, as functions, with lemmas |
| `service.dfy` | `Service` | the `SseService` class: the registry and the engine's operations |
| `load_balancer.dfy` | `LoadBalancer` | the `Balancer` class and the round-robin lemmas |
| `auth_store.dfy` | `Auth` | the `AuthStore` class over a `map<string, string>` storage |

Each engine loop (`broadcastMessage`, the heartbeat tick, `close`, the
permission count) is a method with a `while` loop. Its `ensures` ties the new
registry, or the result, to a function of the old registry in `Sessions`. The
lemmas beside those functions state what the code promises.

A session's `broken` flag stands for a transport on which `session.push`
throws. Such a push delivers nothing.

A user with an empty permission list is accepted by `connect`: the check
only refuses a missing user or a missing list. Such a session receives
heartbeats and the shutdown notice but no broadcast event.

In four places the code does less than, or other than, the system is meant
to do. The model follows the code:

- **Heartbeat.** Every active session is meant to receive each heartbeat.
  The code has one `try` around the whole pass
  (`src/sse.ts:79-89`), so the first push that throws ends the pass. Later
  sessions get no heartbeat on that tick (`Sessions.HeartbeatStopsAtBroken`).
  `broadcastMessage` and `close` have a `try` per session and isolate failures.
- **Disconnect.** A session is meant to be unregistered when its connection
  closes. The `close` handler in `connect` only logs, so nothing here removes
  a session from the registry.
- **Connect.** The session is registered before the "connection" frame is
  pushed. If that push throws, the session stays
  registered without the frame and the error goes to `next`.
- **Publish.** A publish is meant to report a delivery count or an error.
  The code hands `{event, data}` to the publisher and returns its result. The
  model records the message in `outbox`, the list of messages handed to the
  publisher.

## Model

| member | source | states |
|---|---|---|
| `Messages.ParseMessage` | src/sse.ts:21-24 | the shape check fails exactly on malformed values (not an object, or `event` missing or not a string); on success the message's `event` and `data` are the raw object's `event` string and `data` property |
| `Messages.EncodeMessage` | src/sse.ts:151 | the message `publish` builds is an object with exactly the keys `event` and `data`, and the shape check accepts it and yields back exactly `(event, data)` |
| `Messages.EncodeParse` | src/sse.ts:21-24 | an accepted value re-encodes to the same `event` and `data`; the check only strips other properties |
| `Sessions.BroadcastDeliversIffPermitted` | src/sse.ts:98-105 | a session gets exactly one more frame `(event, data)` iff its permissions include the event and its push does not throw; otherwise it is unchanged; state and transport never change |
| `Sessions.DeliveredCount` | src/sse.ts:96-111 | `deliveredCount` never exceeds the number of sessions |
| `Sessions.DeliveredCountIsReceivers` | src/sse.ts:96-111 | `deliveredCount` is the size of the set of sessions that are permitted the event and whose push did not throw |
| `Sessions.BroadcastUnpermittedIsNoOp` | src/sse.ts:98-105 | an event no session is permitted changes no session and counts zero deliveries |
| `Sessions.FirstBroken` | src/sse.ts:79-89 | the heartbeat pass stops at the first session whose push throws; every session before it has a working transport |
| `Sessions.HeartbeatReachesBeforeBroken` | src/sse.ts:83-85 | every session before the first broken transport (all of them when none is broken) gets exactly one more `heartbeat` frame, whatever its permissions, and nothing else about it changes |
| `Sessions.HeartbeatStopsAtBroken` | src/sse.ts:79-89 | a session at or after a broken one is left unchanged by the heartbeat pass |
| `Sessions.PushEachIsolatesFailures` | src/sse.ts:185-191 | the shutdown pass gives each working session exactly one more frame and leaves a broken one unchanged without stopping the rest |
| `Sessions.TallyStep` | src/sse.ts:171 | one increment of `permissionCounts[p]`, a missing key starting from 0, keeps the dictionary an exact tally of the permissions seen so far |
| `Sessions.OccurrencesCountSessions` | src/sse.ts:163-177 | when no session lists a permission twice, the occurrences of `p` equal the number of sessions holding `p` |
| `Sessions.DeliveredCountMatchesPermitting` | src/sse.ts:96-111 | with no broken transport `deliveredCount` equals the number of sessions holding the event's permission |
| `Service.HeartbeatEnabled` | src/sse.ts:77 | a heartbeat timer is installed iff the configured period, read as a JavaScript value (`undefined` when absent), is truthy |
| `Service.SseService.constructor` | src/sse.ts:37-57 | a new service has an empty registry and nothing published; a heartbeat timer is installed iff the period is present and non-zero |
| `Service.SseService.OnBusMessage` | src/sse.ts:60-73 | a malformed bus value is dropped and changes nothing; a valid one is broadcast, with its delivery count |
| `Service.SseService.BroadcastMessage` | src/sse.ts:94-112 | the registry becomes the permission-filtered broadcast of the old one; the result is `deliveredCount`, which, since every registered session has a permission list, is the number of sessions whose list holds the event and whose push does not throw |
| `Service.SseService.HeartbeatTick` | src/sse.ts:76-91 | with a timer installed the registry becomes the heartbeat pass of the old one; with none, nothing changes |
| `Service.SseService.Connect` | src/sse.ts:114-147 | 401 iff there is no user or no permission list, and then nothing is registered; otherwise exactly one session with the user's permissions, name, id and first clock reading is appended and sent one `connection` frame stamped with a second clock reading, and the outcome is a failure iff that push throws |
| `Service.SseService.Publish` | src/sse.ts:149-157 | exactly `{event, data}` is sent on the configured channel, and it passes the receiver's shape check as `(event, data)` |
| `Service.SseService.ActiveSessionsCount` | src/sse.ts:159-161 | the number of active sessions |
| `Service.SseService.ActiveSessionsByPermission` | src/sse.ts:163-177 | the dictionary maps each permission to its number of occurrences across all sessions' permission lists, and has no other key |
| `Service.SseService.Close` | src/sse.ts:179-194 | the heartbeat timer is removed, every working session gets one `shutdown` frame, broken ones are skipped without stopping the rest, and the registry keeps every session |
| `Service.RegistryReceives` | src/sse.ts:100-105 | in a registry built by `connect`, a push is attempted iff the event is in the session's permission list, and the session ends up with the message iff, in addition, that push does not throw |
| `Service.TallyMatchesDelivered` | src/sse.ts:163-177 | a permission's count in the statistics equals the delivery count of a broadcast of that event, when no list repeats a permission and no transport is broken |
| `LoadBalancer.NextIndex` | src/loadBalancer.ts:11 | the advanced cursor is a valid index: the successor, or 0 after the last backend |
| `LoadBalancer.EachBackendOncePerWindow` | src/loadBalancer.ts:10-11 | over any `servers.length` consecutive requests each backend is chosen exactly once |
| `LoadBalancer.Balancer.constructor` | src/loadBalancer.ts:4-5 | the cursor starts at 0 |
| `LoadBalancer.Balancer.HandleRequest` | src/loadBalancer.ts:8-18 | the target is `servers[currentIndex]`, which is `servers[k % servers.length]` for the k-th request; the cursor becomes `(old + 1) % servers.length` and stays in range; a failed proxy call changes only the reply to 502 |
| `Auth.AuthStore.constructor` | front/src/lib/stores/auth.svelte.ts:1-3 | the token is the stored one or `''`; the flag is true iff the stored flag is `"true"` |
| `Auth.AuthStore.SetJwt` | front/src/lib/stores/auth.svelte.ts:6-11 | the token is set and the flag is true, both in memory and in storage |
| `Auth.AuthStore.SetIsAuthenticated` | front/src/lib/stores/auth.svelte.ts:13-19 | the flag is set in memory and stored as `"true"`/`"false"`; logging out removes the stored token but keeps the in-memory one; logging in leaves both tokens alone |
| `Auth.AuthStore.GetIsAuthenticated` | front/src/lib/stores/auth.svelte.ts:21-23 | the in-memory flag, which always equals the stored flag being `"true"` |
| `Auth.AuthStore.GetJwt` | front/src/lib/stores/auth.svelte.ts:25-27 | the in-memory token, which is the stored one whenever a token is stored |
| `Auth.ReloadAfterSetJwt` | front/src/lib/stores/auth.svelte.ts:6-11 | a store re-created from storage after `setJwt(t)` holds token `t` and is authenticated |
| `Auth.ReloadAfterSetAuthenticated` | front/src/lib/stores/auth.svelte.ts:13-19 | a store re-created after `setIsAuthenticated(v)` has flag `v`; after a logout its token is `''` |

## Left out

- The Redis publisher and subscriber (`src/pubSub.ts`) and JSON serialization are foreign calls. The bus is modelled as handing the object `publish` built to `OnBusMessage`. Subscribing, and a failing `initialize`, are not modelled.
- The factory functions `createRedisPublisher`, `createRedisSubscriber` and `createSSEService` only wire objects together. Their constructor arguments do not match `src/pubSub.ts`.
- better-sse internals (`createSession`, `createChannel`, `register`, deregistration on disconnect) are library code. Sessions are values held in the registry's sequence, so aliasing of session objects is not modelled. A `createSession` that throws is not modelled; only a throwing push is.
- Timers and the clock are left out. `HeartbeatTick` is one firing of the timer. Each tick uses a single timestamp, while the source reads the clock once per push.
- Logging is dropped; the `deliveredCount` that the source only logs is returned by `BroadcastMessage`.
- `Service.SseService.ActiveSessionsByPermission`: permission names that collide with `Object.prototype` members (such as `constructor`) would read an inherited value in `permissionCounts`; the model treats the dictionary as an empty map.
- `Service.SseService.constructor`: a non-numeric `heartbeatInterval` such as `NaN` is not modelled; the period is an optional integer.
- Numbers are integers; floating point is not modelled.
- HTTP routing, JWT signing, passport authentication, process start-up and configuration (`src/router.ts`, `src/server1.ts`, `src/server2.ts`, `src/db.ts`) are transport and plumbing.
- `LoadBalancer.Balancer.constructor`: requires a non-empty backend list; the source's list has two entries (`LoadBalancer.Backends`), and an empty list is not modelled. The proxying itself (`proxy.web`, `http.createServer`) is foreign.
- The auth store's Svelte reactivity, and writes to `localStorage` by other code, are not modelled.
