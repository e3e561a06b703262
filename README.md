# Outbound message fan-out of MLAPI's `InternalMessageSender`

This project models the send path of MLAPI's networking layer. `InternalMessageSender`
has four `Send` overloads: one target, every connected client, an explicit list of
client ids, and every connected client except one. For each call they decide which
connection ids get a transport write, in what order, and how often the payload is wrapped.

The model has three modules:

- `SendPolicy` (`send_policy.dfy`) holds the pure part of those decisions.
  - `IsSecured` is the "secured" test. It holds when either the `Encrypted` or the
    `Authenticated` flag bit is set and encryption is enabled in the network configuration.
  - `Recipients` gives the ids a fan-out loop writes to. It passes over the server's
    own id when the process is the server, and over the ignored id of the all-except
    overload.
  - `Fanout` gives what a fan-out appends to the wrapper log and to the transport log.
    When unsecured, it wraps once with sender id 0 and reuses that frame for every
    write. When secured, it wraps once per target, for that target.
  - The lemmas prove order, duplicates, membership in both directions and byte counts
    for these functions.
- `InternalMessageSender` (`internal_message_sender.dfy`) holds the class `Dispatcher`.
  - Its constant fields are a fixed snapshot of the environment: `isServer`,
    `serverClientId`, `enableEncryption`, the connected client ids and the wrapper's
    frame length.
  - Its mutable fields are what the collaborators would observe: the wrap-call log,
    the transport write log, the bytes-sent counter and the number of `PadStream` calls.
  - Each overload is a method, and its loops run in the same order as the C# loops.
    Its `ensures` clause states exactly what it appends, in terms of `Recipients` and
    `Fanout`.
- `Scenarios` (`scenarios.dfy`) holds client code. It derives concrete outcomes from the
  method contracts alone, on a server with id 1 and clients 1, 2 and 3.

Frames are abstract. A frame is an id plus a length. The i-th frame the wrapper returns
has id i, so frames are fresh. "The same buffer is reused" is therefore stated as "the
same frame value is written". The dispatcher's invariant `Valid` also says that every
logged write carries a frame the wrapper returned (`AllProduced`).

The frame's length comes from a function supplied when the dispatcher is constructed; it
stands in for `MessagePacker.WrapMessage`. It takes the message, the sender id and the
wrap's number in the wrap log. The number stands for the state of the message stream,
which each `PadStream` call may change. So the model never assumes that two wraps of the
same message, made after different numbers of pads, have the same length.

Three behaviours of the code are easy to miss:

- A non-null empty id list is not a broadcast. It makes no transport write. On the
  unsecured branch it still pads once and wraps once. Only a `null` list (`None`) falls
  back to the broadcast overload (lines 70-74).
- A secured broadcast calls the single-target send for every connected client,
  including the server's own id. That call pads and then returns, so padding happens
  once per connected client. Wrapping happens once per client other than the server
  (lines 40-45 and 17-20).
- On the secured branch of the list overload, a listed server id is skipped by the
  single-target send's own check (line 19). So self-exclusion also applies there.

## Model

| member | source | states |
|---|---|---|
| `SendPolicy.IsSecured` | com.unity.multiplayer.mlapi/Runtime/Messaging/InternalMessageSender.cs:37-40 | secured exactly when encryption is enabled and the flags have the Encrypted or Authenticated bit; with encryption disabled no flag value is secured |
| `SendPolicy.Recipients` | com.unity.multiplayer.mlapi/Runtime/Messaging/InternalMessageSender.cs:54-57 | the filtered target list is never longer than the id list it filters |
| `SendPolicy.RecipientsMember` | com.unity.multiplayer.mlapi/Runtime/Messaging/InternalMessageSender.cs:129-133 | an id is a target exactly when it is listed, is not the ignored id, and is not the server's own id while running as server |
| `SendPolicy.RecipientsCount` | com.unity.multiplayer.mlapi/Runtime/Messaging/InternalMessageSender.cs:93-98 | a kept id is targeted as many times as it is listed (duplicates kept); a skipped id is targeted zero times |
| `SendPolicy.RecipientsAppend` | com.unity.multiplayer.mlapi/Runtime/Messaging/InternalMessageSender.cs:54-59 | filtering distributes over concatenation, so targets keep list order |
| `SendPolicy.RecipientsSnoc` | com.unity.multiplayer.mlapi/Runtime/Messaging/InternalMessageSender.cs:56-59 | one more listed id adds that id at the end of the targets unless it is skipped, and otherwise nothing |
| `SendPolicy.RecipientsPrefix` | com.unity.multiplayer.mlapi/Runtime/Messaging/InternalMessageSender.cs:93-98 | `RecipientsSnoc` at loop position i, from which it is proved: step i adds `ids[i]` to the targets of `ids[..i]` exactly when it is not skipped |
| `SendPolicy.RecipientsUnfiltered` | com.unity.multiplayer.mlapi/Runtime/Messaging/InternalMessageSender.cs:93-98 | when no listed id is skipped, the targets are the list itself, in order and with duplicates |
| `SendPolicy.ClientBroadcastReachesAll` | com.unity.multiplayer.mlapi/Runtime/Messaging/InternalMessageSender.cs:54-59 | when not running as server, a broadcast targets every connected id in order |
| `SendPolicy.IgnoreAbsentIsBroadcast` | com.unity.multiplayer.mlapi/Runtime/Messaging/InternalMessageSender.cs:129-133 | ignoring an id that is not connected selects exactly the broadcast's targets |
| `SendPolicy.IgnoreSelfIsBroadcast` | com.unity.multiplayer.mlapi/Runtime/Messaging/InternalMessageSender.cs:131-132 | on the server, ignoring the server's own id selects exactly the broadcast's targets |
| `SendPolicy.Fanout` | com.unity.multiplayer.mlapi/Runtime/Messaging/InternalMessageSender.cs:40-62 | one write per target in target order. Wrapped frames get fresh consecutive ids. Unsecured: exactly one wrap, with sender 0, and every write carries its frame. Secured: one wrap per target with that target as sender, each write carries its own target's frame, and no two writes share a frame |
| `SendPolicy.FanoutTargets` | com.unity.multiplayer.mlapi/Runtime/Messaging/InternalMessageSender.cs:40-62 | secured or not, the write targets are the selected targets in order |
| `SendPolicy.WrittenIff` | com.unity.multiplayer.mlapi/Runtime/Messaging/InternalMessageSender.cs:112-138 | on both branches, an id gets a write exactly when it is listed, is not ignored, and is not the server's own id while running as server |
| `SendPolicy.SharedWritesLength` | com.unity.multiplayer.mlapi/Runtime/Messaging/InternalMessageSender.cs:59-61 | writing one shared frame to n targets hands the transport n times the frame length |
| `SendPolicy.UnsecuredFanoutLength` | com.unity.multiplayer.mlapi/Runtime/Messaging/InternalMessageSender.cs:51-61 | an unsecured fan-out's byte count is the wrapped frame length times the number of writes |
| `SendPolicy.TotalLengthAppend` | com.unity.multiplayer.mlapi/Runtime/Messaging/InternalMessageSender.cs:27-28 | the bytes-sent total of consecutive writes is the sum of their totals |
| `SendPolicy.AllProducedGrow` | com.unity.multiplayer.mlapi/Runtime/Messaging/InternalMessageSender.cs:22-27 | a later wrap never disowns a frame already written: if every logged write carries a frame from the wrap log, it still does after more wraps |
| `SendPolicy.AllProducedAt` | com.unity.multiplayer.mlapi/Runtime/Messaging/InternalMessageSender.cs:51-59 | when the invariant holds, the write at any position of the log carries a frame the wrapper returned |
| `SendPolicy.PerPeerStep` | com.unity.multiplayer.mlapi/Runtime/Messaging/InternalMessageSender.cs:42-45 | one more secured target appends its own wrap and its own write at the end of the logs, and adds its frame's length to the byte count |
| `InternalMessageSender.Dispatcher.Pad` | com.unity.multiplayer.mlapi/Runtime/Messaging/InternalMessageSender.cs:17 | one `PadStream` call adds one to the pad count; nothing else changes |
| `InternalMessageSender.Dispatcher.Wrap` | com.unity.multiplayer.mlapi/Runtime/Messaging/InternalMessageSender.cs:22 | a wrap logs one call with the given sender id and returns a frame whose id is fresh, with the length the wrapper gives for that message, sender and wrap number; earlier writes still carry produced frames |
| `InternalMessageSender.Dispatcher.Transmit` | com.unity.multiplayer.mlapi/Runtime/Messaging/InternalMessageSender.cs:27-28 | only a frame the wrapper returned is written; one write is logged, bytes-sent grows by the frame length, and the whole write log still carries produced frames |
| `InternalMessageSender.Dispatcher.SendTo` | com.unity.multiplayer.mlapi/Runtime/Messaging/InternalMessageSender.cs:15-33 | always pads once. For the server's own id while running as server nothing else happens. Otherwise there is exactly one wrap, with sender = target, and one write of that frame to the target, and bytes-sent grows by its length |
| `InternalMessageSender.Dispatcher.SendNext` | com.unity.multiplayer.mlapi/Runtime/Messaging/InternalMessageSender.cs:119 | one iteration of a secured loop: the single-target send of one id pads once and extends the per-peer fan-out so far by that id, or by nothing when it is the server itself |
| `InternalMessageSender.Dispatcher.SendEach` | com.unity.multiplayer.mlapi/Runtime/Messaging/InternalMessageSender.cs:114-120 | the secured loop calls the single-target send for each id, in order, except the ignored one. The appended wraps and writes are the per-peer fan-out over the filtered targets, and the pad count grows by the number of ids that are not ignored |
| `InternalMessageSender.Dispatcher.WriteShared` | com.unity.multiplayer.mlapi/Runtime/Messaging/InternalMessageSender.cs:129-138 | the unsecured loop writes the shared frame once to each filtered target in order and adds exactly those lengths to bytes-sent |
| `InternalMessageSender.Dispatcher.SendShared` | com.unity.multiplayer.mlapi/Runtime/Messaging/InternalMessageSender.cs:49-64 | the unsecured branch pads once and wraps once with sender 0, even with no targets, then writes that one frame to every filtered target |
| `InternalMessageSender.Dispatcher.SendToAll` | com.unity.multiplayer.mlapi/Runtime/Messaging/InternalMessageSender.cs:35-66 | appends exactly the `Fanout` of the connected clients minus the server's own id, secured per `IsSecured`. It pads once per connected client when secured and once otherwise, and bytes-sent grows by the lengths written |
| `InternalMessageSender.Dispatcher.SendToList` | com.unity.multiplayer.mlapi/Runtime/Messaging/InternalMessageSender.cs:68-105 | a null list gives exactly the broadcast's wraps, writes and pads. A non-null list gives the `Fanout` of the listed ids minus the server's own id, in list order with duplicates kept; an empty list gives no write, and one wrap when unsecured |
| `InternalMessageSender.Dispatcher.SendToAllExcept` | com.unity.multiplayer.mlapi/Runtime/Messaging/InternalMessageSender.cs:107-142 | appends exactly the `Fanout` of the connected clients minus the ignored id and minus the server's own id. It shares one frame when unsecured and uses one frame per target when secured |
| `Scenarios.ThreeClients` | com.unity.multiplayer.mlapi/Runtime/Messaging/InternalMessageSender.cs:129-133 | on server 1 with clients 1, 2, 3: a broadcast targets exactly 2 and 3, and all-but-2 targets exactly 3 |

## Left out

- Transport I/O. `NetworkTransport.Send` is only an appended log entry. Its failures and their propagation belong to the transport, whose code is not part of this model.
- `MessagePacker.WrapMessage` internals: framing, encryption, HMAC and key selection. A wrap yields a fresh frame id and a length taken from a supplied function. Byte contents are not modelled, so "byte-identical buffers" means "the same frame value".
- `BitStream.PadStream` and bit-level serialization. Only the number of pad calls is counted. The padded contents are not modelled; a wrap's length may depend on the wrap's number, so padding is not assumed to be idempotent either.
- Profiler and instrumentation. `NetworkProfiler.StartEvent`/`EndEvent`, `PerformanceDataManager.Increment` and the `MLAPIConstants.MESSAGE_NAMES` lookup are left out. Only the `bytesSent` counter is kept.
- Resource handling. The `using` disposal of the wrapped stream and the `ArraySegment` construction have no routing behaviour of their own.
- The global `NetworkingManager.Singleton` and concurrent changes to `ConnectedClientsList`. Each dispatcher reads a fixed snapshot given at construction.
- The `(uint)` and `(int)` casts of `stream.Length`. Frame lengths are unbounded naturals, so a frame longer than `int.MaxValue` bytes is not modelled.
- The exact definitions of `SecuritySendFlags` and `Channel`. They are not part of this model. The flags are taken as a 32-bit set with `Encrypted` = 1 and `Authenticated` = 2. The channel is a byte-sized tag that is only passed through.
- `SendPolicy.Recipients`: its own contract only bounds the length. Membership, multiplicity and order are stated in the `RecipientsMember`, `RecipientsCount` and `RecipientsAppend` lemmas.
