// Target selection and framing-reuse policy of the outbound message sender,
// stated as pure functions over values. The class in
// internal_message_sender.dfy is proved against these definitions.

module SendPolicy {

  newtype byte = x: int | 0 <= x < 0x100

  /** A connection id (C# `ulong`). */
  newtype ulong = x: int | 0 <= x < 0x1_0000_0000_0000_0000

  /** The `SecuritySendFlags` bit set (a C# flags enum over `int`). */
  type SecuritySendFlags = bv32

  const Encrypted: SecuritySendFlags := 0x1
  const Authenticated: SecuritySendFlags := 0x2

  /** The transport channel a message travels on; only passed through here. */
  type Channel = byte

  datatype Option<T> = None | Some(value: T)

  /** The arguments every `Send` overload shares. The payload stands for the
      message stream's contents; its bit-level format is not modelled. */
  datatype Message = Message(messageType: byte, channel: Channel, payload: seq<byte>, flags: SecuritySendFlags)

  /** A wrapped buffer: an id that tells one wrap result from another, and its length. */
  datatype Frame = Frame(id: nat, length: nat)

  /** One call of the frame wrapper: the message and sender id it wrapped, and the
      frame it returned. The wrapper is given the message type, payload and flags;
      the message's channel is logged with it only because it travels alongside. */
  datatype WrapCall = WrapCall(message: Message, senderId: ulong, frame: Frame)

  /** One call of the transport's `Send`. */
  datatype Write = Write(target: ulong, frame: Frame, channel: Channel)

  /** What a send appends to the wrap log and to the write log. */
  datatype Effect = Effect(wraps: seq<WrapCall>, writes: seq<Write>)

  /** The length of the frame the wrapper builds from a message for a sender id,
      as the wrap numbered `n` in the wrap log. The number stands for the state of
      the message stream, which every `PadStream` call may change, so two wraps of
      the same message need not have the same length. */
  type LengthOf = (Message, ulong, nat) -> nat

  predicate HasFlag(flags: SecuritySendFlags, flag: SecuritySendFlags)
  {
    (flags & flag) == flag
  }

  /** Whether a send must be wrapped per peer: either flag bit requested, and
      encryption enabled in the network configuration. */
  function IsSecured(flags: SecuritySendFlags, enableEncryption: bool): (secured: bool)
    ensures secured <==> enableEncryption && (flags & (Encrypted | Authenticated)) != 0
    ensures !enableEncryption ==> !secured
  {
    var encrypted := HasFlag(flags, Encrypted) && enableEncryption;
    var authenticated := HasFlag(flags, Authenticated) && enableEncryption;
    authenticated || encrypted
  }

  /** The local endpoint, when it is the server, is never a transport target. */
  predicate IsSelf(id: ulong, isServer: bool, serverClientId: ulong)
  {
    isServer && id == serverClientId
  }

  /** An id a fan-out passes over: the ignored id, if any, or the server itself. */
  predicate Skipped(id: ulong, ignored: Option<ulong>, isServer: bool, serverClientId: ulong)
  {
    ignored == Some(id) || IsSelf(id, isServer, serverClientId)
  }

  /** The ids a fan-out over `ids` writes to, in the order it writes them. */
  function Recipients(ids: seq<ulong>, ignored: Option<ulong>, isServer: bool, serverClientId: ulong): (r: seq<ulong>)
    ensures |r| <= |ids|
  {
    if ids == [] then []
    else
      var n := |ids| - 1;
      var init := Recipients(ids[..n], ignored, isServer, serverClientId);
      if Skipped(ids[n], ignored, isServer, serverClientId) then init else init + [ids[n]]
  }

  /** One write of `frame` to each target, in order. */
  function SharedWrites(targets: seq<ulong>, frame: Frame, channel: Channel): seq<Write>
  {
    seq(|targets|, k requires 0 <= k < |targets| => Write(targets[k], frame, channel))
  }

  /** The frame the wrapper returns as result number `id` for sender `senderId`. */
  function FrameFor(m: Message, senderId: ulong, id: nat, frameLength: LengthOf): Frame
  {
    Frame(id, frameLength(m, senderId, id))
  }

  /** `frame` is the result of one of the calls in the wrap log `wraps`. */
  predicate Produced(wraps: seq<WrapCall>, frame: Frame)
  {
    frame.id < |wraps| && wraps[frame.id].frame == frame
  }

  /** Every write in `ws` carries a frame from the wrap log `wraps`. */
  predicate AllProduced(wraps: seq<WrapCall>, ws: seq<Write>)
    decreases |ws|
  {
    ws == [] || (AllProduced(wraps, ws[..|ws| - 1]) && Produced(wraps, ws[|ws| - 1].frame))
  }

  /** Further wraps do not disown the frames already written. */
  lemma {:induction false} AllProducedGrow(wraps: seq<WrapCall>, more: seq<WrapCall>, ws: seq<Write>)
    requires AllProduced(wraps, ws)
    ensures AllProduced(wraps + more, ws)
    decreases |ws|
  {
    if ws != [] {
      AllProducedGrow(wraps, more, ws[..|ws| - 1]);
    }
  }

  /** The write at any position of the log carries a frame the wrapper returned. */
  lemma {:induction false} AllProducedAt(wraps: seq<WrapCall>, ws: seq<Write>, k: nat)
    requires AllProduced(wraps, ws) && k < |ws|
    ensures Produced(wraps, ws[k].frame)
    decreases |ws|
  {
    if k < |ws| - 1 {
      AllProducedAt(wraps, ws[..|ws| - 1], k);
    }
  }

  /** One wrap per target, for that target, with consecutive fresh frame ids from `base`. */
  function PerPeerWraps(targets: seq<ulong>, base: nat, m: Message, frameLength: LengthOf): seq<WrapCall>
  {
    seq(|targets|, k requires 0 <= k < |targets| => WrapCall(m, targets[k], FrameFor(m, targets[k], base + k, frameLength)))
  }

  /** One write per target, each carrying the frame wrapped for that target. */
  function PerPeerWrites(targets: seq<ulong>, base: nat, m: Message, frameLength: LengthOf): seq<Write>
  {
    seq(|targets|, k requires 0 <= k < |targets| => Write(targets[k], FrameFor(m, targets[k], base + k, frameLength), m.channel))
  }

  /** What a fan-out to `targets` appends, when the wrapper's next result has id `base`.
      Unsecured: one wrap with sender 0, shared by every write. Secured: one wrap per
      target, so no two writes share a frame. */
  function Fanout(targets: seq<ulong>, secured: bool, base: nat, m: Message, frameLength: LengthOf): (e: Effect)
    // one write per target, in target order, on the message's channel
    ensures |e.writes| == |targets|
    ensures forall k :: 0 <= k < |targets| ==> e.writes[k].target == targets[k] && e.writes[k].channel == m.channel
    // the wrapper is called with the message, and returns fresh consecutive frame ids
    ensures forall k :: 0 <= k < |e.wraps| ==> e.wraps[k].message == m && e.wraps[k].frame.id == base + k
    // unsecured: exactly one wrap, with sender 0, reused by every write
    ensures !secured ==> |e.wraps| == 1 && e.wraps[0].senderId == 0
    ensures !secured ==> forall k :: 0 <= k < |targets| ==> e.writes[k].frame == e.wraps[0].frame
    // secured: one wrap per target, for that target, and its frame goes to that target only
    ensures secured ==> |e.wraps| == |targets|
    ensures secured ==> forall k :: 0 <= k < |targets| ==>
              e.wraps[k].senderId == targets[k] && e.writes[k].frame == e.wraps[k].frame
    ensures secured ==> forall j, k :: 0 <= j < k < |targets| ==> e.writes[j].frame != e.writes[k].frame
  {
    if secured then
      Effect(PerPeerWraps(targets, base, m, frameLength), PerPeerWrites(targets, base, m, frameLength))
    else
      var frame := FrameFor(m, 0, base, frameLength);
      Effect([WrapCall(m, 0, frame)], SharedWrites(targets, frame, m.channel))
  }

  /** The connection ids a sequence of writes went to, in order. */
  function Targets(ws: seq<Write>): seq<ulong>
  {
    seq(|ws|, k requires 0 <= k < |ws| => ws[k].target)
  }

  /** The number of bytes handed to the transport by a sequence of writes. */
  function TotalLength(ws: seq<Write>): nat
  {
    if ws == [] then 0 else TotalLength(ws[..|ws| - 1]) + ws[|ws| - 1].frame.length
  }

  /** How many of `ids` a per-peer loop passes over before calling the single-target send. */
  function IgnoredCount(ids: seq<ulong>, ignored: Option<ulong>): (c: nat)
    ensures c <= |ids|
    ensures ignored.None? ==> c == 0
    ensures ignored.Some? && ignored.value !in ids ==> c == 0
  {
    if ignored.Some? then multiset(ids)[ignored.value] else 0
  }

  // ---------------------------------------------------------------------------
  // Lemmas

  lemma IgnoredCountPrefix(ids: seq<ulong>, i: nat, ignored: Option<ulong>)
    requires i < |ids|
    ensures IgnoredCount(ids[..i + 1], ignored) == IgnoredCount(ids[..i], ignored) + (if ignored == Some(ids[i]) then 1 else 0)
  {
    assert ids[..i + 1] == ids[..i] + [ids[i]];
  }

  lemma AppendAssoc<T>(a: seq<T>, b: seq<T>, c: seq<T>)
    ensures (a + b) + c == a + (b + c)
  {
  }

  /** Byte counts add up over consecutive writes. */
  lemma {:induction false} TotalLengthAppend(a: seq<Write>, b: seq<Write>)
    ensures TotalLength(a + b) == TotalLength(a) + TotalLength(b)
    decreases |b|
  {
    if b != [] {
      var n := |b| - 1;
      assert (a + b)[..|a + b| - 1] == a + b[..n];
      TotalLengthAppend(a, b[..n]);
    } else {
      assert a + b == a;
    }
  }

  /** One more write adds its frame's length: the one-write case of `TotalLengthAppend`. */
  lemma TotalLengthSnoc(ws: seq<Write>, w: Write)
    ensures TotalLength(ws + [w]) == TotalLength(ws) + w.frame.length
  {
    TotalLengthAppend(ws, [w]);
    assert [w][..0] == [];
  }

  /** A shared-frame fan-out hands the transport the frame's length once per target. */
  lemma {:induction false} SharedWritesLength(targets: seq<ulong>, frame: Frame, channel: Channel)
    ensures TotalLength(SharedWrites(targets, frame, channel)) == |targets| * frame.length
  {
    if targets != [] {
      var n := |targets| - 1;
      var ws := SharedWrites(targets, frame, channel);
      assert ws[..|ws| - 1] == SharedWrites(targets[..n], frame, channel);
      SharedWritesLength(targets[..n], frame, channel);
      assert |targets| * frame.length == n * frame.length + frame.length;
    }
  }

  /** An unsecured fan-out sends frame length times number of targets bytes. */
  lemma UnsecuredFanoutLength(targets: seq<ulong>, base: nat, m: Message, frameLength: LengthOf)
    ensures TotalLength(Fanout(targets, false, base, m, frameLength).writes) == |targets| * frameLength(m, 0, base)
  {
    SharedWritesLength(targets, FrameFor(m, 0, base, frameLength), m.channel);
  }

  /** Adding one id at the end of the list adds at most that id at the end of the targets. */
  lemma RecipientsSnoc(ids: seq<ulong>, x: ulong, ignored: Option<ulong>, isServer: bool, serverClientId: ulong)
    ensures Skipped(x, ignored, isServer, serverClientId) ==>
              Recipients(ids + [x], ignored, isServer, serverClientId) == Recipients(ids, ignored, isServer, serverClientId)
    ensures !Skipped(x, ignored, isServer, serverClientId) ==>
              Recipients(ids + [x], ignored, isServer, serverClientId) == Recipients(ids, ignored, isServer, serverClientId) + [x]
  {
    var s := ids + [x];
    assert s[..|s| - 1] == ids && s[|s| - 1] == x;
  }

  /** Extending a prefix of the id list by one id extends its targets by at most that
      id: `RecipientsSnoc` read at loop position `i`. */
  lemma RecipientsPrefix(ids: seq<ulong>, i: nat, ignored: Option<ulong>, isServer: bool, serverClientId: ulong)
    requires i < |ids|
    ensures Skipped(ids[i], ignored, isServer, serverClientId) ==>
              Recipients(ids[..i + 1], ignored, isServer, serverClientId) == Recipients(ids[..i], ignored, isServer, serverClientId)
    ensures !Skipped(ids[i], ignored, isServer, serverClientId) ==>
              Recipients(ids[..i + 1], ignored, isServer, serverClientId) == Recipients(ids[..i], ignored, isServer, serverClientId) + [ids[i]]
  {
    assert ids[..i + 1] == ids[..i] + [ids[i]];
    RecipientsSnoc(ids[..i], ids[i], ignored, isServer, serverClientId);
  }

  /** Filtering keeps order: it distributes over concatenation of the id list. */
  lemma {:induction false} RecipientsAppend(a: seq<ulong>, b: seq<ulong>, ignored: Option<ulong>, isServer: bool, serverClientId: ulong)
    ensures Recipients(a + b, ignored, isServer, serverClientId)
         == Recipients(a, ignored, isServer, serverClientId) + Recipients(b, ignored, isServer, serverClientId)
    decreases |b|
  {
    if b == [] {
      assert a + b == a;
    } else {
      var n := |b| - 1;
      var x := b[n];
      assert a + b == (a + b[..n]) + [x];
      assert b == b[..n] + [x];
      RecipientsAppend(a, b[..n], ignored, isServer, serverClientId);
      RecipientsSnoc(a + b[..n], x, ignored, isServer, serverClientId);
      RecipientsSnoc(b[..n], x, ignored, isServer, serverClientId);
    }
  }

  /** An id is written to exactly when it is listed and not passed over. */
  lemma {:induction false} RecipientsMember(ids: seq<ulong>, ignored: Option<ulong>, isServer: bool, serverClientId: ulong, id: ulong)
    ensures id in Recipients(ids, ignored, isServer, serverClientId) <==> id in ids && !Skipped(id, ignored, isServer, serverClientId)
  {
    if ids != [] {
      var n := |ids| - 1;
      assert ids == ids[..n] + [ids[n]];
      RecipientsMember(ids[..n], ignored, isServer, serverClientId, id);
    }
  }

  /** Adding one target at the end adds one shared write at the end. */
  lemma SharedWritesSnoc(targets: seq<ulong>, x: ulong, frame: Frame, channel: Channel)
    ensures SharedWrites(targets + [x], frame, channel) == SharedWrites(targets, frame, channel) + [Write(x, frame, channel)]
  {
    var s := targets + [x];
    assert SharedWrites(s, frame, channel) == SharedWrites(targets, frame, channel) + [Write(x, frame, channel)];
  }

  /** Adding one target at the end adds its own wrap and write at the end. */
  lemma PerPeerSnoc(targets: seq<ulong>, x: ulong, base: nat, m: Message, frameLength: LengthOf)
    ensures PerPeerWraps(targets + [x], base, m, frameLength)
         == PerPeerWraps(targets, base, m, frameLength) + [WrapCall(m, x, FrameFor(m, x, base + |targets|, frameLength))]
    ensures PerPeerWrites(targets + [x], base, m, frameLength)
         == PerPeerWrites(targets, base, m, frameLength) + [Write(x, FrameFor(m, x, base + |targets|, frameLength), m.channel)]
  {
    var s := targets + [x];
    assert PerPeerWraps(s, base, m, frameLength)
        == PerPeerWraps(targets, base, m, frameLength) + [WrapCall(m, x, FrameFor(m, x, base + |targets|, frameLength))];
    assert PerPeerWrites(s, base, m, frameLength)
        == PerPeerWrites(targets, base, m, frameLength) + [Write(x, FrameFor(m, x, base + |targets|, frameLength), m.channel)];
  }

  /** One more target of the secured fan-out, against logs that already hold the
      wraps and writes for the earlier targets: its wrap and its write come at the
      end, and the byte count grows by its frame's length. */
  lemma PerPeerStep(wraps0: seq<WrapCall>, writes0: seq<Write>, targets: seq<ulong>, x: ulong,
                    base: nat, m: Message, frameLength: LengthOf)
    ensures var frame := FrameFor(m, x, base + |targets|, frameLength);
            && wraps0 + PerPeerWraps(targets + [x], base, m, frameLength)
               == (wraps0 + PerPeerWraps(targets, base, m, frameLength)) + [WrapCall(m, x, frame)]
            && writes0 + PerPeerWrites(targets + [x], base, m, frameLength)
               == (writes0 + PerPeerWrites(targets, base, m, frameLength)) + [Write(x, frame, m.channel)]
            && TotalLength(PerPeerWrites(targets + [x], base, m, frameLength))
               == TotalLength(PerPeerWrites(targets, base, m, frameLength)) + frame.length
  {
    var frame := FrameFor(m, x, base + |targets|, frameLength);
    PerPeerSnoc(targets, x, base, m, frameLength);
    AppendAssoc(wraps0, PerPeerWraps(targets, base, m, frameLength), [WrapCall(m, x, frame)]);
    AppendAssoc(writes0, PerPeerWrites(targets, base, m, frameLength), [Write(x, frame, m.channel)]);
    TotalLengthSnoc(PerPeerWrites(targets, base, m, frameLength), Write(x, frame, m.channel));
  }

  /** Filtering keeps duplicates: a kept id is written to as often as it is listed. */
  lemma {:induction false} RecipientsCount(ids: seq<ulong>, ignored: Option<ulong>, isServer: bool, serverClientId: ulong, id: ulong)
    ensures multiset(Recipients(ids, ignored, isServer, serverClientId))[id]
         == if Skipped(id, ignored, isServer, serverClientId) then 0 else multiset(ids)[id]
  {
    if ids != [] {
      var n := |ids| - 1;
      assert ids == ids[..n] + [ids[n]];
      RecipientsCount(ids[..n], ignored, isServer, serverClientId, id);
    }
  }

  /** When no id is skipped, every id is written to, in list order and with duplicates. */
  lemma {:induction false} RecipientsUnfiltered(ids: seq<ulong>, ignored: Option<ulong>, isServer: bool, serverClientId: ulong)
    requires forall k :: 0 <= k < |ids| ==> !Skipped(ids[k], ignored, isServer, serverClientId)
    ensures Recipients(ids, ignored, isServer, serverClientId) == ids
  {
    if ids != [] {
      var n := |ids| - 1;
      RecipientsUnfiltered(ids[..n], ignored, isServer, serverClientId);
      assert ids[..n] + [ids[n]] == ids;
    }
  }

  /** A client (not the server) broadcasting reaches every connected id. */
  lemma {:induction false} ClientBroadcastReachesAll(ids: seq<ulong>, serverClientId: ulong)
    ensures Recipients(ids, None, false, serverClientId) == ids
  {
    RecipientsUnfiltered(ids, None, false, serverClientId);
  }

  /** Ignoring an id that is not connected selects the same targets as a broadcast. */
  lemma {:induction false} IgnoreAbsentIsBroadcast(ids: seq<ulong>, ignored: ulong, isServer: bool, serverClientId: ulong)
    requires ignored !in ids
    ensures Recipients(ids, Some(ignored), isServer, serverClientId) == Recipients(ids, None, isServer, serverClientId)
  {
    if ids != [] {
      var n := |ids| - 1;
      assert ids[..n] + [ids[n]] == ids;
      assert ignored !in ids[..n];
      IgnoreAbsentIsBroadcast(ids[..n], ignored, isServer, serverClientId);
    }
  }

  /** Ignoring the server's own id, on the server, selects the same targets as a broadcast. */
  lemma {:induction false} IgnoreSelfIsBroadcast(ids: seq<ulong>, serverClientId: ulong)
    ensures Recipients(ids, Some(serverClientId), true, serverClientId) == Recipients(ids, None, true, serverClientId)
  {
    if ids != [] {
      IgnoreSelfIsBroadcast(ids[..|ids| - 1], serverClientId);
    }
  }

  /** Secured or not, a fan-out writes to exactly its targets, in order. */
  lemma FanoutTargets(targets: seq<ulong>, secured: bool, base: nat, m: Message, frameLength: LengthOf)
    ensures Targets(Fanout(targets, secured, base, m, frameLength).writes) == targets
  {
    var e := Fanout(targets, secured, base, m, frameLength);
    assert forall k :: 0 <= k < |targets| ==> Targets(e.writes)[k] == targets[k];
  }

  /** A fan-out over `ids` writes to an id exactly when the id is listed, is not the
      ignored id, and is not the server itself; this holds on both branches. */
  lemma {:induction false} WrittenIff(ids: seq<ulong>, ignored: Option<ulong>, isServer: bool, serverClientId: ulong,
                                      secured: bool, base: nat, m: Message, frameLength: LengthOf, id: ulong)
    ensures id in Targets(Fanout(Recipients(ids, ignored, isServer, serverClientId), secured, base, m, frameLength).writes)
        <==> id in ids && !Skipped(id, ignored, isServer, serverClientId)
  {
    FanoutTargets(Recipients(ids, ignored, isServer, serverClientId), secured, base, m, frameLength);
    RecipientsMember(ids, ignored, isServer, serverClientId, id);
  }
}
