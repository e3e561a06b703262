// The outbound dispatcher: the four `Send` overloads of InternalMessageSender,
// over a fixed snapshot of the peer registry and the network configuration.
// The frame wrapper and the transport are modelled by what they record: the
// wrap log and the write log.

module InternalMessageSender {
  import opened SendPolicy

  class Dispatcher {
    // The peer registry and the network configuration, read by every send.
    const isServer: bool
    const serverClientId: ulong
    const enableEncryption: bool
    const connectedClients: seq<ulong>
    /** The length of the frame the wrapper builds, per message, sender id and wrap number. */
    const frameLength: LengthOf

    /** Every call of the frame wrapper, in order. */
    var wraps: seq<WrapCall>
    /** Every call of the transport's `Send`, in order. */
    var writes: seq<Write>
    /** The bytes-sent profiler counter. */
    var bytesSent: nat
    /** How many times the message stream was padded. */
    var pads: nat

    /** Frame ids are fresh (the i-th wrap returns id i), every write carries a
        frame the wrapper returned, and the bytes-sent counter is the sum of the
        lengths of all writes. */
    ghost predicate Valid()
      reads this
    {
      && (forall i :: 0 <= i < |wraps| ==> wraps[i].frame.id == i)
      && AllProduced(wraps, writes)
      && bytesSent == TotalLength(writes)
    }

    constructor (server: bool, serverId: ulong, encryption: bool, clients: seq<ulong>, lengthOf: LengthOf)
      ensures Valid()
      ensures isServer == server && serverClientId == serverId && enableEncryption == encryption
      ensures connectedClients == clients && frameLength == lengthOf
      ensures wraps == [] && writes == [] && bytesSent == 0 && pads == 0
    {
      isServer, serverClientId, enableEncryption := server, serverId, encryption;
      connectedClients, frameLength := clients, lengthOf;
      wraps, writes, bytesSent, pads := [], [], 0, 0;
    }

    /** `messageStream.PadStream()`: only the number of calls is modelled. */
    method Pad()
      modifies this`pads
      ensures pads == old(pads) + 1
    {
      pads := pads + 1;
    }

    /** `MessagePacker.WrapMessage`: returns a fresh frame and logs the call. */
    method Wrap(m: Message, senderId: ulong) returns (frame: Frame)
      requires Valid()
      modifies this`wraps
      ensures Valid()
      ensures frame == FrameFor(m, senderId, |old(wraps)|, frameLength)
      ensures wraps == old(wraps) + [WrapCall(m, senderId, frame)]
    {
      frame := FrameFor(m, senderId, |wraps|, frameLength);
      AllProducedGrow(wraps, [WrapCall(m, senderId, frame)], writes);
      wraps := wraps + [WrapCall(m, senderId, frame)];
    }

    /** `NetworkTransport.Send` of a wrapped frame, followed by `bytesSent.Record`. */
    method Transmit(target: ulong, frame: Frame, channel: Channel)
      requires Valid()
      requires Produced(wraps, frame)
      modifies this`writes, this`bytesSent
      ensures Valid()
      ensures writes == old(writes) + [Write(target, frame, channel)]
      ensures bytesSent == old(bytesSent) + frame.length
    {
      var w := Write(target, frame, channel);
      assert (writes + [w])[..|writes|] == writes;
      writes := writes + [w];
      bytesSent := bytesSent + frame.length;
    }

    /** Single-target send. Pads, then does nothing more when the target is the
        server itself; otherwise wraps once for the target and writes once to it. */
    method SendTo(clientId: ulong, m: Message)
      requires Valid()
      modifies this
      ensures Valid()
      ensures pads == old(pads) + 1
      ensures IsSelf(clientId, isServer, serverClientId) ==>
                wraps == old(wraps) && writes == old(writes) && bytesSent == old(bytesSent)
      ensures !IsSelf(clientId, isServer, serverClientId) ==>
                var frame := FrameFor(m, clientId, |old(wraps)|, frameLength);
                && wraps == old(wraps) + [WrapCall(m, clientId, frame)]
                && writes == old(writes) + [Write(clientId, frame, m.channel)]
                && bytesSent == old(bytesSent) + frameLength(m, clientId, |old(wraps)|)
    {
      Pad();
      if isServer && clientId == serverClientId {
        return;
      }
      var frame := Wrap(m, clientId);
      Transmit(clientId, frame, m.channel);
    }

    /** The logs hold `w0`, `r0` and `b0` followed by the secured fan-out of `m`
        over `targets`. */
    ghost predicate PerPeerSent(w0: seq<WrapCall>, r0: seq<Write>, b0: nat, targets: seq<ulong>, m: Message)
      reads this
    {
      && wraps == w0 + PerPeerWraps(targets, |w0|, m, frameLength)
      && writes == r0 + PerPeerWrites(targets, |w0|, m, frameLength)
      && bytesSent == b0 + TotalLength(PerPeerWrites(targets, |w0|, m, frameLength))
    }

    /** One iteration of the secured fan-out: the single-target send of `x`, which
        extends the fan-out so far by `x` unless `x` is the server itself. */
    method SendNext(x: ulong, m: Message, ghost w0: seq<WrapCall>, ghost r0: seq<Write>, ghost b0: nat, ghost targets: seq<ulong>)
      requires Valid() && PerPeerSent(w0, r0, b0, targets, m)
      modifies this
      ensures Valid()
      ensures pads == old(pads) + 1
      ensures PerPeerSent(w0, r0, b0, if IsSelf(x, isServer, serverClientId) then targets else targets + [x], m)
    {
      PerPeerStep(w0, r0, targets, x, |w0|, m, frameLength);
      SendTo(x, m);
    }

    /** The secured fan-out: the single-target send for each of `ids` in order,
        passing over the ignored id. */
    method SendEach(ids: seq<ulong>, ignored: Option<ulong>, m: Message)
      requires Valid()
      modifies this
      ensures Valid()
      ensures var targets := Recipients(ids, ignored, isServer, serverClientId);
              var sent := PerPeerWrites(targets, |old(wraps)|, m, frameLength);
              && wraps == old(wraps) + PerPeerWraps(targets, |old(wraps)|, m, frameLength)
              && writes == old(writes) + sent
              && bytesSent == old(bytesSent) + TotalLength(sent)
      ensures pads == old(pads) + |ids| - IgnoredCount(ids, ignored)
    {
      assert old(wraps) + PerPeerWraps([], |old(wraps)|, m, frameLength) == old(wraps);
      assert old(writes) + PerPeerWrites([], |old(wraps)|, m, frameLength) == old(writes);
      for i := 0 to |ids|
        invariant Valid()
        invariant PerPeerSent(old(wraps), old(writes), old(bytesSent), Recipients(ids[..i], ignored, isServer, serverClientId), m)
        invariant pads == old(pads) + i - IgnoredCount(ids[..i], ignored)
      {
        RecipientsPrefix(ids, i, ignored, isServer, serverClientId);
        IgnoredCountPrefix(ids, i, ignored);
        if ignored == Some(ids[i]) {
          continue;
        }
        SendNext(ids[i], m, old(wraps), old(writes), old(bytesSent), Recipients(ids[..i], ignored, isServer, serverClientId));
      }
      assert ids[..|ids|] == ids;
    }

    /** The loop of the unsecured fan-out: one transport write of `frame` to each
        of `ids`, in order, passing over the ignored id and the server itself. */
    method WriteShared(ids: seq<ulong>, ignored: Option<ulong>, frame: Frame, channel: Channel)
      requires Valid()
      requires Produced(wraps, frame)
      modifies this`writes, this`bytesSent
      ensures Valid()
      ensures var sent := SharedWrites(Recipients(ids, ignored, isServer, serverClientId), frame, channel);
              writes == old(writes) + sent && bytesSent == old(bytesSent) + TotalLength(sent)
    {
      ghost var sent: seq<Write> := [];
      assert old(writes) + sent == old(writes);
      for i := 0 to |ids|
        invariant Valid()
        invariant sent == SharedWrites(Recipients(ids[..i], ignored, isServer, serverClientId), frame, channel)
        invariant writes == old(writes) + sent
        invariant bytesSent == old(bytesSent) + TotalLength(sent)
      {
        RecipientsPrefix(ids, i, ignored, isServer, serverClientId);
        if Skipped(ids[i], ignored, isServer, serverClientId) {
          continue;
        }
        SharedWritesSnoc(Recipients(ids[..i], ignored, isServer, serverClientId), ids[i], frame, channel);
        var w := Write(ids[i], frame, channel);
        Transmit(ids[i], frame, channel);
        AppendAssoc(old(writes), sent, [w]);
        TotalLengthSnoc(sent, w);
        sent := sent + [w];
      }
      assert ids[..|ids|] == ids;
    }

    /** The unsecured fan-out: pads and wraps once with sender 0, then writes that
        one frame to each of `ids`. */
    method SendShared(ids: seq<ulong>, ignored: Option<ulong>, m: Message)
      requires Valid()
      modifies this
      ensures Valid()
      ensures var frame := FrameFor(m, 0, |old(wraps)|, frameLength);
              var sent := SharedWrites(Recipients(ids, ignored, isServer, serverClientId), frame, m.channel);
              && wraps == old(wraps) + [WrapCall(m, 0, frame)]
              && writes == old(writes) + sent
              && bytesSent == old(bytesSent) + TotalLength(sent)
      ensures pads == old(pads) + 1
    {
      Pad();
      var frame := Wrap(m, 0);
      WriteShared(ids, ignored, frame, m.channel);
    }

    /** Broadcast to every connected client: per peer when secured, one shared
        frame otherwise; the server itself is never written to. */
    method SendToAll(m: Message)
      requires Valid()
      modifies this
      ensures Valid()
      ensures var secured := IsSecured(m.flags, enableEncryption);
              var e := Fanout(Recipients(connectedClients, None, isServer, serverClientId), secured, |old(wraps)|, m, frameLength);
              && wraps == old(wraps) + e.wraps && writes == old(writes) + e.writes
              && bytesSent == old(bytesSent) + TotalLength(e.writes)
              && pads == old(pads) + (if secured then |connectedClients| else 1)
    {
      var encrypted := HasFlag(m.flags, Encrypted) && enableEncryption;
      var authenticated := HasFlag(m.flags, Authenticated) && enableEncryption;
      if authenticated || encrypted {
        SendEach(connectedClients, None, m);
      } else {
        SendShared(connectedClients, None, m);
      }
    }

    /** Send to an explicit list. A null list (`None`) is a broadcast; otherwise
        the listed ids are written to in list order, duplicates kept. */
    method SendToList(clientIds: Option<seq<ulong>>, m: Message)
      requires Valid()
      modifies this
      ensures Valid()
      ensures var secured := IsSecured(m.flags, enableEncryption);
              var ids := if clientIds.Some? then clientIds.value else connectedClients;
              var e := Fanout(Recipients(ids, None, isServer, serverClientId), secured, |old(wraps)|, m, frameLength);
              && wraps == old(wraps) + e.wraps && writes == old(writes) + e.writes
              && bytesSent == old(bytesSent) + TotalLength(e.writes)
              && pads == old(pads) + (if secured then |ids| else 1)
    {
      if clientIds.None? {
        SendToAll(m);
        return;
      }
      var ids := clientIds.value;
      var encrypted := HasFlag(m.flags, Encrypted) && enableEncryption;
      var authenticated := HasFlag(m.flags, Authenticated) && enableEncryption;
      if authenticated || encrypted {
        SendEach(ids, None, m);
      } else {
        SendShared(ids, None, m);
      }
    }

    /** Broadcast to every connected client except `clientIdToIgnore` (and the
        server itself). */
    method SendToAllExcept(clientIdToIgnore: ulong, m: Message)
      requires Valid()
      modifies this
      ensures Valid()
      ensures var secured := IsSecured(m.flags, enableEncryption);
              var e := Fanout(Recipients(connectedClients, Some(clientIdToIgnore), isServer, serverClientId),
                              secured, |old(wraps)|, m, frameLength);
              && wraps == old(wraps) + e.wraps && writes == old(writes) + e.writes
              && bytesSent == old(bytesSent) + TotalLength(e.writes)
              && pads == old(pads) + (if secured then |connectedClients| - multiset(connectedClients)[clientIdToIgnore] else 1)
    {
      var encrypted := HasFlag(m.flags, Encrypted) && enableEncryption;
      var authenticated := HasFlag(m.flags, Authenticated) && enableEncryption;
      if encrypted || authenticated {
        SendEach(connectedClients, Some(clientIdToIgnore), m);
      } else {
        SendShared(connectedClients, Some(clientIdToIgnore), m);
      }
    }
  }
}
