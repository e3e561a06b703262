// Client code for the dispatcher: what a caller can conclude from the
// contracts alone, on a server whose own id is 1 and whose connected
// clients are 1, 2 and 3.

module Scenarios {
  import opened SendPolicy
  import opened InternalMessageSender

  /** Target selection on a server with id 1 and connected clients 1, 2 and 3. */
  lemma ThreeClients()
    ensures Recipients([1, 2, 3], None, true, 1) == [2, 3]
    ensures Recipients([1, 2, 3], Some(2), true, 1) == [3]
  {
    var ids: seq<ulong> := [1, 2, 3];
    assert ids[..2] == [1, 2] && ids[..2][..1] == [1] && ids[..2][..1][..0] == [];
  }

  /** Unsecured broadcast: one wrap with sender 0, the same frame written to 2 and 3. */
  method UnsecuredBroadcast(payload: seq<byte>)
  {
    var d := new Dispatcher(true, 1, true, [1, 2, 3], (m: Message, sender: ulong, n: nat) => |m.payload| + 4);
    var m := Message(7, 0, payload, 0);
    d.SendToAll(m);
    ThreeClients();
    var frame := Frame(0, |payload| + 4);
    assert d.wraps == [WrapCall(m, 0, frame)];
    assert d.writes == [Write(2, frame, 0), Write(3, frame, 0)];
    UnsecuredFanoutLength([2, 3], 0, m, d.frameLength);
    assert d.bytesSent == 2 * (|payload| + 4);
  }

  /** Secured broadcast: one wrap for 2 and one for 3, never a shared frame; 1 is skipped. */
  method SecuredBroadcast(payload: seq<byte>)
  {
    var d := new Dispatcher(true, 1, true, [1, 2, 3], (m: Message, sender: ulong, n: nat) => |m.payload| + 20);
    var m := Message(7, 0, payload, Encrypted);
    d.SendToAll(m);
    ThreeClients();
    assert |d.wraps| == 2 && d.wraps[0].senderId == 2 && d.wraps[1].senderId == 3;
    assert d.writes[0].target == 2 && d.writes[1].target == 3;
    assert d.writes[0].frame != d.writes[1].frame;
    assert d.pads == 3;
  }

  /** With encryption disabled the flag bits select the shared-frame path. */
  method EncryptionDisabled(payload: seq<byte>)
  {
    var d := new Dispatcher(true, 1, false, [1, 2, 3], (m: Message, sender: ulong, n: nat) => |m.payload|);
    d.SendToAll(Message(7, 0, payload, Encrypted | Authenticated));
    assert |d.wraps| == 1 && d.wraps[0].senderId == 0;
  }

  /** All-but-2 on the server: only client 3 is written to. */
  method IgnoreTwo(payload: seq<byte>)
  {
    var d := new Dispatcher(true, 1, true, [1, 2, 3], (m: Message, sender: ulong, n: nat) => |m.payload|);
    d.SendToAllExcept(2, Message(7, 0, payload, 0));
    ThreeClients();
    assert Targets(d.writes) == [3];
  }

  /** A null list is a broadcast; an empty list writes nothing but still wraps once. */
  method Lists(payload: seq<byte>)
  {
    var d := new Dispatcher(true, 1, true, [1, 2, 3], (m: Message, sender: ulong, n: nat) => |m.payload|);
    var m := Message(7, 0, payload, 0);
    d.SendToList(Some([]), m);
    assert d.writes == [] && |d.wraps| == 1;
    d.SendToList(None, m);
    ThreeClients();
    assert Targets(d.writes) == [2, 3] && |d.wraps| == 2;
  }
}
