/** The reliable-delivery core of a host (mervbot/host.cpp), as functions on its state.
    The class in Host.dfy is proved to compute these functions. */
module Transport {
  import opened Bytes
  import opened Reassembly
  import opened Cluster
  import opened Encrypt

  const MAX_RELIABLE_IN_TRANSIT: nat := 15

  /** A reliable message: in the outbox with its header, in the inbox without. */
  datatype Reliable = Reliable(id: nat, msg: Bytes, lastSend: nat)

  datatype HostState = HostState(
    localStep: nat,               // next ACK_ID to be used
    localSent: nat,               // next ACK_ID to be sent
    sent: seq<Reliable>,          // waiting for acknowledgement
    queued: seq<Reliable>,        // waiting for a send slot
    remoteStep: nat,              // next ACK_ID expected
    received: seq<Reliable>,      // waiting for a lost packet
    assembly: Assembly,           // transfer buffers, and the messages handed up from the reliable stream
    heard: seq<Bytes>,            // application messages that came outside the reliable stream
    clustering: bool,
    clustered: seq<Bytes>,        // waiting for the end of the cluster
    wire: seq<Bytes>,             // every datagram given to the socket
    cipher: Cipher,
    syncPing: nat)

  /** Increment of an unsigned 32-bit counter. */
  function Next(n: nat): nat {
    (n + 1) % U32
  }

  /** The index of the first message with this id; the length of the list if there is none. */
  function Find(rs: seq<Reliable>, id: nat): (i: nat)
    ensures i <= |rs|
    ensures i < |rs| ==> rs[i].id == id
    ensures forall j :: 0 <= j < i ==> rs[j].id != id
  {
    if rs == [] || rs[0].id == id then 0 else 1 + Find(rs[1..], id)
  }

  predicate Has(rs: seq<Reliable>, id: nat) {
    Find(rs, id) < |rs|
  }

  function Remove<T>(s: seq<T>, i: nat): seq<T>
    requires i < |s|
  {
    s[..i] + s[i + 1..]
  }

  // ---------- Sending ----------

  function Stamp(id: nat, m: Bytes): Bytes {
    [0, 0x03] + Long(id) + m
  }

  function Ack(id: nat): Bytes {
    [0, 0x04] + Long(id)
  }

  function Send(h: HostState, d: Bytes): HostState {
    h.(wire := h.wire + [Encrypted(h.cipher, d)])
  }

  function SendAll(h: HostState, ds: seq<Bytes>): HostState {
    if ds == [] then h else Send(SendAll(h, ds[..|ds| - 1]), ds[|ds| - 1])
  }

  /** Into the cluster list, or onto the wire right away. */
  function Emit(h: HostState, m: Bytes): HostState {
    if h.clustering then h.(clustered := h.clustered + [m]) else Send(h, m)
  }

  /** A stamped message enters the outbox: into a free send slot, or behind the others. */
  function Queue(h: HostState, s: Bytes, now: nat): HostState
    requires |s| >= 6
  {
    var m := Reliable(GetLong(s, 2), s, now);
    if |h.sent| < MAX_RELIABLE_IN_TRANSIT then
      h.(localStep := Next(h.localStep), localSent := Next(h.localSent), sent := h.sent + [m])
    else
      h.(localStep := Next(h.localStep), queued := h.queued + [m])
  }

  /** The part of post below the chunking threshold. */
  function PostWhole(h: HostState, m: Bytes, reliable: bool, now: nat): HostState {
    if !reliable then Emit(h, m)
    else
      var s := Stamp(h.localStep, m);
      var g := Queue(h, s, now);
      if |h.sent| < MAX_RELIABLE_IN_TRANSIT then Emit(g, s) else g
  }

  function PostAll(h: HostState, ms: seq<Bytes>, now: nat): HostState {
    if ms == [] then h else PostWhole(PostAll(h, ms[..|ms| - 1], now), ms[|ms| - 1], true, now)
  }

  /** A long message is chunked, and its chunks are posted reliably whatever `reliable` says. */
  function Post(h: HostState, m: Bytes, reliable: bool, now: nat): HostState {
    if |m| > UNCHUNKED then PostAll(h, Fragments(m), now) else PostWhole(h, m, reliable, now)
  }

  /** What posting may change in the outbox: it grows at the end. */
  ghost predicate OnlyGrows(h: HostState, g: HostState) {
    && h.sent <= g.sent && h.queued <= g.queued
    && (|g.sent| <= MAX_RELIABLE_IN_TRANSIT || g.sent == h.sent)
  }

  lemma {:induction false} PostAllGrows(h: HostState, ms: seq<Bytes>, now: nat)
    ensures OnlyGrows(h, PostAll(h, ms, now))
  {
    if ms != [] {
      PostAllGrows(h, ms[..|ms| - 1], now);
    }
  }

  lemma PostGrows(h: HostState, m: Bytes, reliable: bool, now: nat)
    ensures OnlyGrows(h, Post(h, m, reliable, now))
  {
    if |m| > UNCHUNKED {
      PostAllGrows(h, Fragments(m), now);
    }
  }

  /** The queued message whose turn it is is sent: posted, then moved into the list of sent ones. */
  function SendNext(h: HostState, now: nat): HostState {
    var i := Find(h.queued, h.localSent);
    if i == |h.queued| then h
    else
      var m := h.queued[i];
      PostGrows(h, m.msg, false, now);
      var g := Post(h, m.msg, false, now);
      g.(sent := g.sent + [m.(lastSend := now)], localSent := Next(g.localSent), queued := Remove(g.queued, i))
  }

  /** An acknowledgement frees its send slot for the next queued message. */
  function CheckSent(h: HostState, id: nat, now: nat): HostState {
    var i := Find(h.sent, id);
    if id > h.localSent || i == |h.sent| then h
    else SendNext(h.(sent := Remove(h.sent, i)), now)
  }

  predicate Expired(h: HostState, m: Reliable, now: nat) {
    (now - m.lastSend) % U32 > (h.syncPing + 10) % U32
  }

  function Resend(h: HostState, i: nat, now: nat): (g: HostState)
    requires i < |h.sent|
    ensures |h.sent| <= |g.sent| && (|g.sent| <= MAX_RELIABLE_IN_TRANSIT || |g.sent| == |h.sent|)
  {
    if !Expired(h, h.sent[i], now) then h
    else
      PostGrows(h, h.sent[i].msg, false, now);
      var g := Post(h, h.sent[i].msg, false, now);
      g.(sent := g.sent[i := h.sent[i].(lastSend := now)])
  }

  /** The resending loop from the i-th sent message on. */
  function SendQueuedFrom(h: HostState, i: nat, now: nat): HostState
    requires i <= |h.sent|
    decreases (if |h.sent| > MAX_RELIABLE_IN_TRANSIT then |h.sent| else MAX_RELIABLE_IN_TRANSIT) - i
  {
    if i == |h.sent| then h else SendQueuedFrom(Resend(h, i, now), i + 1, now)
  }

  function SendQueued(h: HostState, now: nat): HostState {
    SendQueuedFrom(h, 0, now)
  }

  function BeginCluster(h: HostState): HostState {
    h.(clustering := true)
  }

  function EndCluster(h: HostState): HostState {
    SendAll(h.(clustering := false), Pack(h.clustered)).(clustered := [])
  }

  // ---------- Receiving ----------

  /** The next message of the reliable stream. */
  function Accept(h: HostState, m: Bytes): HostState {
    h.(assembly := Deliver(h.assembly, m), remoteStep := Next(h.remoteStep))
  }

  /** Takes every message out of the inbox whose turn has come. */
  function Drain(h: HostState): HostState
    decreases |h.received|
  {
    var i := Find(h.received, h.remoteStep);
    if i == |h.received| then h
    else Drain(Accept(h, h.received[i].msg).(received := Remove(h.received, i)))
  }

  function CheckReceived(h: HostState, id: nat, m: Bytes, now: nat): HostState {
    if id < h.remoteStep then h
    else if id == h.remoteStep then Drain(Accept(h, m))
    else if Has(h.received, id) then h
    else h.(received := h.received + [Reliable(id, m, now)])
  }

  function GotReliable(h: HostState, id: nat, m: Bytes, now: nat): HostState {
    CheckReceived(Emit(h, Ack(id)), id, m, now)
  }

  /** The routing of a message that comes in a datagram of its own or in a cluster. */
  function GotMessage(h: HostState, m: Bytes, now: nat): HostState {
    if IsApplication(m) then h.(heard := h.heard + [m])
    else if |m| >= 7 && m[1] == 0x03 then GotReliable(h, GetLong(m, 2), m[6..], now)
    else if |m| == 6 && m[1] == 0x04 then CheckSent(h, GetLong(m, 2), now)
    else h.(assembly := Deliver(h.assembly, m))
  }

  function GotMessages(h: HostState, ms: seq<Bytes>, now: nat): HostState {
    if ms == [] then h else GotMessage(GotMessages(h, ms[..|ms| - 1], now), ms[|ms| - 1], now)
  }

  function GotPacket(h: HostState, w: Bytes, now: nat): HostState {
    GotMessages(h, Unpack(Decrypted(h.cipher, w)), now)
  }
}
