/** The host object of mervbot/host.cpp: its methods update the outbox, the inbox and the transfer
    buffers in place, and compute the functions of Transport on the state. Time is a parameter. */
module Hosts {
  import opened Bytes
  import opened Chunk
  import opened Reassembly
  import opened Cluster
  import opened Encrypt
  import opened Transport

  /** Walks a list up to the first message with the given id. */
  method Walk(rs: seq<Reliable>, id: nat) returns (i: nat)
    ensures i == Find(rs, id)
  {
    i := 0;
    while i < |rs| && rs[i].id != id
      invariant 0 <= i <= |rs|
      invariant forall j :: 0 <= j < i ==> rs[j].id != id
    {
      i := i + 1;
    }
    FindIs(rs, id, i);
  }

  ghost predicate Nonempty(rs: seq<Reliable>) {
    forall i :: 0 <= i < |rs| ==> |rs[i].msg| >= 1
  }

  ghost predicate Sendable(ms: seq<Bytes>) {
    forall i :: 0 <= i < |ms| ==> 1 <= |ms[i]| <= 514
  }

  class Host {
    var localStep: nat
    var localSent: nat
    var sent: seq<Reliable>
    var queued: seq<Reliable>

    var remoteStep: nat
    var received: seq<Reliable>

    const little: ChunkBuffer
    const large: ChunkBuffer
    var ftLength: nat

    var clustering: bool
    var clustered: seq<Bytes>

    const encryption: SsEncr
    var syncPing: nat

    // What left through the socket, and what reached the application.
    var wire: seq<Bytes>
    var log: seq<Bytes>
    var heard: seq<Bytes>

    ghost predicate Valid()
      reads this, little, large, encryption
    {
      && little != large && little.Valid() && large.Valid()
      && little.maximumLength == LITTLE_LIMIT && large.maximumLength == LARGE_LIMIT
      && encryption.Valid()
      && Nonempty(sent) && Nonempty(queued) && Sendable(clustered)
    }

    ghost function State(): HostState
      requires Valid()
      reads this, little, little.buffer, large, large.buffer, encryption, encryption.keystream
    {
      HostState(localStep, localSent, sent, queued, remoteStep, received,
                Assembly(little.Contents(), large.Contents(), ftLength, log),
                heard, clustering, clustered, wire, encryption.Session(), syncPing)
    }

    /** resetSession, for a host whose handshake is done. */
    constructor (encryption: SsEncr, syncPing: nat)
      requires encryption.Valid()
      ensures Valid() && fresh(little) && fresh(large) && this.encryption == encryption
      ensures State() == HostState(0, 0, [], [], 0, [], FRESH, [], false, [], [], encryption.Session(), syncPing)
    {
      localStep, localSent, sent, queued := 0, 0, [], [];
      remoteStep, received := 0, [];
      var l := new ChunkBuffer();
      var b := new ChunkBuffer();
      l.SetLimit(LITTLE_LIMIT);
      b.SetLimit(LARGE_LIMIT);
      little, large, ftLength := l, b, 0;
      clustering, clustered := false, [];
      this.encryption, this.syncPing := encryption, syncPing;
      wire, log, heard := [], [], [];
    }

    // ---------- Sending ----------

    method Transmit(d: Bytes)
      requires Valid() && 1 <= |d| <= PACKET_MAX_LENGTH
      modifies this`wire
      ensures Valid() && State() == Send(old(State()), d)
    {
      var packet := new Byte[PACKET_MAX_LENGTH](i => if 0 <= i < |d| then d[i] else 0);
      assert packet[..|d|] == d;
      encryption.Encrypt(packet, |d|);
      wire := wire + [packet[..|d|]];
      assert packet[..|d|] == Encrypted(encryption.Session(), d);
    }

    method EmitMessage(m: Bytes)
      requires Valid() && 1 <= |m| <= 514
      modifies this`wire, this`clustered
      ensures Valid() && State() == Emit(old(State()), m)
    {
      if clustering {
        clustered := clustered + [m];
      } else {
        Transmit(m);
      }
    }

    /** Takes a stamped message into the outbox; gives whether it should be sent right away. */
    method Enqueue(s: Bytes, now: nat) returns (immediately: bool)
      requires Valid() && |s| >= 6
      modifies this`localStep, this`localSent, this`sent, this`queued
      ensures Valid() && State() == Queue(old(State()), s, now)
      ensures immediately == (|old(sent)| < MAX_RELIABLE_IN_TRANSIT)
    {
      var m := Reliable(GetLong(s, 2), s, now);
      if |sent| < MAX_RELIABLE_IN_TRANSIT {
        TakeSlot(m, State());
        immediately := true;
      } else {
        Wait(m, State());
        immediately := false;
      }
    }

    method TakeSlot(m: Reliable, ghost g: HostState)
      requires Valid() && State() == g && |m.msg| >= 1
      modifies this`localStep, this`localSent, this`sent
      ensures Valid()
      ensures State() == g.(localStep := Next(g.localStep), localSent := Next(g.localSent), sent := g.sent + [m])
    {
      localStep := Next(localStep);
      sent := sent + [m];
      localSent := Next(localSent);
    }

    method Wait(m: Reliable, ghost g: HostState)
      requires Valid() && State() == g && |m.msg| >= 1
      modifies this`localStep, this`queued
      ensures Valid() && State() == g.(localStep := Next(g.localStep), queued := g.queued + [m])
    {
      localStep := Next(localStep);
      queued := queued + [m];
    }

    method PostTo(m: Bytes, reliable: bool, now: nat)
      requires Valid() && |m| >= 1
      modifies this`wire, this`clustered, this`localStep, this`localSent, this`sent, this`queued
      ensures Valid() && State() == Post(old(State()), m, reliable, now)
      decreases if |m| > UNCHUNKED then 1 else 0
    {
      if |m| > UNCHUNKED {
        if |m| > 1000 {
          PostBig(m, now);
        } else {
          PostLittle(m, now);
        }
      } else if reliable {
        var s := Stamp(localStep, m);
        var immediately := Enqueue(s, now);
        if immediately {
          EmitMessage(s);
        }
      } else {
        EmitMessage(m);
      }
    }

    method PostBig(m: Bytes, now: nat)
      requires Valid() && |m| > 1000
      modifies this`wire, this`clustered, this`localStep, this`localSent, this`sent, this`queued
      ensures Valid() && State() == PostAll(old(State()), BigFragments(m, 0), now)
      decreases 1, 0
    {
      ghost var was, done := State(), [];
      var i := 0;
      while i < |m|
        invariant 0 <= i <= |m| && Valid()
        invariant done + BigFragments(m, i) == BigFragments(m, 0)
        invariant State() == PostAll(was, done, now)
      {
        var remaining := |m| - i;
        var next := if remaining > CHUNK_SIZE then i + CHUNK_SIZE else |m|;
        var f := [0, 0x0A] + Long(|m|) + m[i..next];
        PostTo(f, true, now);
        PostAllAppend(was, done, f, now);
        ConcatAssociates(done, [f], BigFragments(m, next));
        done := done + [f];
        i := next;
      }
      assert done + [] == done;
    }

    method PostLittle(m: Bytes, now: nat)
      requires Valid() && |m| > UNCHUNKED
      modifies this`wire, this`clustered, this`localStep, this`localSent, this`sent, this`queued
      ensures Valid() && State() == PostAll(old(State()), LittleFragments(m, 0), now)
      decreases 1, 0
    {
      ghost var was, done := State(), [];
      var i := 0;
      while |m| - i > CHUNK_SIZE + 4
        invariant 0 <= i < |m| && Valid()
        invariant done + LittleFragments(m, i) == LittleFragments(m, 0)
        invariant State() == PostAll(was, done, now)
      {
        var f := [0, 0x08] + m[i..i + CHUNK_SIZE + 4];
        PostTo(f, true, now);
        PostAllAppend(was, done, f, now);
        ConcatAssociates(done, [f], LittleFragments(m, i + CHUNK_SIZE + 4));
        done := done + [f];
        i := i + CHUNK_SIZE + 4;
      }
      var f := [0, 0x09] + m[i..];
      PostTo(f, true, now);
      PostAllAppend(was, done, f, now);
    }

    method BeginClustering()
      requires Valid()
      modifies this`clustering
      ensures Valid() && State() == BeginCluster(old(State()))
    {
      clustering := true;
    }

    /** Packs messages into the 520-byte cluster buffer and transmits it whenever the next does not fit. */
    method SendClustered(ms: seq<Bytes>)
      requires Valid() && Sendable(ms)
      modifies this`wire
      ensures Valid() && State() == SendAll(old(State()), Pack(ms))
    {
      ghost var was := State();
      var buffer := new Byte[PACKET_MAX_LENGTH](_ => 0);
      buffer[1] := 0x0E;
      var len: nat, tctr: nat, i := 2, 0, 0;
      while i < |ms|
        invariant 0 <= i <= |ms| && Valid() && fresh(buffer)
        invariant Building(PackAll(ms[..i]), buffer[..], len, tctr)
        invariant State() == SendAll(was, PackAll(ms[..i]).out)
      {
        len, tctr := ClusterNext(buffer, len, tctr, ms, i, was);
        i := i + 1;
      }
      assert ms[..i] == ms;
      FlushBuffer(buffer, len, tctr, was, ms);
    }

    /** One turn of the clustering loop. */
    method ClusterNext(buffer: array<Byte>, len: nat, tctr: nat, ms: seq<Bytes>, i: nat, ghost was: HostState)
      returns (len': nat, tctr': nat)
      requires Valid() && buffer != encryption.keystream && buffer != little.buffer && buffer != large.buffer
      requires Sendable(ms) && i < |ms|
      requires Building(PackAll(ms[..i]), buffer[..], len, tctr) && State() == SendAll(was, PackAll(ms[..i]).out)
      modifies this`wire, buffer
      ensures Valid() && State() == SendAll(was, PackAll(ms[..i + 1]).out)
      ensures Building(PackAll(ms[..i + 1]), buffer[..], len', tctr')
    {
      assert ms[..i + 1][..i] == ms[..i];
      len', tctr' := ClusterMessage(buffer, len, tctr, ms[i], was, PackAll(ms[..i]));
    }

    /** The last datagram of a packed list leaves, if there is one. */
    method FlushBuffer(buffer: array<Byte>, len: nat, tctr: nat, ghost was: HostState, ghost ms: seq<Bytes>)
      requires Valid() && Building(PackAll(ms), buffer[..], len, tctr) && State() == SendAll(was, PackAll(ms).out)
      modifies this`wire
      ensures Valid() && State() == SendAll(was, Pack(ms))
    {
      if tctr != 0 {
        TransmitCluster(buffer, len, tctr, was, PackAll(ms));
      }
    }

    /** Transmits the cluster buffer if the message does not fit into it. */
    method MakeRoom(buffer: array<Byte>, len: nat, tctr: nat, m: Bytes, ghost was: HostState, ghost p: Packing)
      returns (len': nat, tctr': nat)
      requires Valid() && 1 <= |m| <= SMALL && Building(p, buffer[..], len, tctr) && State() == SendAll(was, p.out)
      modifies this`wire
      ensures Valid() && State() == SendAll(was, Room(p, m).out)
      ensures Building(Room(p, m), buffer[..], len', tctr') && len' + |m| <= CLUSTER_FULL
    {
      len', tctr' := len, tctr;
      if len + |m| > CLUSTER_FULL {
        EmptyBuffer(p, buffer[..], len, tctr, p.out + [Datagram(p)]);
        TransmitCluster(buffer, len, tctr, was, p);
        len', tctr' := 2, 0;
      }
    }

    /** A message leaves by itself if it is too long for a cluster. */
    method ClusterMessage(buffer: array<Byte>, len: nat, tctr: nat, m: Bytes, ghost was: HostState, ghost p: Packing)
      returns (len': nat, tctr': nat)
      requires Valid() && buffer != encryption.keystream && buffer != little.buffer && buffer != large.buffer
      requires 1 <= |m| <= 514 && Building(p, buffer[..], len, tctr) && State() == SendAll(was, p.out)
      modifies this`wire, buffer
      ensures Valid() && State() == SendAll(was, PackOne(p, m).out)
      ensures Building(PackOne(p, m), buffer[..], len', tctr')
    {
      len', tctr' := len, tctr;
      if |m| > SMALL {
        Transmit(m);
        SendAllAppend(was, p.out, m);
      } else {
        len', tctr' := ClusterSmall(buffer, len, tctr, m, was, p);
      }
    }

    /** A small message is put into the cluster buffer, once there is room. */
    method ClusterSmall(buffer: array<Byte>, len: nat, tctr: nat, m: Bytes, ghost was: HostState, ghost p: Packing)
      returns (len': nat, tctr': nat)
      requires Valid() && buffer != encryption.keystream && buffer != little.buffer && buffer != large.buffer
      requires 1 <= |m| <= SMALL && Building(p, buffer[..], len, tctr) && State() == SendAll(was, p.out)
      modifies this`wire, buffer
      ensures Valid() && State() == SendAll(was, PackOne(p, m).out)
      ensures Building(PackOne(p, m), buffer[..], len', tctr')
    {
      len', tctr' := MakeRoom(buffer, len, tctr, m, was, p);
      AppendSmall(buffer, len', tctr', m, Room(p, m), State());
      len', tctr' := len' + 1 + |m|, tctr' + 1;
    }

    /** What is put into the buffer does not touch the host. */
    method AppendSmall(buffer: array<Byte>, len: nat, tctr: nat, m: Bytes, ghost q: Packing, ghost g: HostState)
      requires Valid() && buffer != encryption.keystream && buffer != little.buffer && buffer != large.buffer
      requires State() == g && 1 <= |m| <= SMALL && len + |m| <= CLUSTER_FULL && Building(q, buffer[..], len, tctr)
      modifies buffer
      ensures Valid() && State() == g
      ensures Building(Packing(q.body + [LengthByte(m)] + m, q.count + 1, q.out), buffer[..], len + 1 + |m|, tctr + 1)
    {
      AppendToCluster(buffer, len, tctr, m, q);
    }

    /** Transmits the cluster buffer; a single message goes without the cluster header. */
    method TransmitCluster(buffer: array<Byte>, len: nat, tctr: nat, ghost was: HostState, ghost p: Packing)
      requires Valid() && tctr > 0 && Building(p, buffer[..], len, tctr) && State() == SendAll(was, p.out)
      modifies this`wire
      ensures |p.body| > 0 && Valid() && State() == SendAll(was, p.out + [Datagram(p)])
    {
      SendAllAppend(was, p.out, Datagram(p));
      if tctr == 1 {
        assert buffer[3..len] == p.body[1..];
        Transmit(buffer[3..len]);
      } else {
        assert buffer[..len] == [0, 0x0E] + p.body;
        Transmit(buffer[..len]);
      }
    }

    method EndClustering()
      requires Valid()
      modifies this`clustering, this`clustered, this`wire
      ensures Valid() && State() == EndCluster(old(State()))
    {
      clustering := false;
      SendClustered(clustered);
      clustered := [];
    }

    // ---------- Acknowledgements and timers ----------

    /** The i-th queued message becomes one in flight. */
    method Promote(i: nat, m: Reliable, ghost g: HostState)
      requires Valid() && State() == g && i < |queued| && |m.msg| >= 1
      modifies this`localSent, this`sent, this`queued
      ensures Valid()
      ensures State() == g.(sent := g.sent + [m], localSent := Next(g.localSent), queued := Remove(g.queued, i))
    {
      sent := sent + [m];
      localSent := Next(localSent);
      queued := Remove(queued, i);
    }

    method SendNextQueued(now: nat)
      requires Valid()
      modifies this`wire, this`clustered, this`localStep, this`localSent, this`sent, this`queued
      ensures Valid() && State() == SendNext(old(State()), now)
    {
      var i := Walk(queued, localSent);
      if i < |queued| {
        var m := queued[i];
        ghost var g := Post(State(), m.msg, false, now);
        PostGrows(State(), m.msg, false, now);
        PostTo(m.msg, false, now);
        Promote(i, m.(lastSend := now), g);
      }
    }

    /** The i-th message in flight is acknowledged. */
    method Retire(i: nat, ghost g: HostState)
      requires Valid() && State() == g && i < |sent|
      modifies this`sent
      ensures Valid() && State() == g.(sent := Remove(g.sent, i))
    {
      sent := Remove(sent, i);
    }

    method CheckSentId(id: nat, now: nat)
      requires Valid()
      modifies this`wire, this`clustered, this`localStep, this`localSent, this`sent, this`queued
      ensures Valid() && State() == CheckSent(old(State()), id, now)
    {
      if id > localSent { return; }
      var i := Walk(sent, id);
      if i < |sent| {
        Retire(i, State());
        SendNextQueued(now);
      }
    }

    /** Stamps the i-th message in flight with the time it was sent again. */
    method Restamp(i: nat, m: Reliable, ghost g: HostState)
      requires Valid() && State() == g && i < |sent| && |m.msg| >= 1
      modifies this`sent
      ensures Valid() && State() == g.(sent := g.sent[i := m])
    {
      sent := sent[i := m];
    }

    /** Sends the i-th message in flight again. */
    method SendAgain(i: nat, now: nat, ghost g: HostState)
      requires Valid() && State() == g && i < |sent| && Expired(g, g.sent[i], now)
      modifies this`wire, this`clustered, this`localStep, this`localSent, this`sent, this`queued
      ensures Valid() && State() == Resend(g, i, now)
    {
      var m := sent[i];
      PostGrows(g, m.msg, false, now);
      PostTo(m.msg, false, now);
      Restamp(i, m.(lastSend := now), State());
    }

    /** Sends the i-th message in flight again if its time has come. */
    method ResendAt(i: nat, now: nat)
      requires Valid() && i < |sent|
      modifies this`wire, this`clustered, this`localStep, this`localSent, this`sent, this`queued
      ensures Valid() && State() == Resend(old(State()), i, now)
    {
      if (now - sent[i].lastSend) % U32 > (syncPing + 10) % U32 {
        SendAgain(i, now, State());
      }
    }

    /** One turn of the resending loop. */
    method ResendNext(i: nat, now: nat, ghost g: HostState)
      requires Valid() && State() == g && i < |sent|
      modifies this`wire, this`clustered, this`localStep, this`localSent, this`sent, this`queued
      ensures Valid() && |sent| >= |g.sent| && Slots(|sent|) == Slots(|g.sent|)
      ensures SendQueuedFrom(State(), i + 1, now) == SendQueuedFrom(g, i, now)
    {
      ResendAt(i, now);
    }

    method ResendQueued(now: nat)
      requires Valid()
      modifies this`wire, this`clustered, this`localStep, this`localSent, this`sent, this`queued
      ensures Valid() && State() == SendQueued(old(State()), now)
    {
      ghost var was := State();
      var i := 0;
      while i < |sent|
        invariant 0 <= i <= |sent| && Valid()
        invariant SendQueuedFrom(State(), i, now) == SendQueuedFrom(was, 0, now)
        decreases Slots(|sent|) - i
      {
        ResendNext(i, now, State());
        i := i + 1;
      }
    }

    // ---------- Receiving ----------

    method HandUpMessage(m: Bytes)
      requires Valid()
      modifies this`log
      ensures Valid() && State() == old(State()).(assembly := HandUp(old(State()).assembly, m))
    {
      if |m| > 0 && m[0] != 0 {
        log := log + [m];
      }
    }

    method ChunkBody(m: Bytes)
      requires Valid()
      modifies little`buffer, little`currentLength
      ensures Valid() && State() == old(State()).(assembly := GotChunkBody(old(State()).assembly, m))
    {
      little.AddMessage(m);
    }

    method ChunkTail(m: Bytes)
      requires Valid()
      modifies this`log, little`buffer, little`currentLength
      ensures Valid() && State() == old(State()).(assembly := GotChunkTail(old(State()).assembly, m))
    {
      little.AddMessage(m);
      if little.buffer != null {
        HandUpMessage(little.buffer[..]);
        little.DeleteMessage();
      }
    }

    method BigChunk(total: nat, m: Bytes)
      requires Valid()
      modifies this`log, this`ftLength, large`buffer, large`currentLength
      ensures Valid() && State() == old(State()).(assembly := GotBigChunk(old(State()).assembly, total, m))
    {
      ghost var s := State();
      BigChunkStages(s.assembly, total, m);
      PrepareBigChunk(total);
      GrowBigChunk(m, s.(assembly := Prepared(s.assembly, total)));
      FinishBigChunk(total, s.(assembly := Grown(Prepared(s.assembly, total), m)));
    }

    /** A chunk of another transfer than the running one drops what was gathered. */
    method PrepareBigChunk(total: nat)
      requires Valid()
      modifies this`ftLength, large`buffer, large`currentLength
      ensures Valid() && State() == old(State()).(assembly := Prepared(old(State()).assembly, total))
    {
      if ftLength == 0 {
        ftLength := total;
      } else if ftLength != total {
        large.DeleteMessage();
        ftLength := total;
      }
    }

    method GrowBigChunk(m: Bytes, ghost g: HostState)
      requires Valid() && State() == g
      modifies large`buffer, large`currentLength
      ensures Valid() && State() == g.(assembly := Grown(g.assembly, m))
    {
      large.AddMessage(m);
    }

    /** Hands up a transfer that is complete, and drops one that has grown too long. */
    method FinishBigChunk(total: nat, ghost g: HostState)
      requires Valid() && State() == g
      modifies this`log, this`ftLength, large`buffer, large`currentLength
      ensures Valid() && State() == g.(assembly := Finished(g.assembly, total))
    {
      if large.currentLength == total {
        if large.buffer != null {
          HandUpMessage(large.buffer[..]);
          large.DeleteMessage();
        }
        ftLength := 0;
      } else if large.currentLength > total {
        large.DeleteMessage();
        ftLength := 0;
      }
    }

    /** A message of the reliable stream, or a chunk outside it. */
    method DeliverMessage(m: Bytes)
      requires Valid()
      modifies this`log, this`ftLength, little`buffer, little`currentLength, large`buffer, large`currentLength
      ensures Valid() && State() == old(State()).(assembly := Deliver(old(State()).assembly, m))
    {
      if |m| > 0 && m[0] != 0 {
        HandUpMessage(m);
      } else if |m| >= 3 && m[1] == 0x08 {
        ChunkBody(m[2..]);
      } else if |m| >= 3 && m[1] == 0x09 {
        ChunkTail(m[2..]);
      } else if |m| >= 7 && m[1] == 0x0A {
        BigChunk(GetLong(m, 2), m[6..]);
      }
    }

    /** The next message of the reliable stream. */
    method AcceptMessage(m: Bytes, ghost g: HostState)
      requires Valid() && State() == g
      modifies this`remoteStep, this`log, this`ftLength
      modifies little`buffer, little`currentLength, large`buffer, large`currentLength
      ensures Valid() && State() == Accept(g, m)
    {
      DeliverMessage(m);
      remoteStep := Next(remoteStep);
    }

    method DropReceived(i: nat, ghost g: HostState)
      requires Valid() && State() == g && i < |received|
      modifies this`received
      ensures Valid() && State() == g.(received := Remove(g.received, i))
    {
      received := Remove(received, i);
    }

    /** Takes the i-th message out of the inbox and delivers it. */
    method AcceptAt(i: nat, ghost g: HostState)
      requires Valid() && State() == g && i < |received|
      modifies this`remoteStep, this`received, this`log, this`ftLength
      modifies little`buffer, little`currentLength, large`buffer, large`currentLength
      ensures Valid() && State() == Accept(g, g.received[i].msg).(received := Remove(g.received, i))
    {
      AcceptMessage(received[i].msg, g);
      DropReceived(i, State());
    }

    /** One turn of the draining loop: a message whose turn has come is accepted, and the scan starts again. */
    method DrainAt(i: nat, ghost g: HostState) returns (next: nat)
      requires Valid() && State() == g && i < |received|
      requires forall j :: 0 <= j < i ==> g.received[j].id != g.remoteStep
      modifies this`remoteStep, this`received, this`log, this`ftLength
      modifies little`buffer, little`currentLength, large`buffer, large`currentLength
      ensures Valid() && next <= |received| && Drain(State()) == Drain(g)
      ensures |received| < |g.received| || (|received| == |g.received| && next > i)
      ensures forall j :: 0 <= j < next ==> received[j].id != remoteStep
    {
      if received[i].id == remoteStep {
        DrainUnfolds(g, i);
        AcceptAt(i, g);
        next := 0;
      } else {
        next := i + 1;
      }
    }

    method DrainReceived()
      requires Valid()
      modifies this`remoteStep, this`received, this`log, this`ftLength
      modifies little`buffer, little`currentLength, large`buffer, large`currentLength
      ensures Valid() && State() == Drain(old(State()))
    {
      ghost var was := State();
      var i := 0;
      while i < |received|
        invariant 0 <= i <= |received| && Valid()
        invariant forall j :: 0 <= j < i ==> received[j].id != remoteStep
        invariant Drain(State()) == Drain(was)
        decreases |received|, |received| - i
      {
        i := DrainAt(i, State());
      }
      DrainUnfolds(State(), i);
    }

    /** A message ahead of its turn waits, unless it is there already. */
    method Keep(id: nat, m: Bytes, now: nat, ghost g: HostState)
      requires Valid() && State() == g
      modifies this`received
      ensures Valid()
      ensures State() == if Has(g.received, id) then g else g.(received := g.received + [Reliable(id, m, now)])
    {
      var i := Walk(received, id);
      if i == |received| {
        received := received + [Reliable(id, m, now)];
      }
    }

    method CheckReceivedId(id: nat, m: Bytes, now: nat)
      requires Valid()
      modifies this`remoteStep, this`received, this`log, this`ftLength
      modifies little`buffer, little`currentLength, large`buffer, large`currentLength
      ensures Valid() && State() == CheckReceived(old(State()), id, m, now)
    {
      ghost var g := State();
      if id < remoteStep { return; }
      if id == remoteStep {
        AcceptMessage(m, g);
        DrainReceived();
      } else {
        Keep(id, m, now, g);
      }
    }

    method Receive(m: Bytes, now: nat)
      requires Valid()
      modifies this, little`buffer, little`currentLength, large`buffer, large`currentLength
      ensures Valid() && State() == GotMessage(old(State()), m, now)
    {
      if |m| > 0 && m[0] != 0 {
        heard := heard + [m];
      } else if |m| >= 7 && m[1] == 0x03 {
        EmitMessage(Ack(GetLong(m, 2)));
        CheckReceivedId(GetLong(m, 2), m[6..], now);
      } else if |m| == 6 && m[1] == 0x04 {
        CheckSentId(GetLong(m, 2), now);
      } else {
        DeliverMessage(m);
      }
    }

    /** The messages of a cluster, behind its header. */
    method ReceiveCluster(c: Bytes, now: nat)
      requires Valid() && |c| > 0
      modifies this, little`buffer, little`currentLength, large`buffer, large`currentLength
      ensures Valid() && State() == GotMessages(old(State()), UnpackCluster(c), now)
    {
      ghost var was, done, all := State(), [], UnpackCluster(c);
      var index := 0;
      RestStarts(c);
      while index < |c|
        invariant 0 <= index <= |c| && Valid()
        invariant all == done + Rest(c, index)
        invariant State() == GotMessages(was, done, now)
      {
        var length := c[index] as int;
        if length == 0 || index + 1 + length > |c| {
          RestStops(c, done, index);
          return;
        }
        index, done := ReceiveAt(c, index, length, now, was, done, all);
      }
      assert done + [] == done;
    }

    method ReceiveOne(m: Bytes, now: nat, ghost was: HostState, ghost done: seq<Bytes>)
      requires Valid() && State() == GotMessages(was, done, now)
      modifies this, little`buffer, little`currentLength, large`buffer, large`currentLength
      ensures Valid() && State() == GotMessages(was, done + [m], now)
    {
      Receive(m, now);
      GotMessagesAppend(was, done, m, now);
    }

    method ReceiveAt(c: Bytes, index: nat, length: nat, now: nat,
                     ghost was: HostState, ghost done: seq<Bytes>, ghost all: seq<Bytes>)
      returns (next: nat, ghost more: seq<Bytes>)
      requires Valid() && index < |c| && length == c[index] as int && length > 0 && index + 1 + length <= |c|
      requires State() == GotMessages(was, done, now) && all == done + Rest(c, index)
      modifies this, little`buffer, little`currentLength, large`buffer, large`currentLength
      ensures Valid() && State() == GotMessages(was, more, now)
      ensures index < next <= |c| && all == more + Rest(c, next)
    {
      RestAdvances(c, done, index, length);
      next, more := index + 1 + length, done + [c[index + 1..index + 1 + length]];
      assert all == more + Rest(c, next);
      ReceiveOne(c[index + 1..index + 1 + length], now, was, done);
    }

    method ReceivePacket(w: Bytes, now: nat)
      requires Valid() && 1 <= |w| <= PACKET_MAX_LENGTH
      modifies this, little`buffer, little`currentLength, large`buffer, large`currentLength
      ensures Valid() && State() == GotPacket(old(State()), w, now)
    {
      var packet := new Byte[|w|](i requires 0 <= i < |w| => w[i]);
      assert packet[..] == packet[..|w|] == w;
      encryption.Decrypt(packet, |w|);
      var d := packet[..];
      assert d == Decrypted(encryption.Session(), w);
      if |d| >= 2 && d[0] == 0 && d[1] == 0x0E {
        if |d| >= 6 {
          ReceiveCluster(d[2..], now);
        }
      } else {
        Receive(d, now);
        GotMessagesAppend(old(State()), [], d, now);
      }
    }
  }

  /** How long the list in flight may become while it is gone through. */
  function Slots(n: nat): nat {
    if n > MAX_RELIABLE_IN_TRANSIT then n else MAX_RELIABLE_IN_TRANSIT
  }

  // ---------- The stages of a big chunk ----------

  function Prepared(s: Assembly, total: nat): Assembly {
    s.(large := if s.ftLength != 0 && s.ftLength != total then None else s.large, ftLength := total)
  }

  function Grown(s: Assembly, m: Bytes): Assembly {
    s.(large := Added(s.large, LARGE_LIMIT, m))
  }

  function Finished(s: Assembly, total: nat): Assembly {
    if |Content(s.large)| == total then
      (if s.large.Some? then HandUp(s, s.large.value) else s).(large := None, ftLength := 0)
    else if |Content(s.large)| > total then s.(large := None, ftLength := 0)
    else s
  }

  lemma BigChunkStages(s: Assembly, total: nat, m: Bytes)
    ensures GotBigChunk(s, total, m) == Finished(Grown(Prepared(s, total), m), total)
  {
  }

  lemma PostAllAppend(h: HostState, ms: seq<Bytes>, m: Bytes, now: nat)
    ensures PostAll(h, ms + [m], now) == PostWhole(PostAll(h, ms, now), m, true, now)
  {
    assert (ms + [m])[..|ms|] == ms;
  }

  lemma SendAllAppend(h: HostState, ds: seq<Bytes>, d: Bytes)
    ensures SendAll(h, ds + [d]) == Send(SendAll(h, ds), d)
  {
    assert (ds + [d])[..|ds|] == ds;
  }

  lemma GotMessagesAppend(h: HostState, ms: seq<Bytes>, m: Bytes, now: nat)
    ensures GotMessages(h, ms + [m], now) == GotMessage(GotMessages(h, ms, now), m, now)
  {
    assert (ms + [m])[..|ms|] == ms;
  }

  /** The messages in a cluster from index i on. */
  function Rest(c: Bytes, i: nat): seq<Bytes>
    requires i <= |c|
  {
    if i < |c| then UnpackCluster(c[i..]) else []
  }

  lemma RestStarts(c: Bytes)
    requires |c| > 0
    ensures UnpackCluster(c) == [] + Rest(c, 0)
  {
    assert c[0..] == c;
  }

  lemma RestStops(c: Bytes, done: seq<Bytes>, i: nat)
    requires i < |c| && (c[i] == 0 || i + 1 + c[i] as int > |c|)
    ensures done + Rest(c, i) == done
  {
  }

  lemma RestAdvances(c: Bytes, done: seq<Bytes>, i: nat, length: nat)
    requires i < |c| && length == c[i] as int && length > 0 && i + 1 + length <= |c|
    ensures done + Rest(c, i) == done + [c[i + 1..i + 1 + length]] + Rest(c, i + 1 + length)
  {
    var next := i + 1 + length;
    assert c[i..][1..1 + length] == c[i + 1..next];
    assert c[i..][1 + length..] == c[next..];
    ConcatAssociates(done, [c[i + 1..next]], Rest(c, next));
  }

  lemma {:induction false} FindIs(rs: seq<Reliable>, id: nat, i: nat)
    requires i <= |rs| && (forall j :: 0 <= j < i ==> rs[j].id != id) && (i < |rs| ==> rs[i].id == id)
    ensures Find(rs, id) == i
  {
  }

  lemma DrainUnfolds(h: HostState, i: nat)
    requires i <= |h.received| && forall j :: 0 <= j < i ==> h.received[j].id != h.remoteStep
    requires i < |h.received| ==> h.received[i].id == h.remoteStep
    ensures i == |h.received| ==> Drain(h) == h
    ensures i < |h.received| ==>
              Drain(h) == Drain(Accept(h, h.received[i].msg).(received := Remove(h.received, i)))
  {
    FindIs(h.received, h.remoteStep, i);
  }

  /** The first len bytes of the cluster buffer are the datagram under construction, header included. */
  ghost predicate Building(p: Packing, buffer: Bytes, len: nat, count: nat) {
    && |buffer| == PACKET_MAX_LENGTH && 2 <= len <= CLUSTER_FULL + 1
    && (if count == 0 then len == 2 else len >= 4)
    && buffer[0] == 0 && buffer[1] == 0x0E
    && p.body == buffer[2..len] && p.count == count
  }

  lemma EmptyBuffer(p: Packing, buffer: Bytes, len: nat, count: nat, out: seq<Bytes>)
    requires Building(p, buffer, len, count)
    ensures Building(Packing([], 0, out), buffer, 2, 0)
  {
  }

  /** Appends a length byte and its message to the cluster buffer. */
  method AppendToCluster(buffer: array<Byte>, len: nat, count: nat, m: Bytes, ghost q: Packing)
    requires Building(q, buffer[..], len, count)
    requires 1 <= |m| <= SMALL && len + |m| <= CLUSTER_FULL
    modifies buffer
    ensures Building(Packing(q.body + [LengthByte(m)] + m, q.count + 1, q.out), buffer[..], len + 1 + |m|, count + 1)
  {
    CopyTo(buffer, len, [LengthByte(m)] + m);
    CopiedBehind(old(buffer[..]), buffer[..], len, LengthByte(m), m);
  }

  lemma CopiedBehind(was: Bytes, now: Bytes, len: nat, b: Byte, m: Bytes)
    requires 2 <= len && len + 1 + |m| <= |was|
    requires now == was[..len] + [b] + m + was[len + 1 + |m|..]
    ensures now[2..len + 1 + |m|] == was[2..len] + [b] + m && now[0] == was[0] && now[1] == was[1]
  {
  }

  method CopyTo(buffer: array<Byte>, at: nat, m: Bytes)
    requires at + |m| <= buffer.Length
    modifies buffer
    ensures buffer[..] == old(buffer[..at]) + m + old(buffer[at + |m|..])
  {
    var j := 0;
    while j < |m|
      invariant 0 <= j <= |m|
      invariant forall p :: 0 <= p < buffer.Length ==>
                  buffer[p] == if at <= p < at + j then m[p - at] else old(buffer[p])
    {
      buffer[at + j] := m[j];
      j := j + 1;
    }
  }
}
