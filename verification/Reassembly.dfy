/** Fragmentation of long messages and their reassembly
    (mervbot/host.cpp, the chunking half of Host::post and gotChunkBody / gotChunkTail / gotBigChunk). */
module Reassembly {
  import opened Bytes
  import opened Chunk

  const CHUNK_SIZE: nat := 496
  const LITTLE_LIMIT: nat := 1_000_000
  const LARGE_LIMIT: nat := 5_000_000

  /** The longest message that travels in one piece. */
  const UNCHUNKED: nat := CHUNK_SIZE + 12

  function Min(a: nat, b: nat): nat {
    if a < b then a else b
  }

  // ---------- Cutting a message up ----------

  /** The 00 0A chunks of m from offset i on: total length, then up to CHUNK_SIZE bytes. */
  function BigFragments(m: Bytes, i: nat): (f: seq<Bytes>)
    requires i <= |m|
    ensures forall k :: 0 <= k < |f| ==> 7 <= |f[k]| <= CHUNK_SIZE + 6
    decreases |m| - i
  {
    if i == |m| then []
    else
      var j := Min(i + CHUNK_SIZE, |m|);
      [[0, 0x0A] + Long(|m|) + m[i..j]] + BigFragments(m, j)
  }

  /** The 00 08 chunk bodies of m from offset i on, and the 00 09 tail. */
  function LittleFragments(m: Bytes, i: nat): (f: seq<Bytes>)
    requires i < |m|
    ensures |f| > 0
    ensures forall k :: 0 <= k < |f| ==> 3 <= |f[k]| <= CHUNK_SIZE + 6
    decreases |m| - i
  {
    if |m| - i > CHUNK_SIZE + 4 then
      [[0, 0x08] + m[i..i + CHUNK_SIZE + 4]] + LittleFragments(m, i + CHUNK_SIZE + 4)
    else
      [[0, 0x09] + m[i..]]
  }

  function Fragments(m: Bytes): (f: seq<Bytes>)
    requires |m| > UNCHUNKED
    ensures forall k :: 0 <= k < |f| ==> 3 <= |f[k]| <= CHUNK_SIZE + 6
  {
    if |m| > 1000 then BigFragments(m, 0) else LittleFragments(m, 0)
  }

  /** What one message given to post puts on the reliable stream. */
  function Payloads(m: Bytes): seq<Bytes> {
    if |m| > UNCHUNKED then Fragments(m) else [m]
  }

  /** The reliable stream of a list of posted messages. */
  function Stream(posted: seq<Bytes>): seq<Bytes> {
    if posted == [] then []
    else Stream(posted[..|posted| - 1]) + Payloads(posted[|posted| - 1])
  }

  // ---------- Putting it together again ----------

  /** The two transfer buffers, the length of the running big transfer (0 when none),
      and the application messages handed up so far. */
  datatype Assembly = Assembly(little: Option<Bytes>, large: Option<Bytes>, ftLength: nat, log: seq<Bytes>)

  const FRESH: Assembly := Assembly(None, None, 0, [])

  predicate Idle(s: Assembly) {
    s.little == None && s.large == None && s.ftLength == 0
  }

  predicate IsApplication(m: Bytes) {
    |m| > 0 && m[0] != 0
  }

  /** A message handed to the application; a core message is not routed a second time. */
  function HandUp(s: Assembly, m: Bytes): Assembly {
    if IsApplication(m) then s.(log := s.log + [m]) else s
  }

  function GotChunkBody(s: Assembly, m: Bytes): Assembly {
    s.(little := Added(s.little, LITTLE_LIMIT, m))
  }

  function GotChunkTail(s: Assembly, m: Bytes): Assembly {
    var t := GotChunkBody(s, m);
    if t.little.Some? then HandUp(t, t.little.value).(little := None) else t
  }

  function GotBigChunk(s: Assembly, total: nat, m: Bytes): Assembly {
    var large := if s.ftLength != 0 && s.ftLength != total then None else s.large;
    var grown := Added(large, LARGE_LIMIT, m);
    if |Content(grown)| == total then
      if grown.Some? then HandUp(s, grown.value).(large := None, ftLength := 0)
      else s.(large := None, ftLength := 0)
    else if |Content(grown)| > total then
      s.(large := None, ftLength := 0)
    else
      s.(large := grown, ftLength := total)
  }

  /** The routing of one message taken off the reliable stream. */
  function Deliver(s: Assembly, m: Bytes): Assembly {
    if IsApplication(m) then HandUp(s, m)
    else if |m| >= 3 && m[1] == 0x08 then GotChunkBody(s, m[2..])
    else if |m| >= 3 && m[1] == 0x09 then GotChunkTail(s, m[2..])
    else if |m| >= 7 && m[1] == 0x0A then GotBigChunk(s, GetLong(m, 2), m[6..])
    else s
  }

  function DeliverAll(s: Assembly, ms: seq<Bytes>): Assembly
    decreases |ms|
  {
    if ms == [] then s else DeliverAll(Deliver(s, ms[0]), ms[1..])
  }

  lemma {:induction false} DeliverAllConcat(s: Assembly, a: seq<Bytes>, b: seq<Bytes>)
    ensures DeliverAll(s, a + b) == DeliverAll(DeliverAll(s, a), b)
    decreases |a|
  {
    if a == [] {
      assert a + b == b;
    } else {
      assert (a + b)[0] == a[0] && (a + b)[1..] == a[1..] + b;
      DeliverAllConcat(Deliver(s, a[0]), a[1..], b);
    }
  }

  lemma DeliverOneMore(s: Assembly, a: seq<Bytes>, m: Bytes)
    ensures DeliverAll(s, a + [m]) == Deliver(DeliverAll(s, a), m)
  {
    DeliverAllConcat(s, a, [m]);
    assert [m][1..] == [];
  }

  lemma DeliverFirst(s: Assembly, f: Bytes, rest: seq<Bytes>, k: nat)
    requires 0 < k <= 1 + |rest|
    ensures DeliverAll(s, ([f] + rest)[..k]) == DeliverAll(Deliver(s, f), rest[..k - 1])
  {
    assert ([f] + rest)[..k] == [f] + rest[..k - 1];
    assert ([f] + rest[..k - 1])[1..] == rest[..k - 1];
  }

  // ---------- Reassembly undoes fragmentation ----------

  lemma BigChunkDelivered(s: Assembly, m: Bytes, i: nat)
    requires i < |m| < U32
    ensures var j := Min(i + CHUNK_SIZE, |m|);
            Deliver(s, [0, 0x0A] + Long(|m|) + m[i..j]) == GotBigChunk(s, |m|, m[i..j])
  {
    var j := Min(i + CHUNK_SIZE, |m|);
    var f := [0, 0x0A] + Long(|m|) + m[i..j];
    LongRoundTrip([0, 0x0A], |m|, m[i..j]);
    assert f[0] == 0 && f[1] == 0x0A && f[6..] == m[i..j];
  }

  /** A transfer of m stands at offset i: exactly m[..i] is buffered. */
  predicate BigAt(s: Assembly, m: Bytes, i: nat)
    requires i <= |m|
  {
    && s.little == None
    && (if i == 0 then s.large == None && s.ftLength == 0 else s.large == Some(m[..i]) && s.ftLength == |m|)
  }

  lemma BigGrows(s: Assembly, m: Bytes, i: nat, j: nat)
    requires IsApplication(m) && i < j <= |m| <= LARGE_LIMIT && BigAt(s, m, i)
    ensures var t := GotBigChunk(s, |m|, m[i..j]);
            if j < |m| then t.log == s.log && BigAt(t, m, j) else t == Assembly(None, None, 0, s.log + [m])
  {
    assert m[..i] + m[i..j] == m[..j];
    if j == |m| {
      assert m[..j] == m;
    }
  }

  lemma BigStep(s: Assembly, m: Bytes, i: nat)
    requires IsApplication(m) && i < |m| <= LARGE_LIMIT && BigAt(s, m, i)
    ensures var j, t := Min(i + CHUNK_SIZE, |m|), Deliver(s, BigFragments(m, i)[0]);
            if j < |m| then t.log == s.log && BigAt(t, m, j) else t == Assembly(None, None, 0, s.log + [m])
  {
    BigChunkDelivered(s, m, i);
    BigGrows(s, m, i, Min(i + CHUNK_SIZE, |m|));
  }

  lemma {:induction false} BigTransfer(s: Assembly, m: Bytes, i: nat, k: nat)
    requires IsApplication(m) && i < |m| <= LARGE_LIMIT && BigAt(s, m, i)
    requires k <= |BigFragments(m, i)|
    ensures var t := DeliverAll(s, BigFragments(m, i)[..k]);
            if k < |BigFragments(m, i)| then t.log == s.log else t == Assembly(None, None, 0, s.log + [m])
    decreases |m| - i
  {
    if k > 0 {
      var j, f := Min(i + CHUNK_SIZE, |m|), BigFragments(m, i)[0];
      BigStep(s, m, i);
      DeliverFirst(s, f, BigFragments(m, j), k);
      if j < |m| {
        BigTransfer(Deliver(s, f), m, j, k - 1);
      }
    }
  }

  predicate LittleAt(s: Assembly, m: Bytes, i: nat)
    requires i <= |m|
  {
    && s.large == None && s.ftLength == 0
    && s.little == (if i == 0 then None else Some(m[..i]))
  }

  lemma {:induction false} LittleTransfer(s: Assembly, m: Bytes, i: nat, k: nat)
    requires i < |m| <= LITTLE_LIMIT && LittleAt(s, m, i)
    requires k <= |LittleFragments(m, i)|
    ensures var t := DeliverAll(s, LittleFragments(m, i)[..k]);
            if k < |LittleFragments(m, i)| then t.log == s.log
            else t == HandUp(Assembly(None, None, 0, s.log), m)
    decreases |m| - i
  {
    if k > 0 {
      var f := LittleFragments(m, i);
      if |m| - i > CHUNK_SIZE + 4 {
        var j := i + CHUNK_SIZE + 4;
        assert f[0][2..] == m[i..j];
        assert m[..i] + m[i..j] == m[..j];
        var t := Deliver(s, f[0]);
        assert LittleAt(t, m, j);
        assert f[..k][1..] == LittleFragments(m, j)[..k - 1];
        LittleTransfer(t, m, j, k - 1);
      } else {
        assert f[0][2..] == m[i..];
        assert m[..i] + m[i..] == m;
        assert f[..k] == [] + [f[0]];
        DeliverOneMore(s, [], f[0]);
      }
    }
  }

  /** One posted message, delivered fragment by fragment: nothing reaches the application
      before the last fragment, which hands up exactly the message. */
  lemma MessageDelivered(s: Assembly, m: Bytes, k: nat)
    requires Idle(s) && IsApplication(m) && |m| <= LARGE_LIMIT
    requires k <= |Payloads(m)|
    ensures var t := DeliverAll(s, Payloads(m)[..k]);
            if k < |Payloads(m)| then t.log == s.log else t == Assembly(None, None, 0, s.log + [m])
  {
    if |m| > 1000 {
      BigTransfer(s, m, 0, k);
    } else if |m| > UNCHUNKED {
      LittleTransfer(s, m, 0, k);
    } else {
      assert Payloads(m)[..k] == if k == 0 then [] else [m];
      DeliverOneMore(s, [], m);
    }
  }

  /** A transfer above the limit never completes. */
  lemma {:induction false} OversizedTransfer(s: Assembly, m: Bytes, i: nat)
    requires LARGE_LIMIT < |m| < U32 && i <= |m|
    requires |Content(s.large)| <= LARGE_LIMIT && (s.ftLength == 0 || s.ftLength == |m|)
    ensures DeliverAll(s, BigFragments(m, i)).log == s.log
    decreases |m| - i
  {
    if i < |m| {
      BigChunkDelivered(s, m, i);
      var f := BigFragments(m, i);
      assert f[1..] == BigFragments(m, Min(i + CHUNK_SIZE, |m|));
      OversizedTransfer(Deliver(s, f[0]), m, Min(i + CHUNK_SIZE, |m|));
    }
  }

  /** Fragmenting and reassembling a message gives it back exactly when it is at most 5,000,000 bytes. */
  lemma DeliveredIffWithinLimit(s: Assembly, m: Bytes)
    requires Idle(s) && IsApplication(m) && |m| < U32
    ensures DeliverAll(s, Payloads(m)).log == s.log + [m] <==> |m| <= LARGE_LIMIT
  {
    if |m| <= LARGE_LIMIT {
      MessageDelivered(s, m, |Payloads(m)|);
      assert Payloads(m)[..|Payloads(m)|] == Payloads(m);
    } else {
      OversizedTransfer(s, m, 0);
    }
  }

  // ---------- The whole stream ----------

  lemma StreamAppend(posted: seq<Bytes>, m: Bytes)
    ensures Stream(posted + [m]) == Stream(posted) + Payloads(m)
  {
    assert (posted + [m])[..|posted|] == posted;
  }

  /** A stamped message that has to be fragmented when it is sent again. */
  predicate Refragmented(m: Bytes) {
    UNCHUNKED < |m| <= UNCHUNKED + 6 && m[0] == 0
  }

  /** What ends up on a reliable stream: application messages, and stamped messages in fragments. */
  predicate Streamable(posted: seq<Bytes>) {
    forall i :: 0 <= i < |posted| ==>
      (IsApplication(posted[i]) && |posted[i]| <= LARGE_LIMIT) || Refragmented(posted[i])
  }

  /** The application messages among them. */
  function Applications(posted: seq<Bytes>): seq<Bytes> {
    if posted == [] then []
    else
      var n := |posted| - 1;
      Applications(posted[..n]) + if IsApplication(posted[n]) then [posted[n]] else []
  }

  lemma PayloadsDelivered(s: Assembly, m: Bytes, k: nat)
    requires Idle(s) && Streamable([m]) && k <= |Payloads(m)|
    ensures var t := DeliverAll(s, Payloads(m)[..k]);
            if k < |Payloads(m)| then t.log == s.log else t == HandUp(Assembly(None, None, 0, s.log), m)
  {
    assert [m][0] == m;
    if IsApplication(m) {
      MessageDelivered(s, m, k);
    } else {
      LittleTransfer(s, m, 0, k);
    }
  }

  /** The delivery of the last posted message, up to some fragment, after everything before it. */
  lemma LastMessage(early: seq<Bytes>, m: Bytes, k: nat)
    requires Streamable([m])
    requires |Stream(early)| <= k <= |Stream(early)| + |Payloads(m)|
    requires DeliverAll(FRESH, Stream(early)) == Assembly(None, None, 0, Applications(early))
    ensures var t := DeliverAll(FRESH, (Stream(early) + Payloads(m))[..k]);
            if k < |Stream(early)| + |Payloads(m)| then t.log == Applications(early)
            else t == HandUp(Assembly(None, None, 0, Applications(early)), m)
  {
    var i, a := k - |Stream(early)|, Assembly(None, None, 0, Applications(early));
    TakeConcat(Stream(early), Payloads(m), k);
    DeliverAllConcat(FRESH, Stream(early), Payloads(m)[..i]);
    PayloadsDelivered(a, m, i);
  }

  /** What the application has after k messages of the stream. */
  function Delivered(posted: seq<Bytes>, k: nat): Assembly
    requires k <= |Stream(posted)|
  {
    DeliverAll(FRESH, Stream(posted)[..k])
  }

  lemma LastDelivered(early: seq<Bytes>, m: Bytes, k: nat)
    requires Streamable([m])
    requires |Stream(early)| <= k <= |Stream(early)| + |Payloads(m)|
    requires DeliverAll(FRESH, Stream(early)) == Assembly(None, None, 0, Applications(early))
    ensures var apps, t := Applications(early + [m]), DeliverAll(FRESH, (Stream(early) + Payloads(m))[..k]);
            t.log <= apps && (k == |Stream(early)| + |Payloads(m)| ==> t == Assembly(None, None, 0, apps))
  {
    LastMessage(early, m, k);
    assert (early + [m])[..|early|] == early;
  }

  lemma EarlyDelivered(early: seq<Bytes>, m: Bytes, k: nat)
    requires k <= |Stream(early)|
    ensures DeliverAll(FRESH, (Stream(early) + Payloads(m))[..k]) == Delivered(early, k)
    ensures Applications(early) <= Applications(early + [m])
  {
    assert (Stream(early) + Payloads(m))[..k] == Stream(early)[..k];
    assert (early + [m])[..|early|] == early;
  }

  /** After any k messages of the stream the application has a prefix of the application messages;
      after all of them it has all, and no transfer is half done. */
  lemma {:induction false} ApplicationsDelivered(posted: seq<Bytes>, k: nat)
    requires Streamable(posted) && k <= |Stream(posted)|
    ensures Delivered(posted, k).log <= Applications(posted)
    ensures k == |Stream(posted)| ==> Delivered(posted, k) == Assembly(None, None, 0, Applications(posted))
    decreases |posted|
  {
    if posted == [] {
      assert Stream(posted)[..k] == [];
    } else {
      var early, m := posted[..|posted| - 1], posted[|posted| - 1];
      SplitLast(posted);
      StreamAppend(early, m);
      if k < |Stream(early)| {
        ApplicationsDelivered(early, k);
        EarlyDelivered(early, m, k);
      } else {
        ApplicationsDelivered(early, |Stream(early)|);
        assert Stream(early)[..|Stream(early)|] == Stream(early);
        LastDelivered(early, m, k);
      }
    }
  }

  predicate Deliverable(posted: seq<Bytes>) {
    forall i :: 0 <= i < |posted| ==> IsApplication(posted[i]) && |posted[i]| <= LARGE_LIMIT
  }

  lemma {:induction false} AllApplications(posted: seq<Bytes>)
    requires Deliverable(posted)
    ensures Applications(posted) == posted
  {
    if posted != [] {
      AllApplications(posted[..|posted| - 1]);
      SplitLast(posted);
    }
  }

  lemma ApplicationsAppend(posted: seq<Bytes>, m: Bytes)
    ensures Applications(posted + [m]) == Applications(posted) + if IsApplication(m) then [m] else []
  {
    assert (posted + [m])[..|posted|] == posted;
  }

  lemma StreamableAppend(posted: seq<Bytes>, m: Bytes)
    requires Streamable(posted) && Streamable([m])
    ensures Streamable(posted + [m])
  {
    assert [m][0] == m;
  }

  /** A message of the stream that is longer than a fragment was posted whole: until it is delivered, the
      application lacks a message. */
  lemma {:induction false} WholeMessageLacks(posted: seq<Bytes>, id: nat, k: nat)
    requires Streamable(posted) && k <= id < |Stream(posted)| && |Stream(posted)[id]| > CHUNK_SIZE + 6
    ensures |Delivered(posted, k).log| < |Applications(posted)|
    decreases |posted|
  {
    var early, m := posted[..|posted| - 1], posted[|posted| - 1];
    SplitLast(posted);
    StreamAppend(early, m);
    ApplicationsAppend(early, m);
    EarlyDelivered(early, m, Min(k, |Stream(early)|));
    if id < |Stream(early)| {
      WholeMessageLacks(early, id, k);
    } else {
      assert Stream(posted)[id] == Payloads(m)[id - |Stream(early)|];
      ApplicationsDelivered(early, k);
    }
  }

  /** After any k messages of the stream the application has a prefix of what was posted;
      after all of them it has everything, and no transfer is half done. */
  lemma StreamDelivered(posted: seq<Bytes>, k: nat)
    requires Deliverable(posted) && k <= |Stream(posted)|
    ensures Delivered(posted, k).log <= posted
    ensures k == |Stream(posted)| ==> Delivered(posted, k) == Assembly(None, None, 0, posted)
  {
    ApplicationsDelivered(posted, k);
    AllApplications(posted);
  }
}
