/** The players of an arena: their list, the table that finds them by ident, and the pointers between them
    (mervbot/host.cpp and mervbot/clientprot.cpp). */
module Players {
  import opened Bytes
  import opened Circle
  import opened LinkedLists
  import opened Rosters

  const UNASSIGNED: Ident := 0xFFFF
  const SPECTATOR: Byte := 8

  /** The ranks below the operators proper. */
  const OP_PLAYER: Byte := 0
  const OP_LIMITED: Byte := 1

  class Player {
    const ident: Ident
    var turret: Player?
    var ship: Byte
    var access: Byte
    var lastPositionUpdate: nat
    var place: Place

    predicate IsNew(ident: Ident, ship: Byte, place: Place)
      reads `ship, `place, `access, `lastPositionUpdate
    {
      this.ident == ident && this.ship == ship && this.place == place && access == 0 && lastPositionUpdate == 0
    }

    constructor (ident: Ident, ship: Byte, place: Place)
      ensures this.ident == ident && this.ship == ship && this.place == place && access == OP_PLAYER
      ensures turret == null && lastPositionUpdate == 0
    {
      this.ident, this.ship, this.place, access := ident, ship, place, OP_PLAYER;
      turret, lastPositionUpdate := null, 0;
    }
  }

  // ---------- Looking players up ----------

  /** The list scan: the first player with an ident. */
  function Lookup(ps: seq<Player>, id: Ident): (p: Player?)
    ensures p != null ==> p in ps && p.ident == id
    ensures p == null ==> forall q :: q in ps ==> q.ident != id
  {
    if ps == [] then null else if ps[0].ident == id then ps[0] else Lookup(ps[1..], id)
  }

  /** Whom player p is attached to after an attach request of an ident, if it was attached to t. */
  function Attached(ps: seq<Player>, p: Player, t: Player?, ident: Ident, turretee: Ident): Player? {
    if p != Lookup(ps, ident) then t
    else if turretee == UNASSIGNED then null
    else if Lookup(ps, turretee) == null then t
    else Lookup(ps, turretee)
  }

  predicate UniqueIdents(ps: seq<Player>) {
    forall i, j :: 0 <= i < j < |ps| ==> ps[i].ident != ps[j].ident
  }

  /** The table finds for every ident what the list scan finds. */
  ghost predicate Agrees(table: seq<Player?>, ps: seq<Player>) {
    |table| == 0x1_0000 && forall id: Ident :: table[id] == Lookup(ps, id)
  }

  lemma LookupIs(ps: seq<Player>, p: Player)
    requires UniqueIdents(ps) && p in ps
    ensures Lookup(ps, p.ident) == p
  {
  }

  lemma {:induction false} LookupAppend(ps: seq<Player>, p: Player, id: Ident)
    requires Lookup(ps, p.ident) == null
    ensures Lookup(ps + [p], id) == if id == p.ident then p else Lookup(ps, id)
  {
    if ps == [] {
      assert [] + [p] == [p];
    } else {
      assert (ps + [p])[1..] == ps[1..] + [p];
      LookupAppend(ps[1..], p, id);
    }
  }

  lemma {:induction false} WithoutMember(ps: seq<Player>, p: Player, q: Player)
    requires UniqueIdents(ps) && p in ps
    ensures q in Without(ps, p) <==> q in ps && q != p
  {
    if ps[0] == p {
      assert q in ps[1..] ==> q.ident != p.ident;
    } else {
      WithoutMember(ps[1..], p, q);
    }
  }

  lemma {:induction false} WithoutUnique(ps: seq<Player>, p: Player)
    requires UniqueIdents(ps) && p in ps
    ensures UniqueIdents(Without(ps, p))
  {
    if ps[0] != p {
      var rest := Without(ps[1..], p);
      WithoutUnique(ps[1..], p);
      forall i | 0 <= i < |rest|
        ensures rest[i].ident != ps[0].ident
      {
        WithoutMember(ps[1..], p, rest[i]);
      }
    }
  }

  lemma WithoutMembers(ps: seq<Player>, p: Player)
    requires UniqueIdents(ps) && p in ps
    ensures UniqueIdents(Without(ps, p))
    ensures forall q :: q in Without(ps, p) <==> q in ps && q != p
  {
    WithoutUnique(ps, p);
    forall q
      ensures q in Without(ps, p) <==> q in ps && q != p
    {
      WithoutMember(ps, p, q);
    }
  }

  lemma LookupWithout(ps: seq<Player>, p: Player, id: Ident)
    requires UniqueIdents(ps) && p in ps
    ensures Lookup(Without(ps, p), id) == if id == p.ident then null else Lookup(ps, id)
  {
    WithoutMembers(ps, p);
    var q := Lookup(ps, id);
    if q != null && q != p {
      LookupIs(Without(ps, p), q);
    }
  }

  lemma AgreesAppend(table: seq<Player?>, ps: seq<Player>, p: Player)
    requires Agrees(table, ps) && Lookup(ps, p.ident) == null && UniqueIdents(ps)
    ensures Agrees(table[p.ident := p], ps + [p]) && UniqueIdents(ps + [p])
  {
    forall id: Ident
      ensures table[p.ident := p][id] == Lookup(ps + [p], id)
    {
      LookupAppend(ps, p, id);
    }
  }

  lemma AgreesWithout(table: seq<Player?>, ps: seq<Player>, p: Player)
    requires Agrees(table, ps) && p in ps && UniqueIdents(ps)
    ensures Agrees(table[p.ident := null], Without(ps, p)) && UniqueIdents(Without(ps, p))
  {
    WithoutMembers(ps, p);
    forall id: Ident
      ensures table[p.ident := null][id] == Lookup(Without(ps, p), id)
    {
      LookupWithout(ps, p, id);
    }
  }

  lemma DistinctPlayers(ps: seq<Player>)
    requires UniqueIdents(ps)
    ensures forall i, j :: 0 <= i < j < |ps| ==> ps[i] != ps[j]
  {
  }

  /** Whoever is attached is attached to a listed player. */
  ghost predicate Refs(ps: seq<Player>)
    reads ps
  {
    forall p :: p in ps && p.turret != null ==> p.turret in ps
  }

  ghost function Turrets(ps: seq<Player>): (ts: seq<Player?>)
    reads ps
    ensures |ts| == |ps| && forall i :: 0 <= i < |ps| ==> ts[i] == ps[i].turret
  {
    seq(|ps|, i requires 0 <= i < |ps| reads ps => ps[i].turret)
  }

  /** Whom each player is attached to once nobody is attached to p. */
  function Detached(ts: seq<Player?>, p: Player?): (r: seq<Player?>)
    ensures |r| == |ts| && forall i :: 0 <= i < |ts| ==> r[i] == if ts[i] == p then null else ts[i]
  {
    seq(|ts|, i requires 0 <= i < |ts| => if ts[i] == p then null else ts[i])
  }

  lemma RefsSame(ps: seq<Player>, ts: seq<Player?>)
    requires Turrets(ps) == ts && forall i :: 0 <= i < |ts| && ts[i] != null ==> ts[i] in ps
    ensures Refs(ps)
  {
    forall p | p in ps && p.turret != null
      ensures p.turret in ps
    {
      var i :| 0 <= i < |ps| && ps[i] == p;
      assert ts[i] == p.turret;
    }
  }

  /** When nobody is attached to p, the others are attached to each other. */
  lemma RefsWithout(ps: seq<Player>, ts: seq<Player?>, p: Player)
    requires UniqueIdents(ps) && p in ps && |ts| == |ps|
    requires forall i :: 0 <= i < |ps| ==> ps[i].turret == ts[i] && ts[i] != p && (ts[i] != null ==> ts[i] in ps)
    ensures Refs(Without(ps, p))
  {
    forall q | q in Without(ps, p) && q.turret != null
      ensures q.turret in Without(ps, p)
    {
      WithoutMember(ps, p, q);
      WithoutMember(ps, p, q.turret);
    }
  }

  lemma RefsAppend(ps: seq<Player>, ts: seq<Player?>, p: Player)
    requires |ts| == |ps| && (p.turret != null ==> p.turret in ps + [p])
    requires forall i :: 0 <= i < |ps| ==> ps[i].turret == ts[i] && (ts[i] != null ==> ts[i] in ps)
    ensures Refs(ps + [p])
  {
  }

  /** The players without one of them, or all of them. */
  function Rest(ps: seq<Player>, xp: Player?): seq<Player> {
    if xp == null then ps else Without<Player>(ps, xp)
  }

  lemma CutKeeps<T>(s: seq<T>, k: nat, x: T)
    requires k < |s| && x in s && x != s[k]
    ensures x in s[..k] + s[k + 1..]
  {
    var i :| 0 <= i < |s| && s[i] == x;
    assert x == if i < k then (s[..k] + s[k + 1..])[i] else (s[..k] + s[k + 1..])[i - 1];
  }

  lemma CutFrom<T>(s: seq<T>, k: nat)
    requires k < |s|
    ensures forall x :: x in s[..k] + s[k + 1..] ==> x in s
  {
  }

  lemma RestFrom(ps: seq<Player>, xp: Player?)
    requires UniqueIdents(ps) && (xp != null ==> xp in ps)
    ensures forall p :: p in Rest(ps, xp) ==> p in ps
  {
    forall p | p in Rest(ps, xp)
      ensures p in ps
    {
      if xp != null {
        WithoutMember(ps, xp, p);
      }
    }
  }

  // ---------- What is known, by ident ----------

  function IdentOf(p: Player?): Option<Ident> {
    if p == null then None else Some(p.ident)
  }

  ghost function Entries(ps: seq<Player>): (es: seq<Entry>)
    reads ps
    ensures |es| == |ps|
    ensures forall i :: 0 <= i < |ps| ==>
              es[i] == Entry(ps[i].ident, ps[i].ship, ps[i].access, IdentOf(ps[i].turret))
  {
    seq(|ps|, i requires 0 <= i < |ps| reads ps =>
      Entry(ps[i].ident, ps[i].ship, ps[i].access, IdentOf(ps[i].turret)))
  }

  function Followed(node: Node?<Player>): Option<Ident> {
    if node == null then None else Some(node.item.ident)
  }

  ghost function SelfOf(p: Player?, ps: seq<Player>): Self {
    if p == null then Absent else if p in ps then Here(p.ident) else Gone
  }

  /** These entries are those of the players ps, as far as idents go. */
  predicate Of(es: seq<Entry>, ps: seq<Player>) {
    |es| == |ps| && forall i :: 0 <= i < |ps| ==> es[i].ident == ps[i].ident
  }

  lemma {:induction false} LookupAt(ps: seq<Player>, es: seq<Entry>, id: Ident)
    requires Of(es, ps)
    ensures Lookup(ps, id) == if At(es, id) == |ps| then null else ps[At(es, id)]
  {
    if ps != [] && ps[0].ident != id {
      LookupAt(ps[1..], es[1..], id);
    }
  }

  /** Once nothing points to whoever has this ident. */
  lemma Forgotten(ps: seq<Player>, id: Ident, q: Player?)
    requires UniqueIdents(ps) && (q != null ==> q in ps)
    ensures IdentOf(if q == Lookup(ps, id) then null else q) == Unless(IdentOf(q), id)
  {
    if q != null && q.ident == id {
      LookupIs(ps, q);
    }
  }

  /** What an attach request leaves, if t is whom each player was attached to. */
  lemma TurretsSeen(ps: seq<Player>, es: seq<Entry>, ts: seq<Player?>, now: seq<Entry>, id: Ident, turretee: Ident)
    requires Of(es, ps) && UniqueIdents(ps) && |ts| == |now| == |ps|
    requires forall i :: 0 <= i < |ps| ==> es[i].on == IdentOf(ts[i])
    requires forall i :: 0 <= i < |ps| ==> now[i] == es[i].(on := IdentOf(Attached(ps, ps[i], ts[i], id, turretee)))
    ensures now == Turreted(es, id, turretee)
  {
    LookupAt(ps, es, id);
    LookupAt(ps, es, turretee);
    DistinctPlayers(ps);
  }

  /** Nothing about these players has changed but for whom they are attached to. */
  twostate predicate RecordsKept(ps: seq<Player>)
    reads ps
  {
    forall i :: 0 <= i < |ps| ==>
      ps[i].ship == old(ps[i].ship) && ps[i].access == old(ps[i].access)
  }

  /** The records of the players ps are those in es, but perhaps for whom they are attached to. */
  ghost predicate Alike(ps: seq<Player>, es: seq<Entry>)
    reads ps
  {
    && Of(es, ps)
    && (forall i :: 0 <= i < |ps| ==> ps[i].ship == es[i].ship)
    && (forall i :: 0 <= i < |ps| ==> ps[i].access == es[i].access)
  }

  /** ts is whom the players were attached to. */
  predicate Attachments(ps: seq<Player>, es: seq<Entry>, ts: seq<Player?>) {
    && Of(es, ps) && |ts| == |ps|
    && forall i :: 0 <= i < |ps| ==> es[i].on == IdentOf(ts[i]) && (ts[i] != null ==> ts[i] in ps)
  }

  lemma OffSeen(ps: seq<Player>, es: seq<Entry>, ts: seq<Player?>, id: Ident)
    requires Attachments(ps, es, ts) && UniqueIdents(ps)
    requires Alike(ps, es) && Turrets(ps) == Detached(ts, Lookup(ps, id))
    ensures Entries(ps) == Off(es, id)
  {
    forall i | 0 <= i < |ps|
      ensures Entries(ps)[i] == Off(es, id)[i]
    {
      Forgotten(ps, id, ts[i]);
    }
  }

  lemma EntriesCut(ps: seq<Player>, k: nat)
    requires k < |ps|
    ensures Entries(ps[..k] + ps[k + 1..]) == Entries(ps)[..k] + Entries(ps)[k + 1..]
  {
    var es, qs := Entries(ps), ps[..k] + ps[k + 1..];
    forall i | 0 <= i < |qs|
      ensures Entries(qs)[i] == (es[..k] + es[k + 1..])[i]
    {
      assert qs[i] == ps[if i < k then i else i + 1];
    }
  }

  /** The entries of the players that stay. */
  lemma RestEntries(ps: seq<Player>, es: seq<Entry>, id: Ident)
    requires Of(es, ps) && UniqueIdents(ps)
    ensures Entries(Rest(ps, Lookup(ps, id))) ==
              if At(es, id) == |es| then Entries(ps) else Entries(ps)[..At(es, id)] + Entries(ps)[At(es, id) + 1..]
  {
    var k := At(es, id);
    LookupAt(ps, es, id);
    if k < |ps| {
      DistinctPlayers(ps);
      WithoutAt(ps, ps[k], k);
      EntriesCut(ps, k);
    }
  }

  lemma SelfRest(ps: seq<Player>, id: Ident, Me: Player?)
    requires UniqueIdents(ps)
    ensures SelfOf(Me, Rest(ps, Lookup(ps, id))) == Departed(SelfOf(Me, ps), id)
  {
    var p := Lookup(ps, id);
    if p != null {
      WithoutMembers(ps, p);
    }
    if Me != null && Me in ps {
      LookupIs(ps, Me);
    }
  }

  /** What is left when whoever has this ident has gone. */
  lemma LeaveSeen(ps: seq<Player>, es: seq<Entry>, ts: seq<Player?>, id: Ident)
    requires Attachments(ps, es, ts) && UniqueIdents(ps)
    requires Alike(ps, es) && Turrets(ps) == Detached(ts, Lookup(ps, id))
    ensures Entries(Rest(ps, Lookup(ps, id))) == Cut(es, id)
  {
    OffSeen(ps, es, ts, id);
    RestEntries(ps, es, id);
  }

  /** What is known once p has entered. */
  lemma EnterSeen(qs: seq<Player>, p: Player, turretee: Ident)
    requires p.access == OP_PLAYER && p.turret == Lookup(qs + [p], turretee)
    ensures Entries(qs + [p]) == Entries(qs) + [Joining(Entries(qs), p.ident, p.ship, turretee)]
  {
    LookupAt(qs + [p], Entries(qs + [p]), turretee);
    LookupAt(qs, Entries(qs), turretee);
  }

  lemma FollowLeaves(ps: seq<Player>, id: Ident, f: Node?<Player>, g: Node?<Player>)
    requires UniqueIdents(ps) && (f != null ==> f.item in ps)
    requires g == if f != null && f.item == Lookup(ps, id) then null else f
    ensures Followed(g) == Unless(Followed(f), id)
  {
    if f != null {
      Forgotten(ps, id, f.item);
    }
  }

  lemma ShipSeen(ps: seq<Player>, es: seq<Entry>, f: Node?<Player>, p: Player?, now: seq<Entry>, g: Node?<Player>,
                 id: Ident, ship: Byte)
    requires Of(es, ps) && UniqueIdents(ps) && p == Lookup(ps, id) && |now| == |ps| && (f != null ==> f.item in ps)
    requires forall i :: 0 <= i < |ps| ==> now[i] == if ps[i] == p && ship < 128 then es[i].(ship := ship) else es[i]
    requires forall i :: 0 <= i < |ps| && ps[i] == p ==>
               g == if ship == SPECTATOR && es[i].ship != ship && f != null && f.item == p then null else f
    requires p == null ==> g == f
    ensures (now, Followed(g)) == Shipped(es, Followed(f), id, ship)
  {
    LookupAt(ps, es, id);
    DistinctPlayers(ps);
    if f != null {
      Forgotten(ps, id, f.item);
    }
    assert now == Shipped(es, Followed(f), id, ship).0;
  }

  lemma ClaimSeen(ps: seq<Player>, es: seq<Entry>, owner: Player?, p: Player?, now: seq<Entry>, owned: Player?,
                  id: Ident)
    requires Of(es, ps) && UniqueIdents(ps) && p == Lookup(ps, id) && |now| == |ps|
    requires forall i :: 0 <= i < |ps| ==>
      && now[i] == (if ps[i] == p && owner == null && es[i].access == OP_PLAYER then es[i].(access := OP_LIMITED)
                    else es[i])
      && (ps[i] == p ==> owned == if owner == null && es[i].access == OP_PLAYER then p else owner)
    requires p == null ==> owned == owner
    ensures (now, IdentOf(owned)) == Claimed(es, IdentOf(owner), id)
  {
    LookupAt(ps, es, id);
    DistinctPlayers(ps);
    assert now == Claimed(es, IdentOf(owner), id).0;
  }

  lemma RankSeen(ps: seq<Player>, es: seq<Entry>, owner: Player?, p: Player?, now: seq<Entry>, owned: Player?,
                 id: Ident, access: Byte)
    requires Of(es, ps) && UniqueIdents(ps) && p == Lookup(ps, id) && |now| == |ps|
    requires forall i :: 0 <= i < |ps| ==> now[i] == if ps[i] == p then es[i].(access := access) else es[i]
    requires owned == (if p != null && owner == p then null else owner) && (owner != null ==> owner in ps)
    ensures (now, IdentOf(owned)) == Ranked(es, IdentOf(owner), id, access)
  {
    LookupAt(ps, es, id);
    DistinctPlayers(ps);
    Forgotten(ps, id, owner);
    assert now == Ranked(es, IdentOf(owner), id, access).0;
  }

  lemma MountSeen(ps: seq<Player>, es: seq<Entry>, f: Node?<Player>, Me: Player, p: Player?, now: seq<Entry>,
                  g: Node?<Player>, id: Ident)
    requires Of(es, ps) && UniqueIdents(ps) && p == Lookup(ps, id) && |now| == |ps|
    requires forall i :: 0 <= i < |ps| ==> now[i] == if ps[i] == Me then es[i].(on := IdentOf(p)) else es[i]
    requires if p == null then g == f else g != null && g.item == p
    ensures (now, Followed(g)) == Mounted(es, Followed(f), SelfOf(Me, ps), id)
  {
    LookupAt(ps, es, id);
    LookupAt(ps, es, Me.ident);
    DistinctPlayers(ps);
    if Me in ps {
      LookupIs(ps, Me);
    }
    assert now == Mounted(es, Followed(f), SelfOf(Me, ps), id).0;
  }

  lemma FollowedIs(ps: seq<Player>, es: seq<Entry>, node: Node?<Player>, f: nat)
    requires Of(es, ps) && UniqueIdents(ps) && (if node == null then f == 0 else f < |ps| && node.item == ps[f])
    ensures FollowedAt(es, Followed(node)) == f
  {
    if node != null {
      LookupAt(ps, es, ps[f].ident);
      LookupIs(ps, ps[f]);
      DistinctPlayers(ps);
    }
  }

  /** Whom the bot follows once it looks at the next flying player. */
  lemma CircledIs(ps: seq<Player>, node: Node?<Player>, f: nat)
    requires UniqueIdents(ps) && f < |ps| && (if node == null then f == 0 else node.item == ps[f])
    ensures Circled(Entries(ps), Followed(node)) == Some(ps[Next(Flying(ps), f)].ident)
  {
    FollowedIs(ps, Entries(ps), node, f);
    assert Flying(ps) == Flights(Entries(ps));
  }

  class Arena {
    const playerlist: LinkedList<Player>
    const qal: array<Player?>
    var follow: Node?<Player>
    var limitedOwner: Player?

    /** The bot's own ident, and its player; nothing resets Me when that player leaves. */
    var me: Ident
    var Me: Player?

    /** When a position was last requested, and the players it was requested from. */
    var lastSpec: nat
    var requests: seq<Request>

    ghost function Listed(): seq<Player>
      reads playerlist, playerlist.nodes
    {
      playerlist.Contents()
    }

    /** The list and the table describe the same players, one for each ident. */
    ghost predicate Consistent()
      reads playerlist, playerlist.nodes, qal
    {
      && playerlist.Valid() && !playerlist.copy
      && UniqueIdents(Listed()) && Agrees(qal[..], Listed())
    }

    ghost predicate Valid()
      reads `follow, `limitedOwner, playerlist, playerlist.nodes, qal, Listed()
    {
      && Consistent()
      && Refs(Listed())
      && (follow != null ==> follow in playerlist.nodes)
      && (limitedOwner != null ==> limitedOwner in Listed())
    }

    /** What is known of the arena, by ident, if the players ps are listed. */
    ghost function Known(ps: seq<Player>): Roster
      reads `follow, `limitedOwner, `me, `Me, ps
    {
      Roster(Entries(ps), Followed(follow), IdentOf(limitedOwner), me, SelfOf(Me, ps))
    }

    ghost function State(): Roster
      reads `follow, `limitedOwner, `me, `Me, playerlist, playerlist.nodes, Listed()
    {
      Known(Listed())
    }

    constructor ()
      ensures Valid() && Listed() == [] && fresh(playerlist) && fresh(qal)
    {
      playerlist := new LinkedList<Player>();
      qal := new Player?[0x1_0000](i => null);
      follow, limitedOwner, me, Me, lastSpec, requests := null, null, UNASSIGNED, null, 0, [];
    }

    /** The table look-up. */
    method GetPlayer(ident: Ident) returns (p: Player?)
      requires Consistent()
      ensures p == Lookup(Listed(), ident)
    {
      p := qal[ident];
    }

    /** The list scan that the table replaces. */
    method ScanPlayer(ident: Ident) returns (p: Player?)
      requires Consistent()
      ensures p == Lookup(Listed(), ident)
    {
      var parse := playerlist.head;
      ghost var ps, k := Listed(), 0;
      while parse != null
        invariant 0 <= k <= |ps| && parse == if k < |ps| then playerlist.nodes[k] else null
        invariant Lookup(ps, ident) == Lookup(ps[k..], ident)
        decreases |ps| - k
      {
        if parse.item.ident == ident { return parse.item; }
        parse := parse.next;
        k := k + 1;
      }
      return null;
    }

    /** Appends a player to the list. */
    method ListPlayer(p: Player, ghost kept: seq<Player>, ghost f: Node?<Player>)
      requires playerlist.Valid() && !playerlist.copy && (f != null ==> f in playerlist.nodes)
      modifies playerlist, playerlist.nodes
      ensures playerlist.Valid() && !playerlist.copy && Listed() == old(Listed()) + [p]
      ensures f != null ==> f in playerlist.nodes
      ensures forall i :: 0 <= i < |kept| ==> unchanged(kept[i])
      ensures qal[..] == old(qal[..])
      ensures forall node :: node in playerlist.nodes ==> node in old(playerlist.nodes) || fresh(node)
    {
      playerlist.Append(p);
    }

    /** Puts a player into the list and the table. */
    method EnterPlayer(p: Player, ghost kept: seq<Player>, ghost f: Node?<Player>)
      requires Consistent() && Lookup(Listed(), p.ident) == null && (f != null ==> f in playerlist.nodes)
      modifies playerlist, playerlist.nodes, qal
      ensures Consistent() && Listed() == old(Listed()) + [p]
      ensures f != null ==> f in playerlist.nodes
      ensures forall i :: 0 <= i < |kept| ==> unchanged(kept[i])
      ensures forall node :: node in playerlist.nodes ==> node in old(playerlist.nodes) || fresh(node)
    {
      AgreesAppend(qal[..], Listed(), p);
      ListPlayer(p, kept, f);
      label Appended:
      qal[p.ident] := p;
      playerlist.SameNodes@Appended();
    }

    method AddPlayer(ident: Ident, ship: Byte, place: Place, ghost kept: seq<Player>, ghost f: Node?<Player>)
      returns (p: Player)
      requires Consistent() && Lookup(Listed(), ident) == null && (f != null ==> f in playerlist.nodes)
      modifies playerlist, playerlist.nodes, qal
      ensures Consistent() && Listed() == old(Listed()) + [p]
      ensures fresh(p) && p.IsNew(ident, ship, place) && p.turret == null
      ensures f != null ==> f in playerlist.nodes
      ensures forall i :: 0 <= i < |kept| ==> unchanged(kept[i])
      ensures forall node :: node in playerlist.nodes ==> node in old(playerlist.nodes) || fresh(node)
    {
      p := new Player(ident, ship, place);
      playerlist.SameNodes();
      EnterPlayer(p, kept, f);
    }

    /** Every player attached to p is detached. */
    method KillTurret(p: Player, ghost ps: seq<Player>)
      requires Consistent() && ps == Listed()
      modifies ps`turret
      ensures Consistent() && Listed() == ps && playerlist.nodes == old(playerlist.nodes)
      ensures follow == old(follow) && limitedOwner == old(limitedOwner)
      ensures Turrets(ps) == Detached(old(Turrets(ps)), p)
    {
      var parse := playerlist.head;
      ghost var k := 0;
      DistinctPlayers(ps);
      while parse != null
        invariant 0 <= k <= |ps| && parse == if k < |ps| then playerlist.nodes[k] else null
        invariant forall i :: 0 <= i < k ==> ps[i].turret == if old(ps[i].turret) == p then null else old(ps[i].turret)
        invariant forall i :: k <= i < |ps| ==> ps[i].turret == old(ps[i].turret)
        invariant forall node :: node in playerlist.nodes ==> unchanged(node)
        decreases |ps| - k
      {
        var xp := parse.item;
        assert xp == ps[k];
        if xp.turret == p {
          xp.turret := null;
        }
        parse := parse.next;
        k := k + 1;
      }
      playerlist.SameNodes();
    }

    /** Takes a player out of the list; f is a node of another player. */
    method Unlist(p: Player, ghost ps: seq<Player>, ghost f: Node?<Player>)
      requires playerlist.Valid() && !playerlist.copy && p in ps && ps == Listed()
      requires f != null ==> f in playerlist.nodes && f.item != p
      modifies playerlist, playerlist.nodes
      ensures playerlist.Valid() && !playerlist.copy && Listed() == Without(ps, p)
      ensures f != null ==> f in playerlist.nodes
      ensures forall i :: 0 <= i < |ps| ==> unchanged(ps[i])
      ensures forall node :: node in playerlist.nodes ==> node in old(playerlist.nodes)
    {
      ghost var nodes := playerlist.nodes;
      ghost var k := playerlist.KillItem(p);
      CutFrom(nodes, k);
      if f != null {
        CutKeeps(nodes, k, f);
      }
    }

    /** Takes a player out of the table and the list. */
    method RemovePlayer(p: Player, ghost ps: seq<Player>, ghost f: Node?<Player>)
      requires Consistent() && p in ps && ps == Listed()
      requires f != null ==> f in playerlist.nodes && f.item != p
      modifies playerlist, playerlist.nodes, qal
      ensures Consistent() && Listed() == Without(ps, p)
      ensures f != null ==> f in playerlist.nodes
      ensures forall i :: 0 <= i < |ps| ==> unchanged(ps[i])
      ensures forall node :: node in playerlist.nodes ==> node in old(playerlist.nodes)
      ensures RecordsKept(ps) && Turrets(ps) == old(Turrets(ps))
    {
      AgreesWithout(qal[..], ps, p);
      qal[p.ident] := null;
      playerlist.SameNodes();
      Unlist(p, ps, f);
    }

    /** No pointer of the bot's own stays at p. */
    method Forget(p: Player, ghost ps: seq<Player>)
      requires Consistent() && ps == Listed()
      modifies `follow, `limitedOwner
      ensures Consistent() && Listed() == ps && playerlist.nodes == old(playerlist.nodes)
      ensures follow == if old(follow) != null && old(follow.item) == p then null else old(follow)
      ensures limitedOwner == if old(limitedOwner) == p then null else old(limitedOwner)
      ensures forall i :: 0 <= i < |ps| ==> unchanged(ps[i])
    {
      if follow != null && p == follow.item {
        follow := null;
      }
      if limitedOwner == p { limitedOwner := null; }
      playerlist.SameNodes();
    }

    /** Clears every pointer to p. */
    method Detach(p: Player, ghost ps: seq<Player>)
      requires Valid() && p in ps && ps == Listed()
      modifies `follow, `limitedOwner, ps`turret
      ensures Consistent() && Listed() == ps && playerlist.nodes == old(playerlist.nodes)
      ensures forall i :: 0 <= i < |ps| ==> ps[i].turret != p && (ps[i].turret != null ==> ps[i].turret in ps)
      ensures RecordsKept(ps)
      ensures Turrets(ps) == Detached(old(Turrets(ps)), p)
      ensures follow == if old(follow) != null && old(follow.item) == p then null else old(follow)
      ensures follow != null ==> follow in playerlist.nodes && follow.item != p
      ensures limitedOwner == if old(limitedOwner) == p then null else old(limitedOwner)
    {
      Forget(p, ps);
      KillTurret(p, ps);
    }

    /** Removes a player, and every pointer to it. */
    method KillPlayer(p: Player, ghost ps: seq<Player>)
      requires Valid() && p in ps && ps == Listed()
      modifies `follow, `limitedOwner, playerlist, playerlist.nodes, qal, ps`turret
      ensures Valid() && Listed() == Without(ps, p)
      ensures forall node :: node in playerlist.nodes ==> node in old(playerlist.nodes)
      ensures RecordsKept(ps)
      ensures Turrets(ps) == Detached(old(Turrets(ps)), p)
      ensures follow == if old(follow) != null && old(follow.item) == p then null else old(follow)
      ensures limitedOwner == if old(limitedOwner) == p then null else old(limitedOwner)
    {
      Detach(p, ps);
      ghost var ts := Turrets(ps);
      WithoutMembers(ps, p);
      RemovePlayer(p, ps, follow);
      RefsWithout(ps, ts, p);
    }

    /** A player who entered under an ident that is listed already replaces the old one. */
    method KillDuplicate(ident: Ident, ghost ps: seq<Player>) returns (ghost xp: Player?)
      requires Valid() && ps == Listed()
      modifies `follow, `limitedOwner, playerlist, playerlist.nodes, qal, ps`turret
      ensures xp == Lookup(ps, ident)
      ensures Valid() && Listed() == Rest(ps, xp) && Lookup(Listed(), ident) == null
      ensures forall node :: node in playerlist.nodes ==> node in old(playerlist.nodes)
      ensures RecordsKept(ps)
      ensures Turrets(ps) == Detached(old(Turrets(ps)), xp)
      ensures follow == if old(follow) != null && old(follow.item) == xp then null else old(follow)
      ensures limitedOwner == if old(limitedOwner) == xp then null else old(limitedOwner)
    {
      var p := GetPlayer(ident);
      xp := p;
      if p != null {
        LookupWithout(ps, p, ident);
        KillPlayer(p, ps);
      }
    }

    /** A listed player is attached to whoever has the ident turretee, perhaps itself. */
    method AttachNew(p: Player, turretee: Ident)
      requires Consistent()
      modifies p`turret
      ensures Consistent() && Listed() == old(Listed()) && p.turret == Lookup(Listed(), turretee)
    {
      var turreted := GetPlayer(turretee);
      p.turret := turreted;
      playerlist.SameNodes();
    }

    /** The player is listed, then attached to whoever has the ident turretee, perhaps itself. */
    method NewPlayer(ident: Ident, ship: Byte, place: Place, turretee: Ident, ghost kept: seq<Player>)
      returns (p: Player)
      requires Valid() && Lookup(Listed(), ident) == null
      modifies playerlist, playerlist.nodes, qal
      ensures Valid() && Listed() == old(Listed()) + [p]
      ensures fresh(p) && p.IsNew(ident, ship, place)
      ensures p.turret == Lookup(Listed(), turretee)
      ensures Turrets(kept) == old(Turrets(kept)) && RecordsKept(kept)
      ensures forall node :: node in playerlist.nodes ==> node in old(playerlist.nodes) || fresh(node)
    {
      ghost var qs := Listed();
      ghost var ts := Turrets(qs);
      p := AddPlayer(ident, ship, place, kept + qs, follow);
      assert forall i :: 0 <= i < |kept| ==> (kept + qs)[i] == kept[i];
      assert forall i :: 0 <= i < |qs| ==> (kept + qs)[|kept| + i] == qs[i];
      AttachNew(p, turretee);
      RefsAppend(qs, ts, p);
    }

    /** A new player in the place of whoever had its ident. */
    method Enter(ident: Ident, ship: Byte, place: Place, turretee: Ident, ghost ps: seq<Player>)
      returns (p: Player, ghost xp: Player?)
      requires Valid() && ps == Listed()
      modifies `follow, `limitedOwner, playerlist, playerlist.nodes, qal, ps`turret
      ensures Valid() && xp == Lookup(ps, ident) && Listed() == Rest(ps, xp) + [p]
      ensures fresh(p) && p.IsNew(ident, ship, place)
      ensures p.turret == Lookup(Rest(ps, xp) + [p], turretee)
      ensures forall node :: node in playerlist.nodes ==> node in old(playerlist.nodes) || fresh(node)
      ensures RecordsKept(ps)
      ensures Turrets(ps) == Detached(old(Turrets(ps)), xp)
      ensures follow == if old(follow) != null && old(follow.item) == xp then null else old(follow)
      ensures limitedOwner == if old(limitedOwner) == xp then null else old(limitedOwner)
    {
      ghost var nodes := playerlist.nodes;
      xp := KillDuplicate(ident, ps);
      assert forall i :: 0 <= i < |playerlist.nodes| ==> playerlist.nodes[i] in nodes;
      p := NewPlayer(ident, ship, place, turretee, ps);
    }

    /** The bot's own player is the one with its ident. */
    method Welcome(p: Player, ident: Ident)
      requires Valid()
      modifies `Me
      ensures Valid() && Listed() == old(Listed()) && Me == if ident == me then p else old(Me)
    {
      if ident == me { Me := p; }
    }

    /** One record of handlePlayerEntering. */
    method PlayerEntering(ident: Ident, ship: Byte, place: Place, turretee: Ident, ghost ps: seq<Player>)
      returns (p: Player, ghost xp: Player?)
      requires Valid() && ps == Listed()
      modifies `follow, `limitedOwner, `Me, playerlist, playerlist.nodes, qal, ps`turret
      ensures Valid() && xp == Lookup(ps, ident) && Listed() == Rest(ps, xp) + [p]
      ensures fresh(p) && p.IsNew(ident, ship, place)
      ensures p.turret == Lookup(Rest(ps, xp) + [p], turretee)
      ensures forall node :: node in playerlist.nodes ==> node in old(playerlist.nodes) || fresh(node)
      ensures RecordsKept(ps)
      ensures Turrets(ps) == Detached(old(Turrets(ps)), xp)
      ensures follow == if old(follow) != null && old(follow.item) == xp then null else old(follow)
      ensures limitedOwner == if old(limitedOwner) == xp then null else old(limitedOwner)
      ensures Me == if ident == me then p else old(Me)
    {
      p, xp := Enter(ident, ship, place, turretee, ps);
      Welcome(p, ident);
    }

    method PlayerLeaving(ident: Ident, ghost ps: seq<Player>) returns (ghost xp: Player?)
      requires Valid() && ps == Listed()
      modifies `follow, `limitedOwner, playerlist, playerlist.nodes, qal, ps`turret
      ensures Valid() && xp == Lookup(ps, ident) && Listed() == Rest(ps, xp)
      ensures forall node :: node in playerlist.nodes ==> node in old(playerlist.nodes)
      ensures RecordsKept(ps)
      ensures Turrets(ps) == Detached(old(Turrets(ps)), xp)
      ensures follow == if old(follow) != null && old(follow.item) == xp then null else old(follow)
      ensures limitedOwner == if old(limitedOwner) == xp then null else old(limitedOwner)
    {
      xp := KillDuplicate(ident, ps);
    }

    /** Sets one player's turret. */
    method Attach(p: Player, to: Player?, ghost ps: seq<Player>)
      requires Valid() && ps == Listed() && p in ps && (to != null ==> to in ps)
      modifies p`turret
      ensures Valid() && Listed() == ps
      ensures forall i :: 0 <= i < |ps| ==> ps[i].turret == if ps[i] == p then to else old(ps[i].turret)
    {
      p.turret := to;
      playerlist.SameNodes();
    }

    /** Attaching, or detaching if there is no turretee. */
    method CreateTurret(ident: Ident, turretee: Ident, ghost ps: seq<Player>)
      requires Valid() && ps == Listed()
      modifies ps`turret
      ensures Valid() && Listed() == ps
      ensures forall i :: 0 <= i < |ps| ==> ps[i].turret == Attached(ps, ps[i], old(ps[i].turret), ident, turretee)
    {
      var turreter := GetPlayer(ident);
      if turreter == null { return; }
      if turretee == UNASSIGNED {
        if turreter.turret == null { return; }
        Attach(turreter, null, ps);
      } else {
        var to := GetPlayer(turretee);
        if to == null { return; }
        Attach(turreter, to, ps);
      }
    }

    method DeleteTurret(ident: Ident, ghost ps: seq<Player>)
      requires Valid() && ps == Listed()
      modifies ps`turret
      ensures Valid() && Listed() == ps
      ensures Turrets(ps) == Detached(old(Turrets(ps)), Lookup(ps, ident))
    {
      var p := GetPlayer(ident);
      if p == null { return; }
      KillTurret(p, ps);
    }

    method ResetArena()
      requires Valid()
      modifies this, playerlist, qal
      ensures Valid() && Listed() == [] && playerlist.nodes == []
      ensures follow == null && limitedOwner == null && me == UNASSIGNED && Me == null
    {
      playerlist.Clear();
      var i := 0;
      while i < 0x1_0000
        invariant 0 <= i <= 0x1_0000 && forall j :: 0 <= j < i ==> qal[j] == null
        invariant playerlist.Valid() && playerlist.nodes == [] && !playerlist.copy
      {
        qal[i] := null;
        i := i + 1;
      }
      me, Me, follow, limitedOwner := UNASSIGNED, null, null, null;
    }

    /** The command to follow a player. */
    method Follow(xp: Player)
      requires Valid() && xp in Listed()
      modifies `follow
      ensures Valid() && Listed() == old(Listed())
      ensures follow != null && follow in playerlist.nodes && follow.item == xp
    {
      var node, k := playerlist.Find(xp);
      follow := node;
      playerlist.SameNodes();
    }

    /** The event that makes the bot follow the first player, or nobody. */
    method Following(following: bool)
      requires Valid()
      modifies `follow
      ensures Valid() && Listed() == old(Listed())
      ensures follow == if following then playerlist.head else null
    {
      follow := if following then playerlist.head else null;
      playerlist.SameNodes();
    }

    /** The command to claim the bot: a player without rank becomes its owner if it has none. */
    method Claim(p: Player, ghost ps: seq<Player>)
      requires Valid() && ps == Listed() && p in ps
      modifies `limitedOwner, p`access
      ensures Valid() && Listed() == ps
      ensures if old(limitedOwner) == null && old(p.access) == OP_PLAYER
              then limitedOwner == p && p.access == OP_LIMITED
              else limitedOwner == old(limitedOwner) && p.access == old(p.access)
    {
      if limitedOwner == null && p.access == OP_PLAYER {
        p.access := OP_LIMITED;
        limitedOwner := p;
      }
      playerlist.SameNodes();
    }

    /** An operator gets a rank, by a password or on entering; an owner who does is no longer the owner. */
    method LogOn(p: Player, access: Byte, ghost ps: seq<Player>)
      requires Valid() && ps == Listed() && p in ps
      modifies `limitedOwner, p`access
      ensures Valid() && Listed() == ps && p.access == access
      ensures limitedOwner == if old(limitedOwner) == p then null else old(limitedOwner)
    {
      if p == limitedOwner { limitedOwner := null; }
      p.access := access;
      playerlist.SameNodes();
    }

    /** The command to attach the bot to a player and follow it, or to detach. */
    method AttachMe(xp: Player?, ghost ps: seq<Player>)
      requires Valid() && ps == Listed() && Me != null && (xp != null ==> xp in ps)
      modifies `follow, Me`turret
      ensures Valid() && Listed() == ps && Me.turret == xp
      ensures if xp == null then follow == old(follow)
              else follow != null && follow in playerlist.nodes && follow.item == xp
    {
      if xp != null { Follow(xp); }
      Me.turret := xp;
      playerlist.SameNodes();
    }

    /** A listed player changes ship: a followed one who becomes a spectator is followed no longer. */
    method ChangeShip(p: Player, ship: Byte, ghost ps: seq<Player>)
      requires Valid() && ps == Listed() && p in ps
      modifies `follow, p`ship
      ensures Valid() && Listed() == ps
      ensures p.ship == if ship < 128 then ship else old(p.ship)
      ensures follow == if ship == SPECTATOR && old(p.ship) != ship && old(follow) != null && old(follow.item) == p
                        then null else old(follow)
    {
      if ship == SPECTATOR && p.ship != ship {
        if follow != null && p == follow.item { follow := null; }
        p.ship := ship;
      } else if ship < 128 && p.ship != ship {
        p.ship := ship;
      }
      playerlist.SameNodes();
    }

    /** The ship part of a change of team. */
    method SetShip(ident: Ident, ship: Byte, ghost ps: seq<Player>) returns (ghost p: Player?)
      requires Valid() && ps == Listed()
      modifies `follow, ps`ship
      ensures Valid() && Listed() == ps && p == Lookup(ps, ident)
      ensures p == null ==> follow == old(follow)
      ensures p != null ==> p.ship == if ship < 128 then ship else old(p.ship)
      ensures p != null ==>
        follow == if ship == SPECTATOR && old(p.ship) != ship && old(follow) != null && old(follow.item) == p
                  then null else old(follow)
      ensures forall i :: 0 <= i < |ps| && ps[i] != p ==> ps[i].ship == old(ps[i].ship)
    {
      var found := GetPlayer(ident);
      p := found;
      if found == null { return; }
      ChangeShip(found, ship, ps);
    }

    // ---------- What the methods leave, by ident ----------

    method TurretKnown(ident: Ident, turretee: Ident, ghost ps: seq<Player>)
      requires Valid() && ps == Listed()
      modifies ps`turret
      ensures Valid() && Listed() == ps && Entries(ps) == Turreted(old(Entries(ps)), ident, turretee)
    {
      ghost var es, ts := Entries(ps), Turrets(ps);
      CreateTurret(ident, turretee, ps);
      TurretsSeen(ps, es, ts, Entries(ps), ident, turretee);
    }

    method NoTurretsKnown(ident: Ident, ghost ps: seq<Player>)
      requires Valid() && ps == Listed()
      modifies ps`turret
      ensures Valid() && Listed() == ps && Entries(ps) == Off(old(Entries(ps)), ident)
    {
      ghost var es, ts := Entries(ps), Turrets(ps);
      DeleteTurret(ident, ps);
      OffSeen(ps, es, ts, ident);
    }

    method LeavingKnown(ident: Ident, ghost ps: seq<Player>)
      requires Valid() && ps == Listed()
      modifies `follow, `limitedOwner, playerlist, playerlist.nodes, qal, ps`turret
      ensures Valid() && Listed() == Rest(ps, Lookup(ps, ident))
      ensures forall node :: node in playerlist.nodes ==> node in old(playerlist.nodes)
      ensures Entries(Rest(ps, Lookup(ps, ident))) == Cut(old(Entries(ps)), ident)
      ensures Followed(follow) == Unless(Followed(old(follow)), ident)
      ensures IdentOf(limitedOwner) == Unless(IdentOf(old(limitedOwner)), ident)
    {
      ghost var es, ts, f := Entries(ps), Turrets(ps), follow;
      Forgotten(ps, ident, limitedOwner);
      ghost var xp := PlayerLeaving(ident, ps);
      FollowLeaves(ps, ident, f, follow);
      LeaveSeen(ps, es, ts, ident);
    }

    method EnteringKnown(ident: Ident, ship: Byte, place: Place, turretee: Ident, ghost ps: seq<Player>)
      returns (p: Player)
      requires Valid() && ps == Listed()
      modifies `follow, `limitedOwner, `Me, playerlist, playerlist.nodes, qal, ps`turret
      ensures Valid() && fresh(p) && p.ident == ident && Listed() == Rest(ps, Lookup(ps, ident)) + [p]
      ensures forall node :: node in playerlist.nodes ==> node in old(playerlist.nodes) || fresh(node)
      ensures Entries(Rest(ps, Lookup(ps, ident)) + [p])
           == Cut(old(Entries(ps)), ident) + [Joining(Cut(old(Entries(ps)), ident), ident, ship, turretee)]
      ensures Followed(follow) == Unless(Followed(old(follow)), ident)
      ensures IdentOf(limitedOwner) == Unless(IdentOf(old(limitedOwner)), ident)
      ensures Me == if ident == me then p else old(Me)
    {
      ghost var es, ts, f := Entries(ps), Turrets(ps), follow;
      Forgotten(ps, ident, limitedOwner);
      ghost var xp;
      p, xp := PlayerEntering(ident, ship, place, turretee, ps);
      FollowLeaves(ps, ident, f, follow);
      LeaveSeen(ps, es, ts, ident);
      EnterSeen(Rest(ps, xp), p, turretee);
    }

    method TeamKnown(ident: Ident, ship: Byte, ghost ps: seq<Player>)
      requires Valid() && ps == Listed()
      modifies `follow, ps`ship
      ensures Valid() && Listed() == ps
      ensures (Entries(ps), Followed(follow)) == Shipped(old(Entries(ps)), Followed(old(follow)), ident, ship)
    {
      ghost var es, f := Entries(ps), follow;
      ghost var p := SetShip(ident, ship, ps);
      ShipSeen(ps, es, f, p, Entries(ps), follow, ident, ship);
    }

    method FollowKnown(ident: Ident, ghost ps: seq<Player>)
      requires Valid() && ps == Listed()
      modifies `follow
      ensures Valid() && Listed() == ps
      ensures Followed(follow) == if In(Entries(ps), ident) then Some(ident) else Followed(old(follow))
    {
      var p := GetPlayer(ident);
      LookupAt(ps, Entries(ps), ident);
      if p != null { Follow(p); }
    }

    method ClaimKnown(ident: Ident, ghost ps: seq<Player>)
      requires Valid() && ps == Listed()
      modifies `limitedOwner, ps`access
      ensures Valid() && Listed() == ps
      ensures (Entries(ps), IdentOf(limitedOwner)) == Claimed(old(Entries(ps)), IdentOf(old(limitedOwner)), ident)
    {
      ghost var es, owner := Entries(ps), limitedOwner;
      var p := GetPlayer(ident);
      if p != null { Claim(p, ps); }
      ClaimSeen(ps, es, owner, p, Entries(ps), limitedOwner, ident);
    }

    method LogOnKnown(ident: Ident, access: Byte, ghost ps: seq<Player>)
      requires Valid() && ps == Listed()
      modifies `limitedOwner, ps`access
      ensures Valid() && Listed() == ps
      ensures (Entries(ps), IdentOf(limitedOwner))
           == Ranked(old(Entries(ps)), IdentOf(old(limitedOwner)), ident, access)
    {
      ghost var es, owner := Entries(ps), limitedOwner;
      var p := GetPlayer(ident);
      if p != null { LogOn(p, access, ps); }
      RankSeen(ps, es, owner, p, Entries(ps), limitedOwner, ident, access);
    }

    method AttachKnown(ident: Ident, ghost ps: seq<Player>)
      requires Valid() && ps == Listed() && Me != null
      modifies `follow, Me`turret
      ensures Valid() && Listed() == ps
      ensures (Entries(ps), Followed(follow)) == Mounted(old(Entries(ps)), Followed(old(follow)), SelfOf(Me, ps), ident)
    {
      ghost var es, f := Entries(ps), follow;
      var xp := GetPlayer(ident);
      AttachMe(xp, ps);
      MountSeen(ps, es, f, Me, xp, Entries(ps), follow, ident);
    }

    /** Whom the bot follows then is known by ident. */
    method CircleKnown(time: nat, noisy: bool, ghost ps: seq<Player>, ghost f: nat)
      requires Valid() && ps == Listed() && Me != null
      requires if follow == null then f == 0 else f < |ps| && playerlist.nodes[f] == follow
      modifies `follow, `lastSpec, `requests, playerlist.tail, ps`lastPositionUpdate, Me`place
      ensures Valid() && Listed() == ps && Followed(follow) == Circled(old(Entries(ps)), Followed(old(follow)))
    {
      if ps != [] { CircledIs(ps, follow, f); }
      SpectateNext(time, noisy, ps, f);
    }

    method SpectateKnown(time: nat, noisy: bool, ghost ps: seq<Player>, ghost f: nat)
      requires Valid() && ps == Listed() && Me != null
      requires if follow == null then f == 0 else f < |ps| && playerlist.nodes[f] == follow
      modifies `follow, `lastSpec, `requests, playerlist.tail, ps`lastPositionUpdate, Me`place
      ensures Valid() && Listed() == ps && Followed(follow) == Circled(old(Entries(ps)), Followed(old(follow)))
      ensures Entries(ps) == old(Entries(ps))
    {
      CircleKnown(time, noisy, ps, f);
    }

    // ---------- Any sequence of messages ----------

    method HandleTurret(ident: Ident, turretee: Ident, ghost ps: seq<Player>)
      requires Valid() && ps == Listed()
      modifies ps`turret
      ensures Valid() && Listed() == ps && Known(ps) == Handled(old(Known(ps)), Turret(ident, turretee))
    {
      ghost var r := Known(ps);
      TurretKnown(ident, turretee, ps);
      assert Known(ps) == r.(entries := Turreted(r.entries, ident, turretee));
      HandledTurret(r, ident, turretee);
    }

    method HandleNoTurrets(ident: Ident, ghost ps: seq<Player>)
      requires Valid() && ps == Listed()
      modifies ps`turret
      ensures Valid() && Listed() == ps && Known(ps) == Handled(old(Known(ps)), NoTurrets(ident))
    {
      ghost var r := Known(ps);
      NoTurretsKnown(ident, ps);
      assert Known(ps) == r.(entries := Off(r.entries, ident));
      HandledNoTurrets(r, ident);
    }

    method HandleTeam(ident: Ident, ship: Byte, ghost ps: seq<Player>)
      requires Valid() && ps == Listed()
      modifies `follow, ps`ship
      ensures Valid() && Listed() == ps && Known(ps) == Handled(old(Known(ps)), Team(ident, ship))
    {
      ghost var r := Known(ps);
      TeamKnown(ident, ship, ps);
      assert Known(ps) == var (es, f) := Shipped(r.entries, r.follow, ident, ship); r.(entries := es, follow := f);
      HandledTeam(r, ident, ship);
    }

    method HandleMyIdent(ident: Ident, ghost ps: seq<Player>)
      requires Valid() && ps == Listed()
      modifies `me
      ensures Valid() && Listed() == ps && Known(ps) == Handled(old(Known(ps)), MyIdent(ident))
    {
      HandledMyIdent(Known(ps), ident);
      me := ident;
      playerlist.SameNodes();
    }

    method HandleFollow(ident: Ident, ghost ps: seq<Player>)
      requires Valid() && ps == Listed()
      modifies `follow
      ensures Valid() && Listed() == ps && Known(ps) == Handled(old(Known(ps)), FollowPlayer(ident))
    {
      ghost var r := Known(ps);
      FollowKnown(ident, ps);
      assert Entries(ps) == r.entries;
      assert Known(ps) == if In(r.entries, ident) then r.(follow := Some(ident)) else r;
      HandledFollow(r, ident);
    }

    method HandleFollowing(following: bool, ghost ps: seq<Player>)
      requires Valid() && ps == Listed()
      modifies `follow
      ensures Valid() && Listed() == ps && Known(ps) == Handled(old(Known(ps)), FollowFirst(following))
    {
      ghost var r := Known(ps);
      Following(following);
      assert Entries(ps) == r.entries;
      assert Known(ps) == r.(follow := if following && r.entries != [] then Some(r.entries[0].ident) else None);
      HandledFollowing(r, following);
    }

    method HandleClaim(ident: Ident, ghost ps: seq<Player>)
      requires Valid() && ps == Listed()
      modifies `limitedOwner, ps`access
      ensures Valid() && Listed() == ps && Known(ps) == Handled(old(Known(ps)), ClaimBy(ident))
    {
      ghost var r := Known(ps);
      ClaimKnown(ident, ps);
      assert Known(ps) == var (es, owner) := Claimed(r.entries, r.owner, ident); r.(entries := es, owner := owner);
      HandledClaim(r, ident);
    }

    method HandleLogOn(ident: Ident, access: Byte, ghost ps: seq<Player>)
      requires Valid() && ps == Listed()
      modifies `limitedOwner, ps`access
      ensures Valid() && Listed() == ps && Known(ps) == Handled(old(Known(ps)), LoggedOn(ident, access))
    {
      ghost var r := Known(ps);
      LogOnKnown(ident, access, ps);
      assert Known(ps)
          == var (es, owner) := Ranked(r.entries, r.owner, ident, access); r.(entries := es, owner := owner);
      HandledLogOn(r, ident, access);
    }

    method HandleAttach(ident: Ident, ghost ps: seq<Player>)
      requires Valid() && ps == Listed() && Me != null
      modifies `follow, Me`turret
      ensures Valid() && Listed() == ps && Known(ps) == Handled(old(Known(ps)), AttachTo(ident))
    {
      ghost var r := Known(ps);
      AttachKnown(ident, ps);
      assert Known(ps) == var (es, f) := Mounted(r.entries, r.follow, r.self, ident); r.(entries := es, follow := f);
      HandledAttach(r, ident);
    }

    method HandleSpectate(time: nat, noisy: bool, ghost ps: seq<Player>, ghost f: nat)
      requires Valid() && ps == Listed() && Me != null
      requires if follow == null then f == 0 else f < |ps| && playerlist.nodes[f] == follow
      modifies `follow, `lastSpec, `requests, playerlist.tail, ps`lastPositionUpdate, Me`place
      ensures Valid() && Listed() == ps && Known(ps) == Handled(old(Known(ps)), Spectate(time, noisy))
    {
      ghost var r := Known(ps);
      SpectateKnown(time, noisy, ps, f);
      assert Known(ps) == r.(follow := Circled(r.entries, r.follow));
      HandledSpectate(r, time, noisy);
    }

    method HandleLeaving(ident: Ident, ghost ps: seq<Player>)
      requires Valid() && ps == Listed()
      modifies `follow, `limitedOwner, playerlist, playerlist.nodes, qal, ps`turret
      ensures Valid() && Listed() == Rest(ps, Lookup(ps, ident))
      ensures Known(Rest(ps, Lookup(ps, ident))) == Handled(old(Known(ps)), Leaving(ident))
      ensures forall node :: node in playerlist.nodes ==> node in old(playerlist.nodes)
    {
      ghost var r, qs := Known(ps), Rest(ps, Lookup(ps, ident));
      SelfRest(ps, ident, Me);
      LeavingKnown(ident, ps);
      HandledLeaving(r, Known(qs), ident);
    }

    method HandleEntering(ident: Ident, ship: Byte, place: Place, turretee: Ident, ghost ps: seq<Player>)
      returns (p: Player)
      requires Valid() && ps == Listed()
      modifies `follow, `limitedOwner, `Me, playerlist, playerlist.nodes, qal, ps`turret
      ensures Valid() && fresh(p) && Listed() == Rest(ps, Lookup(ps, ident)) + [p] && (Me == old(Me) || Me == p)
      ensures Known(Rest(ps, Lookup(ps, ident)) + [p])
           == Handled(old(Known(ps)), Entering(ident, ship, place, turretee))
      ensures forall node :: node in playerlist.nodes ==> node in old(playerlist.nodes) || fresh(node)
    {
      ghost var r, qs := Known(ps), Rest(ps, Lookup(ps, ident));
      SelfRest(ps, ident, Me);
      p := EnteringKnown(ident, ship, place, turretee, ps);
      HandledEntering(r, Known(qs + [p]), ident, ship, place, turretee);
    }

    method HandleArena(ghost ps: seq<Player>)
      requires Valid() && ps == Listed()
      modifies this, playerlist, qal
      ensures Valid() && Listed() == [] && playerlist.nodes == [] && Me == null
      ensures Known([]) == Handled(old(Known(ps)), ArenaChange)
    {
      HandledArena(Known(ps));
      ResetArena();
    }

    /** A message that changes who is listed. */
    method HandleListed(m: Message)
      requires m.Entering? || m.Leaving? || m.ArenaChange?
      requires Valid()
      modifies this, playerlist, playerlist.nodes, qal, Listed()
      ensures Valid() && State() == Handled(old(State()), m)
      ensures forall node :: node in playerlist.nodes ==> node in old(playerlist.nodes) || fresh(node)
      ensures forall p :: p in Listed() ==> p in old(Listed()) || fresh(p)
      ensures Me != null ==> Me == old(Me) || fresh(Me)
    {
      ghost var ps := Listed();
      match m
      case Entering(ident, ship, place, turretee) =>
        var p := HandleEntering(ident, ship, place, turretee, ps);
        RestFrom(ps, Lookup(ps, ident));
      case Leaving(ident) =>
        HandleLeaving(ident, ps);
        RestFrom(ps, Lookup(ps, ident));
      case ArenaChange => HandleArena(ps);
    }

    /** A message about listed players. */
    method HandleOther(m: Message)
      requires m.Turret? || m.NoTurrets? || m.Team? || m.MyIdent? || m.FollowPlayer? || m.FollowFirst?
      requires Valid()
      modifies this, Listed()
      ensures Valid() && State() == Handled(old(State()), m)
      ensures Listed() == old(Listed()) && playerlist.nodes == old(playerlist.nodes) && Me == old(Me)
    {
      ghost var ps := Listed();
      match m
      case Turret(ident, turretee) => HandleTurret(ident, turretee, ps);
      case NoTurrets(ident) => HandleNoTurrets(ident, ps);
      case Team(ident, ship) => HandleTeam(ident, ship, ps);
      case MyIdent(ident) => HandleMyIdent(ident, ps);
      case FollowPlayer(ident) => HandleFollow(ident, ps);
      case FollowFirst(following) => HandleFollowing(following, ps);
    }

    /** A message about ranks. */
    method HandleRank(m: Message)
      requires m.ClaimBy? || m.LoggedOn?
      requires Valid()
      modifies this, Listed()
      ensures Valid() && State() == Handled(old(State()), m)
      ensures Listed() == old(Listed()) && playerlist.nodes == old(playerlist.nodes) && Me == old(Me)
    {
      ghost var ps := Listed();
      match m
      case ClaimBy(ident) => HandleClaim(ident, ps);
      case LoggedOn(ident, access) => HandleLogOn(ident, access, ps);
    }

    /** The index of the node that is followed. */
    ghost method PlaceOf() returns (f: nat)
      requires Valid()
      ensures if follow == null then f == 0 else f < |playerlist.nodes| && playerlist.nodes[f] == follow
    {
      f := 0;
      if follow != null {
        f :| 0 <= f < |playerlist.nodes| && playerlist.nodes[f] == follow;
      }
    }

    method HandleCircle(time: nat, noisy: bool, ghost ps: seq<Player>)
      requires Valid() && ps == Listed() && Me != null
      modifies `follow, `lastSpec, `requests, playerlist.tail, ps`lastPositionUpdate, Me`place
      ensures Valid() && Listed() == ps && Known(ps) == Handled(old(Known(ps)), Spectate(time, noisy))
    {
      ghost var f := PlaceOf();
      HandleSpectate(time, noisy, ps, f);
    }

    /** What needs the bot's own player. */
    method HandleMe(m: Message, ghost ps: seq<Player>)
      requires m.AttachTo? || m.Spectate?
      requires Valid() && ps == Listed() && Me != null
      modifies `follow, `lastSpec, `requests, playerlist.tail, ps`lastPositionUpdate, Me`turret, Me`place
      ensures Valid() && Listed() == ps && Known(ps) == Handled(old(Known(ps)), m)
    {
      match m
      case AttachTo(ident) => HandleAttach(ident, ps);
      case Spectate(time, noisy) => HandleCircle(time, noisy, ps);
    }

    method Handle(m: Message)
      requires Valid()
      modifies this, playerlist, playerlist.nodes, qal, Listed(), Me
      ensures Valid() && State() == Handled(old(State()), m)
      ensures forall node :: node in playerlist.nodes ==> node in old(playerlist.nodes) || fresh(node)
      ensures forall p :: p in Listed() ==> p in old(Listed()) || fresh(p)
      ensures Me != null ==> Me == old(Me) || fresh(Me)
    {
      if m.Entering? || m.Leaving? || m.ArenaChange? {
        HandleListed(m);
      } else if m.ClaimBy? || m.LoggedOn? {
        HandleRank(m);
      } else if m.AttachTo? || m.Spectate? {
        if Me == null {
          HandledAbsent(State(), m);
          return;
        }
        HandleMe(m, Listed());
      } else {
        HandleOther(m);
      }
    }

    /** Whatever messages arrive, in whatever order: idents stay unique, the table agrees with the list scan, and
        every pointer is null or at a listed player. */
    method HandleAll(ms: seq<Message>)
      requires Valid()
      modifies this, playerlist, playerlist.nodes, qal, Listed(), Me
      ensures Valid() && State() == HandledAll(old(State()), ms)
      ensures forall node :: node in playerlist.nodes ==> node in old(playerlist.nodes) || fresh(node)
      ensures forall p :: p in Listed() ==> p in old(Listed()) || fresh(p)
      ensures Me != null ==> Me == old(Me) || fresh(Me)
      decreases |ms|
    {
      if ms != [] {
        ghost var nodes, ps := playerlist.nodes, Listed();
        HandleAll(ms[..|ms| - 1]);
        assert forall i :: 0 <= i < |playerlist.nodes| ==> playerlist.nodes[i] in nodes || fresh(playerlist.nodes[i]);
        assert forall i :: 0 <= i < |Listed()| ==> Listed()[i] in ps || fresh(Listed()[i]);
        Handle(ms[|ms| - 1]);
      }
    }

    // ---------- Going round the players ----------

    /** i steps on from place f on the list made cyclic. */
    lemma AroundRing(ps: seq<Player>, f: nat, i: nat)
      requires playerlist.Cyclic() && ps == Listed() && f < |ps| && i <= |ps|
      ensures |playerlist.nodes| == |ps|
      ensures var nodes, k := playerlist.nodes, Around(f, i, |ps|);
              && nodes[k].item == ps[k] && (0 < i ==> (nodes[k] == nodes[f] <==> i == |ps|))
              && (i < |ps| ==> nodes[k].next == nodes[Around(f, i + 1, |ps|)])
    {
    }

    /** The walk from the followed node to the next flying player, or back to it. */
    method FindFlying(ghost ps: seq<Player>, ghost f: nat) returns (node: Node<Player>)
      requires playerlist.Cyclic() && ps == Listed() && f < |ps| && follow == playerlist.nodes[f]
      ensures node == playerlist.nodes[Next(Flying(ps), f)]
    {
      ghost var flying, n, i := Flying(ps), |ps|, 1;
      AroundRing(ps, f, 0);
      node := follow;
      var parse := node.next;
      AroundRing(ps, f, 1);
      while parse != follow
        invariant 1 <= i <= n && parse == playerlist.nodes[Around(f, i, n)] && node == follow
        invariant Distance(flying, f, i) == Distance(flying, f, 1) && (parse == follow <==> i == n)
        decreases n - i
      {
        AroundRing(ps, f, i);
        if parse.item.ship != SPECTATOR {
          node := parse;
          break;
        }
        parse := parse.next;
        i := i + 1;
        AroundRing(ps, f, i);
      }
    }

    /** Moves follow on from the node at index f, on the list made cyclic. */
    method NextFlying(ghost ps: seq<Player>, ghost f: nat)
      requires playerlist.Cyclic() && ps == Listed() && f < |ps| && follow == playerlist.nodes[f]
      modifies `follow
      ensures playerlist.Cyclic() && Listed() == ps && Flying(ps) == old(Flying(ps))
      ensures follow == playerlist.nodes[Next(Flying(ps), f)]
    {
      follow := FindFlying(ps, f);
      playerlist.SameRing();
    }

    /** What the requests for positions depend on, and those so far. */
    ghost function Watched(ps: seq<Player>): (w: Watch)
      reads `lastSpec, `requests, ps
      ensures |w.heard| == |ps|
    {
      Watch(lastSpec, Heard(ps), requests)
    }

    /** Marks a player as heard of. */
    method Hear(pp: Player, time: nat, ghost ps: seq<Player>, ghost g: nat)
      requires g < |ps| && ps[g] == pp && UniqueIdents(ps)
      modifies pp`lastPositionUpdate
      ensures Flying(ps) == old(Flying(ps)) && Turrets(ps) == old(Turrets(ps)) && Places(ps) == old(Places(ps))
      ensures Heard(ps) == old(Heard(ps))[g := time]
    {
      ghost var heard := Heard(ps);
      pp.lastPositionUpdate := time;
      HeardNow(ps, heard, g, time);
    }

    /** Requests a position from a player. */
    method Ask(pp: Player, time: nat, ghost ps: seq<Player>, ghost g: nat)
      requires g < |ps| && ps[g] == pp && UniqueIdents(ps)
      modifies `lastSpec, `requests, pp`lastPositionUpdate
      ensures Flying(ps) == old(Flying(ps)) && Turrets(ps) == old(Turrets(ps)) && Places(ps) == old(Places(ps))
      ensures Watched(ps) == Watch(time, old(Heard(ps))[g := time], old(requests) + [Request(pp.ident, time)])
    {
      Hear(pp, time, ps, g);
      requests := requests + [Request(pp.ident, time)];
      lastSpec := time;
    }

    /** Requests a position from a followed player who has not been heard of for a while. */
    method RequestPosition(pp: Player, time: nat, noisySpectator: bool, ghost ps: seq<Player>, ghost g: nat)
      requires g < |ps| && ps[g] == pp && UniqueIdents(ps)
      modifies `lastSpec, `requests, pp`lastPositionUpdate
      ensures Flying(ps) == old(Flying(ps)) && Turrets(ps) == old(Turrets(ps)) && Places(ps) == old(Places(ps))
      ensures Watched(ps) == LookAt(old(Watched(ps)), g, pp.ident, noisySpectator && pp.ship != SPECTATOR, time)
    {
      if pp.ship != SPECTATOR && noisySpectator {
        if Elapsed(pp.lastPositionUpdate, time) > 100 {
          if Elapsed(lastSpec, time) > 20 {
            Ask(pp, time, ps, g);
          }
        }
      }
    }

    method CloseRing(ghost ps: seq<Player>)
      requires playerlist.Valid() && playerlist.nodes != []
      modifies playerlist.tail
      ensures playerlist.Cyclic() && Listed() == old(Listed())
      ensures Flying(ps) == old(Flying(ps)) && Watched(ps) == old(Watched(ps)) && Turrets(ps) == old(Turrets(ps))
      ensures Places(ps) == old(Places(ps)) && (Me != null ==> Me.place == old(Me.place))
    {
      playerlist.BeginCyclic();
    }

    method OpenRing(ghost ps: seq<Player>)
      requires playerlist.Cyclic()
      modifies playerlist.tail
      ensures playerlist.Valid() && Listed() == old(Listed())
      ensures Flying(ps) == old(Flying(ps)) && Watched(ps) == old(Watched(ps)) && Turrets(ps) == old(Turrets(ps))
      ensures Places(ps) == old(Places(ps)) && (Me != null ==> Me.place == old(Me.place))
      ensures qal[..] == old(qal[..])
    {
      playerlist.EndCyclic();
    }

    /** The bot goes where a player is. */
    method MoveTo(pp: Player, ghost ps: seq<Player>)
      requires Me != null
      modifies Me`place
      ensures Me.place == old(pp.place).(d := 0)
      ensures Flying(ps) == old(Flying(ps)) && Turrets(ps) == old(Turrets(ps)) && Watched(ps) == old(Watched(ps))
    {
      Me.place := pp.place.(d := 0);
    }

    /** Requests a position and puts the bot where the followed player is. */
    method LookAtPlayer(pp: Player, time: nat, noisySpectator: bool, ghost ps: seq<Player>, ghost g: nat)
      requires Me != null && g < |ps| && ps[g] == pp && UniqueIdents(ps)
      modifies `lastSpec, `requests, pp`lastPositionUpdate, Me`place
      ensures Me.place == old(pp.place).(d := 0) && Flying(ps) == old(Flying(ps)) && Turrets(ps) == old(Turrets(ps))
      ensures Watched(ps) == LookAt(old(Watched(ps)), g, pp.ident, noisySpectator && pp.ship != SPECTATOR, time)
    {
      RequestPosition(pp, time, noisySpectator, ps, g);
      MoveTo(pp, ps);
    }

    method LookInRing(pp: Player, time: nat, noisySpectator: bool, ghost ps: seq<Player>, ghost g: nat)
      requires playerlist.Cyclic() && ps == Listed() && UniqueIdents(ps) && Me != null && g < |ps| && ps[g] == pp
      modifies `lastSpec, `requests, pp`lastPositionUpdate, Me`place
      ensures playerlist.Cyclic() && Listed() == ps
      ensures Me.place == old(pp.place).(d := 0) && Flying(ps) == old(Flying(ps)) && Turrets(ps) == old(Turrets(ps))
      ensures Watched(ps) == LookAt(old(Watched(ps)), g, pp.ident, noisySpectator && pp.ship != SPECTATOR, time)
    {
      LookAtPlayer(pp, time, noisySpectator, ps, g);
      playerlist.SameRing();
    }

    /** What spectateNext does on the list made cyclic. */
    method LookRound(time: nat, noisySpectator: bool, ghost ps: seq<Player>, ghost f: nat)
      requires playerlist.Cyclic() && ps == Listed() && f < |ps| && follow == playerlist.nodes[f] && Me != null
      requires UniqueIdents(ps)
      modifies `follow, `lastSpec, `requests, ps`lastPositionUpdate, Me`place
      ensures playerlist.Cyclic() && Listed() == ps
      ensures Flying(ps) == old(Flying(ps)) && Turrets(ps) == old(Turrets(ps))
      ensures var g := Next(Flying(ps), f);
              && follow == playerlist.nodes[g] && Me.place == old(Places(ps))[g].(d := 0)
              && Watched(ps) == LookAt(old(Watched(ps)), g, Idents(ps)[g], noisySpectator && Flying(ps)[g], time)
    {
      ghost var g := Next(Flying(ps), f);
      NextFlying(ps, f);
      var pp := follow.item;
      assert pp == ps[g];
      LookInRing(pp, time, noisySpectator, ps, g);
    }

    /** The list is made cyclic, searched, and restored. */
    method SpectateFrom(time: nat, noisySpectator: bool, ghost ps: seq<Player>, ghost f: nat)
      requires playerlist.Valid() && ps == Listed() && f < |ps| && follow == playerlist.nodes[f] && Me != null
      requires UniqueIdents(ps)
      modifies `follow, `lastSpec, `requests, playerlist.tail, ps`lastPositionUpdate, Me`place
      ensures playerlist.Valid() && Listed() == ps && qal[..] == old(qal[..])
      ensures Flying(ps) == old(Flying(ps)) && Turrets(ps) == old(Turrets(ps))
      ensures var g := Next(Flying(ps), f);
              && follow == playerlist.nodes[g] && Me.place == old(Places(ps))[g].(d := 0)
              && Watched(ps) == LookAt(old(Watched(ps)), g, Idents(ps)[g], noisySpectator && Flying(ps)[g], time)
    {
      CloseRing(ps);
      LookRound(time, noisySpectator, ps, f);
      assert qal[..] == old(qal[..]);
      OpenRing(ps);
    }

    /** Nothing but the records, the followed node and the bot's place has changed. */
    method SpectateOn(time: nat, noisySpectator: bool, ghost ps: seq<Player>, ghost f: nat)
      requires Valid() && ps == Listed() && f < |ps| && follow == playerlist.nodes[f] && Me != null
      modifies `follow, `lastSpec, `requests, playerlist.tail, ps`lastPositionUpdate, Me`place
      ensures Valid() && Listed() == ps && Flying(ps) == old(Flying(ps))
      ensures var g := Next(Flying(ps), f);
              && follow == playerlist.nodes[g] && Me.place == old(Places(ps))[g].(d := 0)
              && Watched(ps) == LookAt(old(Watched(ps)), g, Idents(ps)[g], noisySpectator && Flying(ps)[g], time)
    {
      ghost var ts := Turrets(ps);
      SpectateFrom(time, noisySpectator, ps, f);
      RefsSame(ps, ts);
    }

    method SpectateNext(time: nat, noisySpectator: bool, ghost ps: seq<Player>, ghost f: nat)
      requires Valid() && ps == Listed() && Me != null
      requires if follow == null then f == 0 else f < |ps| && playerlist.nodes[f] == follow
      modifies `follow, `lastSpec, `requests, playerlist.tail, ps`lastPositionUpdate, Me`place
      ensures Valid() && Listed() == ps && Flying(ps) == old(Flying(ps))
      ensures ps == [] ==> follow == null && Me.place == old(Me.place) && Watched(ps) == old(Watched(ps))
      ensures ps != [] ==> var g := Next(Flying(ps), f);
                && follow == playerlist.nodes[g] && Me.place == old(Places(ps))[g].(d := 0)
                && Watched(ps) == LookAt(old(Watched(ps)), g, Idents(ps)[g], noisySpectator && Flying(ps)[g], time)
    {
      if follow == null {
        Following(true);
        if follow == null { return; }
        assert Places(ps) == old(Places(ps)) && Watched(ps) == old(Watched(ps)) && Flying(ps) == old(Flying(ps));
      }
      SpectateOn(time, noisySpectator, ps, f);
    }

    /** Calls in a row, one at each time, over a list that does not change. */
    method SpectateRepeatedly(times: seq<nat>, noisySpectator: bool, ghost ps: seq<Player>, ghost f: nat)
      requires Valid() && ps == Listed() && Me != null && f < |ps| && follow == playerlist.nodes[f]
      modifies `follow, `lastSpec, `requests, playerlist.tail, ps`lastPositionUpdate, Me`place
      ensures Valid() && Listed() == ps && Flying(ps) == old(Flying(ps))
      ensures follow == playerlist.nodes[Orbit(Flying(ps), f, |times|)]
      ensures Watched(ps) == Looks(old(Watched(ps)), Flying(ps), Idents(ps), f, noisySpectator, times)
      decreases |times|
    {
      if times != [] {
        var n := |times| - 1;
        SpectateRepeatedly(times[..n], noisySpectator, ps, f);
        SpectateNext(times[n], noisySpectator, ps, Orbit(Flying(ps), f, n));
      }
    }
  }

  /** The player at place g has just been heard of, as far as the records say. */
  lemma HeardNow(ps: seq<Player>, heard: seq<nat>, g: nat, time: nat)
    requires |heard| == |ps| && g < |ps|
    requires forall i :: 0 <= i < |ps| ==> ps[i].lastPositionUpdate == if i == g then time else heard[i]
    ensures Heard(ps) == heard[g := time]
  {
  }

  ghost function Places(ps: seq<Player>): (places: seq<Place>)
    reads ps
    ensures |places| == |ps| && forall i :: 0 <= i < |ps| ==> places[i] == ps[i].place
  {
    seq(|ps|, i requires 0 <= i < |ps| reads ps => ps[i].place)
  }

  ghost function Heard(ps: seq<Player>): (heard: seq<nat>)
    reads ps
    ensures |heard| == |ps| && forall i :: 0 <= i < |ps| ==> heard[i] == ps[i].lastPositionUpdate
  {
    seq(|ps|, i requires 0 <= i < |ps| reads ps => ps[i].lastPositionUpdate)
  }

  ghost function Idents(ps: seq<Player>): (ids: seq<nat>)
    ensures |ids| == |ps| && forall i :: 0 <= i < |ps| ==> ids[i] == ps[i].ident
  {
    seq(|ps|, i requires 0 <= i < |ps| => ps[i].ident)
  }

  ghost function Flying(ps: seq<Player>): (flying: seq<bool>)
    reads ps
    ensures |flying| == |ps| && forall i :: 0 <= i < |ps| ==> flying[i] == (ps[i].ship != SPECTATOR)
  {
    seq(|ps|, i requires 0 <= i < |ps| reads ps => ps[i].ship != SPECTATOR)
  }
}
