/** What the bot knows of an arena, by ident and in plain numbers: the reference for the lists, tables and pointers of
    mervbot/host.cpp and mervbot/clientprot.cpp that Players.dfy models. */
module Rosters {
  import opened Bytes
  import opened Circle

  /** Idents are 16 bits long. */
  type Ident = n: nat | n < 0x1_0000

  /** What clone copies: tile, position, work and velocity vectors, and direction. */
  datatype Place = Place(tile: (int, int), pos: (int, int), work: (int, int), vel: (int, int), d: Byte)

  /** What the server tells about players, and what the bot is asked to do about them. */
  datatype Message =
    | Entering(ident: Ident, ship: Byte, place: Place, turretee: Ident)
    | Leaving(ident: Ident)
    | Turret(ident: Ident, turretee: Ident)
    | NoTurrets(ident: Ident)
    | Team(ident: Ident, ship: Byte)
    | MyIdent(ident: Ident)
    | ArenaChange
    | FollowPlayer(ident: Ident)
    | FollowFirst(following: bool)
    | ClaimBy(ident: Ident)
    | LoggedOn(ident: Ident, access: Byte)
    | AttachTo(ident: Ident)
    | Spectate(time: nat, noisy: bool)

  /** A listed player; `on` is whom it is attached to. */
  datatype Entry = Entry(ident: Ident, ship: Byte, access: Byte, on: Option<Ident>)

  /** The bot's own player: none yet, one that has left, or a listed one. */
  datatype Self = Absent | Gone | Here(ident: Ident)

  datatype Roster = Roster(
    entries: seq<Entry>, follow: Option<Ident>, owner: Option<Ident>, me: Ident, self: Self)

  /** The place of an ident in the list; the length of the list if it is not there. */
  function At(es: seq<Entry>, id: Ident): (k: nat)
    ensures k <= |es| && (k < |es| ==> es[k].ident == id) && forall i :: 0 <= i < k ==> es[i].ident != id
  {
    if es == [] || es[0].ident == id then 0 else 1 + At(es[1..], id)
  }

  predicate In(es: seq<Entry>, id: Ident) {
    At(es, id) < |es|
  }

  /** The same list, with one entry changed if its ident is listed. */
  function SetOn(es: seq<Entry>, id: Ident, on: Option<Ident>): (r: seq<Entry>)
    ensures |r| == |es|
  {
    var k := At(es, id);
    if k < |es| then es[k := es[k].(on := on)] else es
  }

  /** Nobody is attached to this ident any more. */
  function Off(es: seq<Entry>, id: Ident): (r: seq<Entry>)
    ensures |r| == |es|
  {
    seq(|es|, i requires 0 <= i < |es| => if es[i].on == Some(id) then es[i].(on := None) else es[i])
  }

  function Unless(o: Option<Ident>, id: Ident): Option<Ident> {
    if o == Some(id) then None else o
  }

  /** The list without a player, and nobody attached to it. */
  function Cut(es: seq<Entry>, id: Ident): seq<Entry> {
    var k, off := At(es, id), Off(es, id);
    if k == |es| then off else off[..k] + off[k + 1..]
  }

  function Departed(self: Self, id: Ident): Self {
    if self == Here(id) then Gone else self
  }

  /** A player is gone, and every pointer to it. */
  function Removed(r: Roster, id: Ident): Roster {
    r.(entries := Cut(r.entries, id), follow := Unless(r.follow, id), owner := Unless(r.owner, id),
       self := Departed(r.self, id))
  }

  /** A new player, attached to whoever has the ident turretee, perhaps to itself. */
  function Joining(es: seq<Entry>, id: Ident, ship: Byte, turretee: Ident): Entry {
    Entry(id, ship, 0, if turretee == id || In(es, turretee) then Some(turretee) else None)
  }

  function Entered(r: Roster, id: Ident, ship: Byte, turretee: Ident): Roster {
    var q := Removed(r, id);
    q.(entries := q.entries + [Joining(q.entries, id, ship, turretee)],
       self := if id == r.me then Here(id) else q.self)
  }

  function Turreted(es: seq<Entry>, id: Ident, turretee: Ident): seq<Entry> {
    if turretee == 0xFFFF then SetOn(es, id, None)
    else if In(es, turretee) then SetOn(es, id, Some(turretee))
    else es
  }

  /** Whom a change of ship makes the bot follow no longer. */
  function Shipped(es: seq<Entry>, follow: Option<Ident>, id: Ident, ship: Byte): (seq<Entry>, Option<Ident>) {
    var k := At(es, id);
    if k == |es| then (es, follow)
    else (if ship < 128 then es[k := es[k].(ship := ship)] else es,
          if ship == 8 && es[k].ship != 8 then Unless(follow, id) else follow)
  }

  function Claimed(es: seq<Entry>, owner: Option<Ident>, id: Ident): (seq<Entry>, Option<Ident>) {
    var k := At(es, id);
    if k < |es| && es[k].access == 0 && owner == None then (es[k := es[k].(access := 1)], Some(id)) else (es, owner)
  }

  function Ranked(es: seq<Entry>, owner: Option<Ident>, id: Ident, access: Byte): (seq<Entry>, Option<Ident>) {
    var k := At(es, id);
    if k < |es| then (es[k := es[k].(access := access)], Unless(owner, id)) else (es, owner)
  }

  /** The bot attaches to a listed player and follows it, or detaches. */
  function Mounted(es: seq<Entry>, follow: Option<Ident>, self: Self, id: Ident): (seq<Entry>, Option<Ident>) {
    var on := if In(es, id) then Some(id) else None;
    if self == Absent then (es, follow)
    else (if self.Here? then SetOn(es, self.ident, on) else es, if on == None then follow else on)
  }

  function Flights(es: seq<Entry>): (flying: seq<bool>)
    ensures |flying| == |es|
  {
    seq(|es|, i requires 0 <= i < |es| => es[i].ship != 8)
  }

  /** The place in the list that is followed; the first one if none is. */
  function FollowedAt(es: seq<Entry>, follow: Option<Ident>): (f: nat)
    ensures es != [] ==> f < |es|
  {
    if follow.Some? && In(es, follow.value) then At(es, follow.value) else 0
  }

  /** The bot follows the next flying player. */
  function Circled(es: seq<Entry>, follow: Option<Ident>): Option<Ident> {
    if es == [] then follow else Some(es[Next(Flights(es), FollowedAt(es, follow))].ident)
  }

  function Handled(r: Roster, m: Message): Roster {
    match m
    case Entering(id, ship, place, turretee) => Entered(r, id, ship, turretee)
    case Leaving(id) => Removed(r, id)
    case Turret(id, turretee) => r.(entries := Turreted(r.entries, id, turretee))
    case NoTurrets(id) => r.(entries := Off(r.entries, id))
    case Team(id, ship) =>
      var (es, follow) := Shipped(r.entries, r.follow, id, ship); r.(entries := es, follow := follow)
    case MyIdent(id) => r.(me := id)
    case ArenaChange => Roster([], None, None, 0xFFFF, Absent)
    case FollowPlayer(id) => if In(r.entries, id) then r.(follow := Some(id)) else r
    case FollowFirst(following) =>
      r.(follow := if following && r.entries != [] then Some(r.entries[0].ident) else None)
    case ClaimBy(id) =>
      var (es, owner) := Claimed(r.entries, r.owner, id); r.(entries := es, owner := owner)
    case LoggedOn(id, access) =>
      var (es, owner) := Ranked(r.entries, r.owner, id, access); r.(entries := es, owner := owner)
    case AttachTo(id) =>
      var (es, follow) := Mounted(r.entries, r.follow, r.self, id); r.(entries := es, follow := follow)
    case Spectate(time, noisy) => if r.self == Absent then r else r.(follow := Circled(r.entries, r.follow))
  }

  lemma HandledSpectate(r: Roster, time: nat, noisy: bool)
    requires r.self != Absent
    ensures Handled(r, Spectate(time, noisy)) == r.(follow := Circled(r.entries, r.follow))
  {
  }

  /** Without a player of its own the bot does nothing that needs one. */
  lemma HandledAbsent(r: Roster, m: Message)
    requires r.self == Absent && (m.AttachTo? || m.Spectate?)
    ensures Handled(r, m) == r
  {
  }

  lemma HandledTurret(r: Roster, id: Ident, turretee: Ident)
    ensures Handled(r, Turret(id, turretee)) == r.(entries := Turreted(r.entries, id, turretee))
  {
  }

  lemma HandledTeam(r: Roster, id: Ident, ship: Byte)
    ensures Handled(r, Team(id, ship))
         == var (es, f) := Shipped(r.entries, r.follow, id, ship); r.(entries := es, follow := f)
  {
  }

  lemma HandledFollow(r: Roster, id: Ident)
    ensures Handled(r, FollowPlayer(id)) == if In(r.entries, id) then r.(follow := Some(id)) else r
  {
  }

  lemma HandledFollowing(r: Roster, following: bool)
    ensures Handled(r, FollowFirst(following))
         == r.(follow := if following && r.entries != [] then Some(r.entries[0].ident) else None)
  {
  }

  lemma HandledArena(r: Roster)
    ensures Handled(r, ArenaChange) == Roster([], None, None, 0xFFFF, Absent)
  {
  }

  lemma HandledMyIdent(r: Roster, id: Ident)
    ensures Handled(r, MyIdent(id)) == r.(me := id)
  {
  }

  lemma HandledClaim(r: Roster, id: Ident)
    ensures Handled(r, ClaimBy(id))
         == var (es, owner) := Claimed(r.entries, r.owner, id); r.(entries := es, owner := owner)
  {
  }

  lemma HandledLogOn(r: Roster, id: Ident, access: Byte)
    ensures Handled(r, LoggedOn(id, access))
         == var (es, owner) := Ranked(r.entries, r.owner, id, access); r.(entries := es, owner := owner)
  {
  }

  lemma HandledAttach(r: Roster, id: Ident)
    ensures Handled(r, AttachTo(id))
         == var (es, f) := Mounted(r.entries, r.follow, r.self, id); r.(entries := es, follow := f)
  {
  }

  lemma HandledNoTurrets(r: Roster, id: Ident)
    ensures Handled(r, NoTurrets(id)) == r.(entries := Off(r.entries, id))
  {
  }

  lemma HandledLeaving(r: Roster, q: Roster, id: Ident)
    requires q.entries == Cut(r.entries, id) && q.follow == Unless(r.follow, id) && q.owner == Unless(r.owner, id)
    requires q.me == r.me && q.self == Departed(r.self, id)
    ensures Handled(r, Leaving(id)) == q
  {
  }

  lemma HandledEntering(r: Roster, q: Roster, id: Ident, ship: Byte, place: Place, turretee: Ident)
    requires q.entries == Cut(r.entries, id) + [Joining(Cut(r.entries, id), id, ship, turretee)]
    requires q.follow == Unless(r.follow, id) && q.owner == Unless(r.owner, id) && q.me == r.me
    requires q.self == if id == r.me then Here(id) else Departed(r.self, id)
    ensures Handled(r, Entering(id, ship, place, turretee)) == q
  {
  }

  function HandledAll(r: Roster, ms: seq<Message>): Roster {
    if ms == [] then r else Handled(HandledAll(r, ms[..|ms| - 1]), ms[|ms| - 1])
  }
}
