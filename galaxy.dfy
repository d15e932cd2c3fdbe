/**
 * The client-side mirror of a galaxy (Flattiverse.Connector/Hierarchy/Galaxy.cs): fixed
 * tables of clusters, ships and teams, a dictionary of players, the galaxy's id and
 * configuration, and the pending login signal, all kept up to date by the packets the
 * connection delivers.
 */
module Galaxies {
  import opened Wrappers

  /** The header fields the galaxy reads from a packet. */
  datatype Header = Header(command: uint8, session: uint8, id0: uint8, id1: uint8, param: uint16, param0: uint8)

  /** A packet: its header and the payload the object constructors read. */
  datatype Packet = Packet(header: Header, payload: seq<bv8>)

  /**
   * The objects the galaxy keeps. Their constructors and readers are not part of this model:
   * each keeps the payload it was built from, a cluster the region payloads it was given by
   * id, a ship its upgrade payloads by id.
   */
  datatype Cluster = Cluster(id: uint8, data: seq<bv8>, regions: map<uint8, seq<bv8>>)
  datatype Ship = Ship(id: uint8, data: seq<bv8>, upgrades: map<uint8, seq<bv8>>)
  datatype TeamEntry = TeamEntry(id: uint8, data: seq<bv8>)
  datatype Player = Player(id: uint8, kind: uint8, team: uint8, data: seq<bv8>)

  /**
   * The exceptions the galaxy code raises: an index past the team table, a call on a
   * cluster that is not there, and a creation reply whose object has not arrived.
   */
  datatype Fault = IndexOutOfRange | NullReference | NotReceivedYet

  const CLUSTER_SLOTS := 256
  const SHIP_SLOTS := 256
  const TEAM_SLOTS := 33

  /** Everything a galaxy holds. `loginSignals` counts the login signals completed so far. */
  datatype GalaxyView = GalaxyView(
    id: uint16, config: Option<seq<bv8>>,
    clusters: seq<Option<Cluster>>, ships: seq<Option<Ship>>, teams: seq<Option<TeamEntry>>,
    players: map<uint8, Player>,
    loginPending: bool, loginSignals: nat,
    answers: seq<Packet>)

  /** The tables have the sizes the source allocates (Galaxy.cs:13-19). */
  ghost predicate Sized(v: GalaxyView)
  {
    |v.clusters| == CLUSTER_SLOTS && |v.ships| == SHIP_SLOTS && |v.teams| == TEAM_SLOTS
  }

  /**
   * `PacketRecevied(packet)` (Galaxy.cs:167-261) on the galaxy's state: a packet of a
   * session goes to the session handler; otherwise the command decides which table changes.
   * A failure is an exception thrown out of the handler before anything changed.
   */
  function Dispatch(v: GalaxyView, p: Packet): (r: Result<GalaxyView, Fault>)
    requires Sized(v)
    ensures r.Success? ==> Sized(r.value)
  {
    var h := p.header;
    if h.session != 0 then Success(v.(answers := v.answers + [p]))
    else if h.command == 0x10 then
      Success(v.(id := h.param, config := Some(p.payload)))
    else if h.command == 0x11 then
      Success(v.(clusters := v.clusters[h.id0 := Some(Cluster(h.id0, p.payload, map[]))]))
    else if h.command == 0x12 then
      match v.clusters[h.id1]
      case None => Success(v)
      case Some(c) => Success(v.(clusters := v.clusters[h.id1 := Some(c.(regions := c.regions[h.id0 := p.payload]))]))
    else if h.command == 0x13 then
      if h.id0 >= TEAM_SLOTS then Failure(IndexOutOfRange)
      else Success(v.(teams := v.teams[h.id0 := Some(TeamEntry(h.id0, p.payload))]))
    else if h.command == 0x14 then
      Success(v.(ships := v.ships[h.id0 := Some(Ship(h.id0, p.payload, map[]))]))
    else if h.command == 0x15 then
      match v.ships[h.id1]
      case None => Success(v)
      case Some(s) => Success(v.(ships := v.ships[h.id1 := Some(s.(upgrades := s.upgrades[h.id0 := p.payload]))]))
    else if h.command == 0x16 then
      if h.id1 >= TEAM_SLOTS then Failure(IndexOutOfRange)
      else if v.teams[h.id1].None? then Success(v)
      else Success(v.(players := v.players[h.id0 := Player(h.id0, h.id0, h.id1, p.payload)]))
    else if h.command == 0x1C || h.command == 0x1D || h.command == 0x1E then
      if v.clusters[h.id0].None? then Failure(NullReference) else Success(v)
    else if h.command == 0x20 then
      if v.loginPending then Success(v.(loginPending := false, loginSignals := v.loginSignals + 1)) else Success(v)
    else Success(v)
  }

  /** The state after a packet: the new one, or the old one when the handler threw. */
  function After(v: GalaxyView, r: Result<GalaxyView, Fault>): GalaxyView
  {
    if r.Success? then r.value else v
  }

  /** What the connection sees of a packet's handling: nothing, or the exception. */
  function Thrown(r: Result<GalaxyView, Fault>): Outcome<Fault>
  {
    if r.Success? then Pass else Fail(r.error)
  }

  /** A packet of a session is handed to the session handler and changes nothing else. */
  lemma SessionPacketsOnlyAnswer(v: GalaxyView, p: Packet)
    requires Sized(v) && p.header.session != 0
    ensures Dispatch(v, p) == Success(v.(answers := v.answers + [p]))
  {
  }

  /**
   * Cluster, team and ship announcements (0x11, 0x13, 0x14) replace slot `Id0` of their
   * table with a new object and change nothing else; a team id past the table throws.
   */
  lemma AnnouncementsTouchOneSlot(v: GalaxyView, p: Packet)
    requires Sized(v) && p.header.session == 0
    ensures var h := p.header; var r := Dispatch(v, p);
            && (h.command == 0x11 ==> r == Success(v.(clusters := v.clusters[h.id0 := Some(Cluster(h.id0, p.payload, map[]))])))
            && (h.command == 0x14 ==> r == Success(v.(ships := v.ships[h.id0 := Some(Ship(h.id0, p.payload, map[]))])))
            && (h.command == 0x13 && h.id0 < TEAM_SLOTS ==> r == Success(v.(teams := v.teams[h.id0 := Some(TeamEntry(h.id0, p.payload))])))
            && (h.command in {0x11, 0x13, 0x14} && r.Success? ==> forall i :: 0 <= i < CLUSTER_SLOTS && i != h.id0 ==> r.value.clusters[i] == v.clusters[i] && r.value.ships[i] == v.ships[i])
            && (h.command in {0x11, 0x13, 0x14} && r.Success? ==> forall i :: 0 <= i < TEAM_SLOTS && i != h.id0 ==> r.value.teams[i] == v.teams[i])
  {
  }

  /**
   * The team table has 33 slots but is indexed by a byte: handling throws exactly for a team
   * announcement with `Id0` past it, a player announcement with `Id1` past it, or a unit
   * packet (0x1C to 0x1E) for a cluster that is not there.
   */
  lemma FailsExactly(v: GalaxyView, p: Packet)
    requires Sized(v)
    ensures var h := p.header;
            Dispatch(v, p).Failure? <==>
              && h.session == 0
              && (|| (h.command == 0x13 && h.id0 >= TEAM_SLOTS)
                  || (h.command == 0x16 && h.id1 >= TEAM_SLOTS)
                  || (h.command in {0x1C, 0x1D, 0x1E} && v.clusters[h.id0].None?))
  {
  }

  /** Region, upgrade and player packets (0x12, 0x15, 0x16) change nothing when their parent is absent. */
  lemma ParentRequired(v: GalaxyView, p: Packet)
    requires Sized(v) && p.header.session == 0
    ensures var h := p.header;
            && (h.command == 0x12 && v.clusters[h.id1].None? ==> Dispatch(v, p) == Success(v))
            && (h.command == 0x15 && v.ships[h.id1].None? ==> Dispatch(v, p) == Success(v))
            && (h.command == 0x16 && h.id1 < TEAM_SLOTS && v.teams[h.id1].None? ==> Dispatch(v, p) == Success(v))
  {
  }

  /** Commands the switch does not list (0x50 among them) change nothing. */
  lemma UnknownCommandsIgnored(v: GalaxyView, p: Packet)
    requires Sized(v) && p.header.session == 0
    requires p.header.command !in {0x10, 0x11, 0x12, 0x13, 0x14, 0x15, 0x16, 0x1C, 0x1D, 0x1E, 0x20}
    ensures Dispatch(v, p) == Success(v)
  {
  }

  /** The things that happen to a galaxy: a packet arrives, or a caller awaits the login. */
  datatype Event = Arrive(packet: Packet) | AwaitLogin

  /** The state after one event. */
  function Step(v: GalaxyView, e: Event): (r: GalaxyView)
    requires Sized(v)
    ensures Sized(r)
  {
    match e
    case Arrive(p) => After(v, Dispatch(v, p))
    case AwaitLogin => v.(loginPending := true)
  }

  /** The state after the events `es` in turn. */
  function Run(v: GalaxyView, es: seq<Event>): (r: GalaxyView)
    requires Sized(v)
    ensures Sized(r)
    decreases |es|
  {
    if es == [] then v else Run(Step(v, es[0]), es[1..])
  }

  /** How many times `es` awaits the login. */
  function Waits(es: seq<Event>): nat
    decreases |es|
  {
    if es == [] then 0 else (if es[0].AwaitLogin? then 1 else 0) + Waits(es[1..])
  }

  function Pending(v: GalaxyView): nat
  {
    if v.loginPending then 1 else 0
  }

  /**
   * A login signal is completed at most once per wait: over any events, the signals
   * completed plus the one still pending never exceed the waits plus the one pending before.
   */
  lemma {:induction false} SignalsFollowWaits(v: GalaxyView, es: seq<Event>)
    requires Sized(v)
    ensures Run(v, es).loginSignals + Pending(Run(v, es)) <= v.loginSignals + Pending(v) + Waits(es)
    decreases |es|
  {
    if es != [] {
      SignalsFollowWaits(Step(v, es[0]), es[1..]);
    }
  }

  /** A second 0x20 after the first completes nothing more. */
  lemma TickSignalsOnce(v: GalaxyView, p: Packet)
    requires Sized(v) && p.header.session == 0 && p.header.command == 0x20
    ensures var once := Step(v, Arrive(p));
            && !once.loginPending && once.loginSignals == v.loginSignals + Pending(v)
            && Step(once, Arrive(p)) == once
  {
  }

  class Galaxy {
    var id: uint16
    var config: Option<seq<bv8>>
    const clusters: array<Option<Cluster>>
    const ships: array<Option<Ship>>
    const teams: array<Option<TeamEntry>>
    var players: map<uint8, Player>
    var loginPending: bool
    var loginSignals: nat
    var answers: seq<Packet>

    ghost predicate Valid()
      reads this
    {
      clusters.Length == CLUSTER_SLOTS && ships.Length == SHIP_SLOTS && teams.Length == TEAM_SLOTS
    }

    function View(): GalaxyView
      reads this, clusters, ships, teams
    {
      GalaxyView(id, config, clusters[..], ships[..], teams[..], players, loginPending, loginSignals, answers)
    }

    /** `Galaxy(universe)` (Galaxy.cs:29-37): every table empty, no login awaited. */
    constructor()
      ensures Valid() && fresh(clusters) && fresh(ships) && fresh(teams)
      ensures View() == GalaxyView(0, None, seq(CLUSTER_SLOTS, _ => None), seq(SHIP_SLOTS, _ => None), seq(TEAM_SLOTS, _ => None), map[], false, 0, [])
    {
      id, config := 0, None;
      clusters := new Option<Cluster>[CLUSTER_SLOTS](_ => None);
      ships := new Option<Ship>[SHIP_SLOTS](_ => None);
      teams := new Option<TeamEntry>[TEAM_SLOTS](_ => None);
      players := map[];
      loginPending, loginSignals := false, 0;
      answers := [];
    }

    /** `WaitLoginCompleted()` (Galaxy.cs:58-65): a new login signal is pending. */
    method WaitLoginCompleted()
      requires Valid()
      modifies this`loginPending
      ensures View() == Step(old(View()), AwaitLogin)
    {
      loginPending := true;
    }

    /** `Update(header, reader)` (Galaxy.cs:263-268): the galaxy's id and configuration. */
    method Update(h: Header, payload: seq<bv8>)
      modifies this`id, this`config
      ensures id == h.param && config == Some(payload)
    {
      id := h.param;
      config := Some(payload);
    }

    /** `PacketRecevied(packet)` (Galaxy.cs:167-261), as `Dispatch` describes it. */
    method PacketReceived(p: Packet) returns (r: Outcome<Fault>)
      requires Valid()
      modifies this`id, this`config, this`players, this`loginPending, this`loginSignals, this`answers, clusters, ships, teams
      ensures Valid()
      ensures r == Thrown(Dispatch(old(View()), p))
      ensures View() == After(old(View()), Dispatch(old(View()), p))
    {
      var h := p.header;
      r := Pass;
      if h.session != 0 {
        answers := answers + [p];
        return;
      }
      if h.command == 0x10 {
        Update(h, p.payload);
      } else if h.command == 0x11 {
        clusters[h.id0] := Some(Cluster(h.id0, p.payload, map[]));
      } else if h.command == 0x12 {
        if clusters[h.id1].Some? {
          var c := clusters[h.id1].value;
          clusters[h.id1] := Some(c.(regions := c.regions[h.id0 := p.payload]));
        }
      } else if h.command == 0x13 {
        if h.id0 >= teams.Length {
          return Fail(IndexOutOfRange);
        }
        teams[h.id0] := Some(TeamEntry(h.id0, p.payload));
      } else if h.command == 0x14 {
        ships[h.id0] := Some(Ship(h.id0, p.payload, map[]));
      } else if h.command == 0x15 {
        if ships[h.id1].Some? {
          var s := ships[h.id1].value;
          ships[h.id1] := Some(s.(upgrades := s.upgrades[h.id0 := p.payload]));
        }
      } else if h.command == 0x16 {
        if h.id1 >= teams.Length {
          return Fail(IndexOutOfRange);
        }
        if teams[h.id1].Some? {
          players := players[h.id0 := Player(h.id0, h.id0, h.id1, p.payload)];
        }
      } else if h.command == 0x1C || h.command == 0x1D || h.command == 0x1E {
        if clusters[h.id0].None? {
          return Fail(NullReference);
        }
      } else if h.command == 0x20 {
        if loginPending {
          loginSignals := loginSignals + 1;
          loginPending := false;
        }
      }
    }

    /** The end of `CreateCluster` (Galaxy.cs:109-112): the cluster in the reply's slot. */
    method CreatedCluster(reply: Header) returns (r: Result<Cluster, Fault>)
      requires Valid()
      ensures clusters[reply.param0].Some? ==> r == Success(clusters[reply.param0].value)
      ensures clusters[reply.param0].None? ==> r == Failure(NotReceivedYet)
    {
      match clusters[reply.param0]
      case None => r := Failure(NotReceivedYet);
      case Some(c) => r := Success(c);
    }

    /**
     * The end of `CreateTeam` (Galaxy.cs:135-138): the team in the reply's slot; a slot
     * number past the 33 teams throws `IndexOutOfRange`.
     */
    method CreatedTeam(reply: Header) returns (r: Result<TeamEntry, Fault>)
      requires Valid()
      ensures reply.param0 >= TEAM_SLOTS ==> r == Failure(IndexOutOfRange)
      ensures reply.param0 < TEAM_SLOTS && teams[reply.param0].Some? ==> r == Success(teams[reply.param0].value)
      ensures reply.param0 < TEAM_SLOTS && teams[reply.param0].None? ==> r == Failure(NotReceivedYet)
    {
      if reply.param0 >= teams.Length {
        return Failure(IndexOutOfRange);
      }
      match teams[reply.param0]
      case None => r := Failure(NotReceivedYet);
      case Some(t) => r := Success(t);
    }

    /** The end of `CreateShip` (Galaxy.cs:161-164): the ship in the reply's slot. */
    method CreatedShip(reply: Header) returns (r: Result<Ship, Fault>)
      requires Valid()
      ensures ships[reply.param0].Some? ==> r == Success(ships[reply.param0].value)
      ensures ships[reply.param0].None? ==> r == Failure(NotReceivedYet)
    {
      match ships[reply.param0]
      case None => r := Failure(NotReceivedYet);
      case Some(s) => r := Success(s);
    }
  }
}
