/**
 Propagation of WireGuard peer changes from the cores to the gateways.

 A core that changes a peer sends the event to the gateways connected to it and then
 publishes it on a Redis channel; the subscriber of every core, the publisher included,
 sends each channel message to its own gateways again. Broadcasts run concurrently, so a
 gateway sees every event twice, in an order that differs from gateway to gateway.
 */
module PeerPropagation {
  import opened Common
  import opened Addressing

  type Key = string
  type GatewayId = string
  type CoreId = string

  datatype Action = Unspecified | Add | Modify | Remove

  datatype PeerUpdate = PeerUpdate(action: Action, pubkey: string, allowedIPs: seq<string>)

  /** The two library parsers the gateway relies on. */
  datatype Parsers = Parsers(key: string -> Option<Key>, cidr: string -> Option<Cidr>)

  /** The device's peers: allowed networks per public key. */
  type PeerTable = map<Key, seq<Cidr>>

  // ---- The gateway's table -----------------------------------------------------

  /** The networks among `cidrs` that parse, in order. */
  function ParsedNets(p: Parsers, cidrs: seq<string>): seq<Cidr> {
    if cidrs == [] then []
    else
      var last := p.cidr(cidrs[|cidrs| - 1]);
      ParsedNets(p, cidrs[..|cidrs| - 1]) + (if last.Some? then [last.value] else [])
  }

  /** Every network that parses is there, and nothing else. */
  lemma {:induction false} ParsedNetsExactly(p: Parsers, cidrs: seq<string>, c: Cidr)
    ensures c in ParsedNets(p, cidrs) <==> exists s <- cidrs :: p.cidr(s) == Some(c)
  {
    if cidrs != [] {
      assert cidrs == cidrs[..|cidrs| - 1] + [cidrs[|cidrs| - 1]];
      ParsedNetsExactly(p, cidrs[..|cidrs| - 1], c);
    }
  }

  /** In order, for any way to cut the list in two. */
  lemma {:induction false} ParsedNetsInOrder(p: Parsers, a: seq<string>, b: seq<string>)
    ensures ParsedNets(p, a + b) == ParsedNets(p, a) + ParsedNets(p, b)
  {
    if b == [] {
      assert a + b == a;
    } else {
      var init := b[..|b| - 1];
      assert (a + b)[..|a + b| - 1] == a + init;
      ParsedNetsInOrder(p, a, init);
    }
  }

  /** And one by one when all parse. */
  lemma {:induction false} ParsedNetsAll(p: Parsers, cidrs: seq<string>)
    requires forall s <- cidrs :: p.cidr(s).Some?
    ensures |ParsedNets(p, cidrs)| == |cidrs|
    ensures forall i :: 0 <= i < |cidrs| ==> Some(ParsedNets(p, cidrs)[i]) == p.cidr(cidrs[i])
  {
    if cidrs != [] {
      var init, last := cidrs[..|cidrs| - 1], cidrs[|cidrs| - 1];
      assert last in cidrs && forall s <- init :: s in cidrs;
      ParsedNetsAll(p, init);
    }
  }

  function Apply(p: Parsers, t: PeerTable, u: PeerUpdate): PeerTable {
    match p.key(u.pubkey)
    case None => t
    case Some(k) =>
      match u.action
      case Add => t[k := ParsedNets(p, u.allowedIPs)]
      case Modify => t[k := ParsedNets(p, u.allowedIPs)]
      case Remove => t - {k}
      case Unspecified => t
  }

  /** What the actions mean for the device, network by network. */
  lemma {:induction false} ActionMeaning(p: Parsers, t: PeerTable, u: PeerUpdate, k: Key, other: Key)
    requires p.key(u.pubkey) == Some(k) && other != k
    ensures u.action == Add || u.action == Modify ==>
              && k in Apply(p, t, u)
              && forall c :: c in Apply(p, t, u)[k] <==> exists s <- u.allowedIPs :: p.cidr(s) == Some(c)
    ensures u.action == Remove ==> k !in Apply(p, t, u)
    ensures u.action == Unspecified ==> Apply(p, t, u) == t
    ensures other in Apply(p, t, u) <==> other in t
    ensures other in t ==> Apply(p, t, u)[other] == t[other]
  {
    forall c {
      ParsedNetsExactly(p, u.allowedIPs, c);
    }
  }

  function Fold(p: Parsers, t: PeerTable, us: seq<PeerUpdate>): PeerTable
    decreases |us|
  {
    if us == [] then t else Fold(p, Apply(p, t, us[0]), us[1..])
  }

  lemma {:induction false} FoldAppend(p: Parsers, t: PeerTable, us: seq<PeerUpdate>, vs: seq<PeerUpdate>)
    ensures Fold(p, t, us + vs) == Fold(p, Fold(p, t, us), vs)
    decreases |us|
  {
    if us == [] {
      assert us + vs == vs;
    } else {
      assert (us + vs)[1..] == us[1..] + vs;
      FoldAppend(p, Apply(p, t, us[0]), us[1..], vs);
    }
  }

  lemma {:induction false} FoldSnoc(p: Parsers, t: PeerTable, us: seq<PeerUpdate>, u: PeerUpdate)
    ensures Fold(p, t, us + [u]) == Apply(p, Fold(p, t, us), u)
  {
    FoldAppend(p, t, us, [u]);
  }

  class WGManager {
    const parsers: Parsers
    var peers: PeerTable

    constructor (parsers: Parsers)
      ensures this.parsers == parsers && peers == map[]
    {
      this.parsers := parsers;
      peers := map[];
    }

    /** Adds or replaces a peer; `accepted` is the answer of the device. */
    method AddPeer(pubkey: string, allowedIPs: seq<string>, accepted: bool) returns (ok: bool)
      modifies this
      ensures ok == (parsers.key(pubkey).Some? && accepted)
      ensures peers == if ok then Apply(parsers, old(peers), PeerUpdate(Add, pubkey, allowedIPs)) else old(peers)
      ensures ok ==> parsers.key(pubkey).value in peers
      ensures ok ==> forall c :: c in peers[parsers.key(pubkey).value] <==>
                                 exists s <- allowedIPs :: parsers.cidr(s) == Some(c)
    {
      var key := parsers.key(pubkey);
      if key.None? {
        return false;
      }
      var nets: seq<Cidr> := [];
      for i := 0 to |allowedIPs|
        invariant nets == ParsedNets(parsers, allowedIPs[..i])
      {
        assert allowedIPs[..i + 1][..i] == allowedIPs[..i];
        var net := parsers.cidr(allowedIPs[i]);
        if net.None? {
          continue;
        }
        nets := nets + [net.value];
      }
      assert allowedIPs[..|allowedIPs|] == allowedIPs;
      if !accepted {
        return false;
      }
      peers := peers[key.value := nets];
      forall c {
        ParsedNetsExactly(parsers, allowedIPs, c);
      }
      return true;
    }

    method RemovePeer(pubkey: string, accepted: bool) returns (ok: bool)
      modifies this
      ensures ok == (parsers.key(pubkey).Some? && accepted)
      ensures peers == if ok then Apply(parsers, old(peers), PeerUpdate(Remove, pubkey, [])) else old(peers)
      ensures ok ==> parsers.key(pubkey).value !in peers
    {
      var key := parsers.key(pubkey);
      if key.None? || !accepted {
        return false;
      }
      peers := peers - {key.value};
      return true;
    }
  }

  /** A peer as site-to-site tunnels and resyncs list it. */
  datatype Peer = Peer(pubkey: string, allowedIPs: seq<string>)

  datatype S2SAction = S2SUnspecified | AddTunnel | RemoveTunnel | UpdatePeers | UpdateRoutes

  /** What a core sends; a site-to-site update may lack its tunnel. */
  datatype CoreEvent =
    | PeerEvent(update: PeerUpdate)
    | S2SEvent(action: S2SAction, tunnel: Option<seq<Peer>>)
    | FirewallEvent
    | SmartRouteEvent
    | ResyncEvent(peers: seq<Peer>, tunnels: seq<seq<Peer>>)

  function AsUpdate(action: Action, peer: Peer): PeerUpdate {
    PeerUpdate(action, peer.pubkey, peer.allowedIPs)
  }

  /** Tunnel peers without a key are passed over. */
  function TunnelUpdates(action: Action, peers: seq<Peer>): seq<PeerUpdate> {
    if peers == [] then []
    else
      var init, last := TunnelUpdates(action, peers[..|peers| - 1]), peers[|peers| - 1];
      if last.pubkey == "" then init else init + [AsUpdate(action, last)]
  }

  function AddAll(peers: seq<Peer>): seq<PeerUpdate> {
    if peers == [] then [] else AddAll(peers[..|peers| - 1]) + [AsUpdate(Add, peers[|peers| - 1])]
  }

  function AddTunnels(tunnels: seq<seq<Peer>>): seq<PeerUpdate> {
    if tunnels == [] then [] else AddTunnels(tunnels[..|tunnels| - 1]) + TunnelUpdates(Add, tunnels[|tunnels| - 1])
  }

  /** Every event amounts to a list of peer updates; a resync only ever adds. */
  function Updates(e: CoreEvent): seq<PeerUpdate> {
    match e
    case PeerEvent(u) => [u]
    case S2SEvent(action, tunnel) =>
      if tunnel.None? || action == S2SUnspecified then []
      else TunnelUpdates(if action == RemoveTunnel then Remove else Add, tunnel.value)
    case FirewallEvent => []
    case SmartRouteEvent => []
    case ResyncEvent(peers, tunnels) => AddAll(peers) + AddTunnels(tunnels)
  }

  function AllUpdates(events: seq<CoreEvent>): seq<PeerUpdate> {
    if events == [] then [] else AllUpdates(events[..|events| - 1]) + Updates(events[|events| - 1])
  }

  predicate Lists(peers: seq<Peer>, pubkey: string, allowedIPs: seq<string>) {
    exists q <- peers :: q.pubkey == pubkey && q.allowedIPs == allowedIPs
  }

  lemma {:induction false} TunnelUpdatesExactly(action: Action, peers: seq<Peer>, u: PeerUpdate)
    ensures u in TunnelUpdates(action, peers) <==>
            u.action == action && u.pubkey != "" && Lists(peers, u.pubkey, u.allowedIPs)
    ensures (forall q <- peers :: q.pubkey != "") ==>
              && |TunnelUpdates(action, peers)| == |peers|
              && forall i :: 0 <= i < |peers| ==> TunnelUpdates(action, peers)[i].pubkey == peers[i].pubkey
  {
    if peers != [] {
      assert peers == peers[..|peers| - 1] + [peers[|peers| - 1]];
      TunnelUpdatesExactly(action, peers[..|peers| - 1], u);
    }
  }

  /** Only removing a tunnel removes its peers; every other action on it adds them; an unknown one does nothing. */
  lemma {:induction false} S2SMeaning(action: S2SAction, peers: seq<Peer>, u: PeerUpdate)
    ensures Updates(S2SEvent(action, None)) == [] && Updates(S2SEvent(S2SUnspecified, Some(peers))) == []
    ensures u in Updates(S2SEvent(action, Some(peers))) <==>
            && u.pubkey != "" && Lists(peers, u.pubkey, u.allowedIPs)
            && ((action == RemoveTunnel && u.action == Remove)
                || (action in {AddTunnel, UpdatePeers, UpdateRoutes} && u.action == Add))
  {
    TunnelUpdatesExactly(Add, peers, u);
    TunnelUpdatesExactly(Remove, peers, u);
  }

  lemma {:induction false} AddAllExactly(peers: seq<Peer>)
    ensures |AddAll(peers)| == |peers|
    ensures forall i :: 0 <= i < |peers| ==>
              AddAll(peers)[i] == PeerUpdate(Add, peers[i].pubkey, peers[i].allowedIPs)
  {
    if peers != [] {
      AddAllExactly(peers[..|peers| - 1]);
    }
  }

  /** A resync adds the listed peers and the peers of all tunnels, those without a key aside, and nothing else. */
  lemma {:induction false} ResyncMeaning(peers: seq<Peer>, tunnels: seq<seq<Peer>>, u: PeerUpdate)
    ensures u in Updates(ResyncEvent(peers, tunnels)) <==>
            && u.action == Add
            && (|| Lists(peers, u.pubkey, u.allowedIPs)
                || (u.pubkey != "" && exists t <- tunnels :: Lists(t, u.pubkey, u.allowedIPs)))
  {
    AddAllExactly(peers);
    if u.action == Add && Lists(peers, u.pubkey, u.allowedIPs) {
      var i :| 0 <= i < |peers| && peers[i].pubkey == u.pubkey && peers[i].allowedIPs == u.allowedIPs;
      assert AddAll(peers)[i] == u;
    }
    AddTunnelsExactly(tunnels, u);
  }

  lemma {:induction false} AddTunnelsExactly(tunnels: seq<seq<Peer>>, u: PeerUpdate)
    ensures u in AddTunnels(tunnels) <==>
            u.action == Add && u.pubkey != "" && exists t <- tunnels :: Lists(t, u.pubkey, u.allowedIPs)
  {
    if tunnels != [] {
      assert tunnels == tunnels[..|tunnels| - 1] + [tunnels[|tunnels| - 1]];
      AddTunnelsExactly(tunnels[..|tunnels| - 1], u);
      TunnelUpdatesExactly(Add, tunnels[|tunnels| - 1], u);
    }
  }

  lemma {:induction false} AllUpdatesSnoc(events: seq<CoreEvent>, e: CoreEvent)
    ensures AllUpdates(events + [e]) == AllUpdates(events) + Updates(e)
  {
    assert (events + [e])[..|events|] == events;
  }

  lemma {:induction false} ResyncUpdates(us: seq<PeerUpdate>, peers: seq<Peer>, tunnels: seq<seq<Peer>>)
    ensures us + AddAll(peers) + AddTunnels(tunnels) == us + Updates(ResyncEvent(peers, tunnels))
  {
  }

  predicate AllAdd(us: seq<PeerUpdate>) {
    forall u <- us :: u.action == Add
  }

  lemma {:induction false} TunnelUpdatesAdd(peers: seq<Peer>)
    ensures AllAdd(TunnelUpdates(Add, peers))
  {
    if peers != [] {
      TunnelUpdatesAdd(peers[..|peers| - 1]);
    }
  }

  lemma {:induction false} AddAllAdds(peers: seq<Peer>)
    ensures AllAdd(AddAll(peers))
  {
    if peers != [] {
      AddAllAdds(peers[..|peers| - 1]);
    }
  }

  lemma {:induction false} AddTunnelsAdds(tunnels: seq<seq<Peer>>)
    ensures AllAdd(AddTunnels(tunnels))
  {
    if tunnels != [] {
      AddTunnelsAdds(tunnels[..|tunnels| - 1]);
      TunnelUpdatesAdd(tunnels[|tunnels| - 1]);
    }
  }

  lemma {:induction false} AddsKeep(p: Parsers, t: PeerTable, us: seq<PeerUpdate>)
    requires AllAdd(us)
    ensures t.Keys <= Fold(p, t, us).Keys
    decreases |us|
  {
    if us != [] {
      assert us[0] in us;
      AddsKeep(p, Apply(p, t, us[0]), us[1..]);
    }
  }

  /** The updates that the device accepts, when `accepts(n)` is its answer to update number `n`. */
  function AcceptedOnes(us: seq<PeerUpdate>, from: nat, accepts: nat -> bool): seq<PeerUpdate> {
    if us == [] then []
    else
      var last := |us| - 1;
      var before := AcceptedOnes(us[..last], from, accepts);
      if accepts(from + last) then before + [us[last]] else before
  }

  lemma {:induction false} AcceptedSnoc(us: seq<PeerUpdate>, u: PeerUpdate, from: nat, accepts: nat -> bool)
    ensures var before := AcceptedOnes(us, from, accepts);
            AcceptedOnes(us + [u], from, accepts) == if accepts(from + |us|) then before + [u] else before
  {
    assert (us + [u])[..|us|] == us;
  }

  /** A device that takes everything gets everything, in order. */
  lemma {:induction false} AcceptedWhole(us: seq<PeerUpdate>, from: nat, accepts: nat -> bool)
    requires forall n: nat :: accepts(n)
    ensures AcceptedOnes(us, from, accepts) == us
  {
    if us != [] {
      var init, last := us[..|us| - 1], us[|us| - 1];
      AcceptedWhole(init, from, accepts);
      AcceptedSnoc(init, last, from, accepts);
      assert us == init + [last];
    }
  }

  lemma {:induction false} AcceptedAdds(us: seq<PeerUpdate>, from: nat, accepts: nat -> bool)
    requires AllAdd(us)
    ensures AllAdd(AcceptedOnes(us, from, accepts))
  {
    if us != [] {
      assert us[|us| - 1] in us;
      AcceptedAdds(us[..|us| - 1], from, accepts);
    }
  }

  /** A full resync is no replacement: whatever it lists and the device takes, no peer goes away. */
  lemma {:induction false} ResyncRemovesNothing(p: Parsers, t: PeerTable, peers: seq<Peer>, tunnels: seq<seq<Peer>>,
                                                from: nat, accepts: nat -> bool)
    ensures t.Keys <= Fold(p, t, AcceptedOnes(Updates(ResyncEvent(peers, tunnels)), from, accepts)).Keys
  {
    AddAllAdds(peers);
    AddTunnelsAdds(tunnels);
    AcceptedAdds(Updates(ResyncEvent(peers, tunnels)), from, accepts);
    AddsKeep(p, t, AcceptedOnes(Updates(ResyncEvent(peers, tunnels)), from, accepts));
  }

  class Agent {
    const wg: WGManager?
    const accepts: nat -> bool   // the device's answers
    var handled: nat             // updates that were to go to the device so far

    constructor (wg: WGManager?, accepts: nat -> bool)
      ensures this.wg == wg && this.accepts == accepts && handled == 0
    {
      this.wg := wg;
      this.accepts := accepts;
      handled := 0;
    }

    /** Since the table was `t` and `n` updates had been handled, `us` were, those that the device took. */
    ghost predicate Reached(t: PeerTable, n: nat, us: seq<PeerUpdate>)
      reads this, wg
    {
      wg != null ==> handled == n + |us| && wg.peers == Fold(wg.parsers, t, AcceptedOnes(us, n, accepts))
    }

    method HandlePeerUpdate(u: PeerUpdate)
      modifies this`handled, wg
      ensures wg != null ==>
                && handled == old(handled) + 1
                && wg.peers == if accepts(old(handled)) then Apply(wg.parsers, old(wg.peers), u) else old(wg.peers)
    {
      if wg == null {
        return;
      }
      var accepted := accepts(handled);
      handled := handled + 1;
      match u.action
      case Add =>
        var _ := wg.AddPeer(u.pubkey, u.allowedIPs, accepted);
      case Modify =>
        var _ := wg.AddPeer(u.pubkey, u.allowedIPs, accepted);
      case Remove =>
        var _ := wg.RemovePeer(u.pubkey, accepted);
      case Unspecified =>
    }

    method Handle(u: PeerUpdate, ghost t: PeerTable, ghost n: nat, ghost us: seq<PeerUpdate>)
      requires Reached(t, n, us)
      modifies this`handled, wg
      ensures Reached(t, n, us + [u])
    {
      HandlePeerUpdate(u);
      if wg != null {
        AcceptedSnoc(us, u, n, accepts);
        FoldSnoc(wg.parsers, t, AcceptedOnes(us, n, accepts), u);
      }
    }

    /** The peers of a tunnel, one after the other; those without a key are passed over. */
    method HandleTunnel(action: Action, peers: seq<Peer>, ghost t: PeerTable, ghost n: nat, ghost us: seq<PeerUpdate>)
      requires Reached(t, n, us)
      modifies this`handled, wg
      ensures Reached(t, n, us + TunnelUpdates(action, peers))
    {
      assert us + TunnelUpdates(action, peers[..0]) == us;
      for i := 0 to |peers|
        invariant Reached(t, n, us + TunnelUpdates(action, peers[..i]))
      {
        assert peers[..i + 1][..i] == peers[..i];
        if peers[i].pubkey == "" {
          continue;
        }
        ghost var done := us + TunnelUpdates(action, peers[..i]);
        Handle(AsUpdate(action, peers[i]), t, n, done);
        assert us + TunnelUpdates(action, peers[..i + 1]) == done + [AsUpdate(action, peers[i])];
      }
      assert peers[..|peers|] == peers;
    }

    method HandleS2SUpdate(action: S2SAction, tunnel: Option<seq<Peer>>,
                           ghost t: PeerTable, ghost n: nat, ghost us: seq<PeerUpdate>)
      requires Reached(t, n, us)
      modifies this`handled, wg
      ensures Reached(t, n, us + Updates(S2SEvent(action, tunnel)))
    {
      if tunnel.None? {
        assert us + Updates(S2SEvent(action, tunnel)) == us;
        return;
      }
      if wg == null {
        return;
      }
      if action.AddTunnel? || action.UpdateRoutes? || action.UpdatePeers? {
        HandleTunnel(Add, tunnel.value, t, n, us);
      } else if action.RemoveTunnel? {
        HandleTunnel(Remove, tunnel.value, t, n, us);
      } else {
        assert us + Updates(S2SEvent(action, tunnel)) == us;
      }
    }

    method HandleListed(peers: seq<Peer>, ghost t: PeerTable, ghost n: nat, ghost us: seq<PeerUpdate>)
      requires Reached(t, n, us)
      modifies this`handled, wg
      ensures Reached(t, n, us + AddAll(peers))
    {
      assert us + AddAll(peers[..0]) == us;
      for i := 0 to |peers|
        invariant Reached(t, n, us + AddAll(peers[..i]))
      {
        assert peers[..i + 1][..i] == peers[..i];
        ghost var done := us + AddAll(peers[..i]);
        Handle(AsUpdate(Add, peers[i]), t, n, done);
        assert us + AddAll(peers[..i + 1]) == done + [AsUpdate(Add, peers[i])];
      }
      assert peers[..|peers|] == peers;
    }

    method HandleTunnels(tunnels: seq<seq<Peer>>, ghost t: PeerTable, ghost n: nat, ghost us: seq<PeerUpdate>)
      requires Reached(t, n, us)
      modifies this`handled, wg
      ensures Reached(t, n, us + AddTunnels(tunnels))
    {
      assert us + AddTunnels(tunnels[..0]) == us;
      for i := 0 to |tunnels|
        invariant Reached(t, n, us + AddTunnels(tunnels[..i]))
      {
        assert tunnels[..i + 1][..i] == tunnels[..i];
        ghost var done := us + AddTunnels(tunnels[..i]);
        HandleTunnel(Add, tunnels[i], t, n, done);
        assert us + AddTunnels(tunnels[..i + 1]) == done + TunnelUpdates(Add, tunnels[i]);
      }
      assert tunnels[..|tunnels|] == tunnels;
    }

    method HandleFullResync(peers: seq<Peer>, tunnels: seq<seq<Peer>>,
                            ghost t: PeerTable, ghost n: nat, ghost us: seq<PeerUpdate>)
      requires Reached(t, n, us)
      modifies this`handled, wg
      ensures Reached(t, n, us + Updates(ResyncEvent(peers, tunnels)))
    {
      if wg == null {
        return;
      }
      ResyncUpdates(us, peers, tunnels);
      ghost var listed := us + AddAll(peers);
      HandleListed(peers, t, n, us);
      HandleTunnels(tunnels, t, n, listed);
    }

    /** Firewall and smart-route updates leave the peers alone. */
    method HandleEvent(e: CoreEvent, ghost t: PeerTable, ghost n: nat, ghost us: seq<PeerUpdate>)
      requires Reached(t, n, us)
      modifies this`handled, wg
      ensures Reached(t, n, us + Updates(e))
    {
      match e
      case PeerEvent(u) =>
        Handle(u, t, n, us);
      case S2SEvent(action, tunnel) =>
        HandleS2SUpdate(action, tunnel, t, n, us);
      case FirewallEvent =>
        assert us + Updates(e) == us;
      case SmartRouteEvent =>
        assert us + Updates(e) == us;
      case ResyncEvent(peers, tunnels) =>
        HandleFullResync(peers, tunnels, t, n, us);
    }

    /** The receive loop: the accepted updates of all events, in arrival order, are folded into the table. */
    method RunSync(events: seq<CoreEvent>)
      modifies this`handled, wg
      ensures wg != null ==>
                && handled == old(handled) + |AllUpdates(events)|
                && wg.peers
                   == Fold(wg.parsers, old(wg.peers), AcceptedOnes(AllUpdates(events), old(handled), accepts))
    {
      ghost var t, n := if wg == null then map[] else wg.peers, handled;
      for i := 0 to |events|
        invariant Reached(t, n, AllUpdates(events[..i]))
      {
        HandleEvent(events[i], t, n, AllUpdates(events[..i]));
        assert events[..i + 1] == events[..i] + [events[i]];
        AllUpdatesSnoc(events[..i], events[i]);
      }
      assert events[..|events|] == events;
    }
  }

  // ---- The core's hub ----------------------------------------------------------

  /** The Pub/Sub channel: every message ever published, in publish order. */
  class RedisChannel {
    var log: seq<PeerUpdate>

    constructor ()
      ensures log == []
    {
      log := [];
    }
  }

  class StreamHub {
    var streams: set<GatewayId>                 // registered gateways
    var broken: set<GatewayId>                  // gateways whose stream refuses a send
    var sent: map<GatewayId, seq<PeerUpdate>>   // what each stream has accepted
    const rdb: RedisChannel?                    // null in a single-core deployment

    ghost predicate Valid()
      reads this
    {
      streams <= sent.Keys
    }

    constructor (rdb: RedisChannel?)
      ensures Valid() && this.rdb == rdb && streams == {} && broken == {} && sent == map[]
    {
      this.rdb := rdb;
      streams, broken, sent := {}, {}, map[];
    }

    /** What every stream holds after `e` went to each healthy registered gateway. */
    ghost function Delivered(e: PeerUpdate): map<GatewayId, seq<PeerUpdate>>
      reads this
    {
      map g | g in sent :: if g in streams - broken then sent[g] + [e] else sent[g]
    }

    /** A failing stream is skipped; the others get the event exactly once, in any order. */
    method BroadcastLocal(e: PeerUpdate)
      requires Valid()
      modifies this`sent
      ensures Valid() && sent == old(Delivered(e)) && sent.Keys == old(sent).Keys
      ensures forall g <- sent :: g in streams && g !in broken ==> sent[g] == old(sent)[g] + [e]
      ensures forall g <- sent :: g !in streams || g in broken ==> sent[g] == old(sent)[g]
    {
      var snapshot := streams;
      while snapshot != {}
        invariant snapshot <= streams
        invariant sent == map g | g in old(sent) ::
            if g in streams - broken - snapshot then old(sent)[g] + [e] else old(sent)[g]
        decreases |snapshot|
      {
        var g :| g in snapshot;
        snapshot := snapshot - {g};
        if g !in broken {
          sent := sent[g := sent[g] + [e]];
        }
      }
    }

    /** Local delivery, then publication; a failed publication is logged and forgotten. */
    method Broadcast(e: PeerUpdate, published: bool)
      requires Valid()
      modifies this`sent, rdb
      ensures Valid() && sent == old(Delivered(e))
      ensures rdb != null ==> rdb.log == old(rdb.log) + (if published then [e] else [])
    {
      BroadcastLocal(e);
      if rdb != null && published {
        rdb.log := rdb.log + [e];
      }
    }
  }

  // ---- The protocol ------------------------------------------------------------

  /** A broadcast in progress: the snapshot gateways it has still to send to. */
  datatype Inflight = Inflight(core: CoreId, event: PeerUpdate, todo: set<GatewayId>)

  /** A core's subscriber: `taken` messages were read; the newest one still goes to `todo`. */
  datatype Subscriber = Subscriber(taken: nat, todo: set<GatewayId>)

  /** A gateway: events on its stream that it has not received yet, and its peer table. */
  datatype Gateway = Gateway(queue: seq<PeerUpdate>, table: PeerTable)

  /** A broadcast whose publication failed when the channel held `at` messages. */
  datatype Lost = Lost(core: CoreId, event: PeerUpdate, at: nat)

  datatype State = State(
    home: map<GatewayId, CoreId>,
    inflight: seq<Inflight>,
    log: seq<PeerUpdate>,
    lost: seq<Lost>,
    subscribers: map<CoreId, Subscriber>,
    gateways: map<GatewayId, Gateway>)

  datatype Step =
    | Start(core: CoreId, event: PeerUpdate)
    | LocalSend(i: nat, g: GatewayId)
    | Publish(i: nat)
    | PublishFails(i: nat)
    | Receive(core: CoreId)
    | Relay(core: CoreId, g: GatewayId)
    | Deliver(g: GatewayId)

  function LocalGateways(s: State, c: CoreId): set<GatewayId> {
    set g | g in s.home && s.home[g] == c
  }

  function Send(s: State, g: GatewayId, e: PeerUpdate): State
    requires g in s.gateways
  {
    s.(gateways := s.gateways[g := s.gateways[g].(queue := s.gateways[g].queue + [e])])
  }

  predicate Enabled(s: State, step: Step) {
    match step
    case Start(core, event) => core in s.subscribers
    case LocalSend(i, g) => i < |s.inflight| && g in s.inflight[i].todo && g in s.gateways
    case Publish(i) => i < |s.inflight| && s.inflight[i].todo == {}
    case PublishFails(i) => i < |s.inflight| && s.inflight[i].todo == {}
    case Receive(core) =>
      core in s.subscribers && s.subscribers[core].todo == {} && s.subscribers[core].taken < |s.log|
    case Relay(core, g) =>
      core in s.subscribers && g in s.subscribers[core].todo && g in s.gateways &&
      0 < s.subscribers[core].taken <= |s.log|
    case Deliver(g) => g in s.gateways && s.gateways[g].queue != []
  }

  function Do(p: Parsers, s: State, step: Step): State
    requires Enabled(s, step)
  {
    match step
    case Start(core, event) =>
      s.(inflight := s.inflight + [Inflight(core, event, LocalGateways(s, core))])
    case LocalSend(i, g) =>
      var b := s.inflight[i];
      Send(s, g, b.event).(inflight := s.inflight[i := b.(todo := b.todo - {g})])
    case Publish(i) =>
      s.(log := s.log + [s.inflight[i].event], inflight := s.inflight[..i] + s.inflight[i + 1..])
    case PublishFails(i) =>
      var b := s.inflight[i];
      s.(lost := s.lost + [Lost(b.core, b.event, |s.log|)], inflight := s.inflight[..i] + s.inflight[i + 1..])
    case Receive(core) =>
      var sub := s.subscribers[core];
      s.(subscribers := s.subscribers[core := Subscriber(sub.taken + 1, LocalGateways(s, core))])
    case Relay(core, g) =>
      var sub := s.subscribers[core];
      Send(s, g, s.log[sub.taken - 1]).(
        subscribers := s.subscribers[core := sub.(todo := sub.todo - {g})])
    case Deliver(g) =>
      var gw := s.gateways[g];
      s.(gateways := s.gateways[g := Gateway(gw.queue[1..], Apply(p, gw.table, gw.queue[0]))])
  }

  predicate CanRun(p: Parsers, s: State, steps: seq<Step>)
    decreases |steps|
  {
    steps == [] || (Enabled(s, steps[0]) && CanRun(p, Do(p, s, steps[0]), steps[1..]))
  }

  function Run(p: Parsers, s: State, steps: seq<Step>): State
    requires CanRun(p, s, steps)
    decreases |steps|
  {
    if steps == [] then s else Run(p, Do(p, s, steps[0]), steps[1..])
  }

  /** Every gateway is connected to one core, and nothing has been sent yet. */
  predicate Initial(s: State) {
    && s.inflight == [] && s.log == [] && s.lost == []
    && s.home.Keys == s.gateways.Keys && s.home.Values <= s.subscribers.Keys
    && (forall c <- s.subscribers :: s.subscribers[c] == Subscriber(0, {}))
    && (forall g <- s.gateways :: s.gateways[g].queue == [])
  }

  /** No broadcast is in progress and the channel and the streams are drained. */
  predicate Quiescent(s: State) {
    && s.inflight == []
    && (forall c <- s.subscribers :: s.subscribers[c] == Subscriber(|s.log|, {}))
    && (forall g <- s.gateways :: s.gateways[g].queue == [])
  }

  // ---- Convergence -------------------------------------------------------------

  function At(t: PeerTable, k: Key): Option<seq<Cidr>> {
    if k in t then Some(t[k]) else None
  }

  /** `u` decides the entry of `k`. */
  predicate Writes(p: Parsers, u: PeerUpdate, k: Key) {
    p.key(u.pubkey) == Some(k) && u.action != Unspecified
  }

  /** The entry that a writing update leaves behind. */
  function Effect(p: Parsers, u: PeerUpdate): Option<seq<Cidr>> {
    if u.action == Remove then None else Some(ParsedNets(p, u.allowedIPs))
  }

  /** An update decides the entry of its own key and leaves every other entry alone. */
  lemma {:induction false} ApplyMeaning(p: Parsers, t: PeerTable, u: PeerUpdate, k: Key)
    ensures At(Apply(p, t, u), k) == if Writes(p, u, k) then Effect(p, u) else At(t, k)
  {
  }

  /** The number of channel messages that have been put on the stream of `g`. */
  function Relayed(s: State, g: GatewayId): int
    requires g in s.home && s.home[g] in s.subscribers
  {
    var sub := s.subscribers[s.home[g]];
    if g in sub.todo then sub.taken - 1 else sub.taken
  }

  ghost predicate WellFormed(s: State) {
    && s.home.Keys == s.gateways.Keys
    && (forall g <- s.home :: s.home[g] in s.subscribers)
    && (forall c <- s.subscribers ::
          var sub := s.subscribers[c];
          sub.todo <= LocalGateways(s, c) && sub.taken <= |s.log| && (sub.todo != {} ==> sub.taken > 0))
    && (forall b <- s.inflight :: b.todo <= LocalGateways(s, b.core))
  }

  /** The table `g` ends up with if nothing but the rest of the channel reaches it. */
  ghost function Outlook(p: Parsers, s: State, g: GatewayId): PeerTable
    requires WellFormed(s) && g in s.gateways
  {
    Fold(p, Fold(p, s.gateways[g].table, s.gateways[g].queue), s.log[Relayed(s, g)..])
  }

  /** An unpublished broadcast that writes `k` has already gone to `g`. */
  ghost predicate Ahead(p: Parsers, s: State, g: GatewayId, k: Key)
    requires g in s.home
  {
    exists b <- s.inflight :: b.core == s.home[g] && g !in b.todo && Writes(p, b.event, k)
  }

  /** No message from position `at` on writes `k`. */
  predicate Silent(p: Parsers, log: seq<PeerUpdate>, at: nat, k: Key) {
    forall j :: at <= j < |log| ==> !Writes(p, log[j], k)
  }

  /** A broadcast that went to `g` and writes `k` was lost, and the channel has not written `k` since. */
  ghost predicate Stale(p: Parsers, s: State, g: GatewayId, k: Key)
    requires g in s.home
  {
    exists l <- s.lost :: l.core == s.home[g] && Writes(p, l.event, k) && Silent(p, s.log, l.at, k)
  }

  /** Nothing is stale without a lost update of that key, by that core, that the channel has not overwritten. */
  lemma {:induction false} StaleNeedsLoss(p: Parsers, s: State, g: GatewayId, k: Key)
    requires g in s.home
    requires forall l <- s.lost ::
        || l.core != s.home[g] || !Writes(p, l.event, k)
        || exists j :: l.at <= j < |s.log| && Writes(p, s.log[j], k)
    ensures !Stale(p, s, g, k)
  {
  }

  ghost predicate Settled(p: Parsers, init: State, s: State, g: GatewayId, k: Key)
    requires WellFormed(s) && g in s.gateways && g in init.gateways
  {
    At(Outlook(p, s, g), k) == At(Fold(p, init.gateways[g].table, s.log), k)
  }

  ghost predicate OnTrack(p: Parsers, init: State, s: State, g: GatewayId, k: Key)
    requires WellFormed(s) && g in s.gateways && g in init.gateways
  {
    Settled(p, init, s, g, k) || Ahead(p, s, g, k) || Stale(p, s, g, k)
  }

  ghost predicate Inv(p: Parsers, init: State, s: State) {
    && WellFormed(s) && s.home == init.home && init.gateways.Keys == s.gateways.Keys
    && forall g, k :: g in s.gateways ==> OnTrack(p, init, s, g, k)
  }

  /** Updates act key by key. */
  lemma {:induction false} FoldLocal(p: Parsers, t1: PeerTable, t2: PeerTable, us: seq<PeerUpdate>, k: Key)
    requires At(t1, k) == At(t2, k)
    ensures At(Fold(p, t1, us), k) == At(Fold(p, t2, us), k)
    decreases |us|
  {
    if us != [] {
      FoldLocal(p, Apply(p, t1, us[0]), Apply(p, t2, us[0]), us[1..], k);
    }
  }

  /** The last update wins: appending `u` decides its own key and no other. */
  lemma {:induction false} FoldLast(p: Parsers, t1: PeerTable, t2: PeerTable, us: seq<PeerUpdate>, vs: seq<PeerUpdate>,
                 u: PeerUpdate, k: Key)
    requires Writes(p, u, k) || At(Fold(p, t1, us), k) == At(Fold(p, t2, vs), k)
    ensures At(Fold(p, t1, us + [u]), k) == At(Fold(p, t2, vs + [u]), k)
  {
    FoldSnoc(p, t1, us, u);
    FoldSnoc(p, t2, vs, u);
  }

  lemma {:induction false} InitialInv(p: Parsers, s: State)
    requires Initial(s)
    ensures Inv(p, s, s)
  {
  }

  lemma {:induction false} BroadcastStepWellFormed(p: Parsers, s: State, step: Step)
    requires WellFormed(s) && Enabled(s, step) && (step.Start? || step.LocalSend?)
    ensures WellFormed(Do(p, s, step))
  {
  }

  lemma {:induction false} PublishStepWellFormed(p: Parsers, s: State, step: Step)
    requires WellFormed(s) && Enabled(s, step) && (step.Publish? || step.PublishFails?)
    ensures WellFormed(Do(p, s, step))
  {
    assert forall b <- Do(p, s, step).inflight :: b in s.inflight;
  }

  lemma {:induction false} RelayStepWellFormed(p: Parsers, s: State, step: Step)
    requires WellFormed(s) && Enabled(s, step) && (step.Receive? || step.Relay? || step.Deliver?)
    ensures WellFormed(Do(p, s, step))
  {
  }

  lemma {:induction false} StepWellFormed(p: Parsers, s: State, step: Step)
    requires WellFormed(s) && Enabled(s, step)
    ensures WellFormed(Do(p, s, step)) && Do(p, s, step).home == s.home
    ensures Do(p, s, step).gateways.Keys == s.gateways.Keys
  {
    if step.Start? || step.LocalSend? {
      BroadcastStepWellFormed(p, s, step);
    } else if step.Publish? || step.PublishFails? {
      PublishStepWellFormed(p, s, step);
    } else {
      RelayStepWellFormed(p, s, step);
    }
  }

  /** A broadcast that has gone to `g` stays ahead of the channel; after this send, so does the sender. */
  lemma {:induction false} LocalSendAhead(p: Parsers, s: State, i: nat, to: GatewayId, g: GatewayId, k: Key)
    requires WellFormed(s) && Enabled(s, LocalSend(i, to)) && g in s.home
    ensures var s' := Do(p, s, LocalSend(i, to));
            && s'.home == s.home
            && (Ahead(p, s, g, k) || (g == to && Writes(p, s.inflight[i].event, k)) ==> Ahead(p, s', g, k))
  {
    var s' := Do(p, s, LocalSend(i, to));
    assert s'.inflight[i] in s'.inflight && s.inflight[i] in s.inflight;
    if Ahead(p, s, g, k) {
      var j :| 0 <= j < |s.inflight| && s.inflight[j].core == s.home[g] &&
               g !in s.inflight[j].todo && Writes(p, s.inflight[j].event, k);
      assert s'.inflight[j] in s'.inflight;
    }
  }

  /** At the other keys a local send changes nothing of what a gateway is going to hold. */
  lemma {:induction false} LocalSendElsewhere(p: Parsers, s: State, i: nat, to: GatewayId, k: Key)
    requires WellFormed(s) && Enabled(s, LocalSend(i, to)) && !Writes(p, s.inflight[i].event, k)
    requires WellFormed(Do(p, s, LocalSend(i, to)))
    ensures At(Outlook(p, Do(p, s, LocalSend(i, to)), to), k) == At(Outlook(p, s, to), k)
  {
    var gw, e := s.gateways[to], s.inflight[i].event;
    FoldAppend(p, gw.table, gw.queue, [e]);
    FoldLocal(p, Fold(p, gw.table, gw.queue), Fold(p, gw.table, gw.queue + [e]), s.log[Relayed(s, to)..], k);
  }

  /** Only a local send changes what a gateway is going to hold, and only at the event's key. */
  lemma {:induction false} LocalSendKeeps(p: Parsers, init: State, s: State, i: nat, to: GatewayId)
    requires Inv(p, init, s) && Enabled(s, LocalSend(i, to))
    ensures Inv(p, init, Do(p, s, LocalSend(i, to)))
  {
    var s' := Do(p, s, LocalSend(i, to));
    StepWellFormed(p, s, LocalSend(i, to));
    forall g, k | g in s'.gateways
      ensures OnTrack(p, init, s', g, k)
    {
      assert OnTrack(p, init, s, g, k);
      LocalSendAhead(p, s, i, to, g, k);
      assert s'.lost == s.lost && s'.log == s.log;
      if g == to && !Writes(p, s.inflight[i].event, k) {
        LocalSendElsewhere(p, s, i, to, k);
      }
    }
  }

  /** With the event published, its key is settled: it is now the last update of the channel. */
  lemma {:induction false} PublishSettles(p: Parsers, init: State, s: State, i: nat, g: GatewayId, k: Key)
    requires WellFormed(s) && Enabled(s, Publish(i)) && g in s.gateways && g in init.gateways
    requires WellFormed(Do(p, s, Publish(i)))
    requires Writes(p, s.inflight[i].event, k) || Settled(p, init, s, g, k)
    ensures Settled(p, init, Do(p, s, Publish(i)), g, k)
  {
    var e, n := s.inflight[i].event, Relayed(s, g);
    assert (s.log + [e])[n..] == s.log[n..] + [e];
    FoldLast(p, Fold(p, s.gateways[g].table, s.gateways[g].queue), init.gateways[g].table, s.log[n..], s.log, e, k);
  }

  /** At the other keys publishing changes nothing of who is ahead and what is stale. */
  lemma {:induction false} PublishElsewhere(p: Parsers, s: State, i: nat, g: GatewayId, k: Key)
    requires Enabled(s, Publish(i)) && g in s.home && !Writes(p, s.inflight[i].event, k)
    ensures Do(p, s, Publish(i)).home == s.home
    ensures Ahead(p, s, g, k) ==> Ahead(p, Do(p, s, Publish(i)), g, k)
    ensures Stale(p, s, g, k) ==> Stale(p, Do(p, s, Publish(i)), g, k)
  {
    var s' := Do(p, s, Publish(i));
    if Ahead(p, s, g, k) {
      var b :| b in s.inflight && b.core == s.home[g] && g !in b.todo && Writes(p, b.event, k);
      assert b in s'.inflight;
    }
    if Stale(p, s, g, k) {
      var l :| l in s.lost && l.core == s.home[g] && Writes(p, l.event, k) && Silent(p, s.log, l.at, k);
      assert Silent(p, s'.log, l.at, k);
    }
  }

  /** Publishing settles the event's key at every gateway, and disturbs no other key. */
  lemma {:induction false} PublishKeeps(p: Parsers, init: State, s: State, i: nat)
    requires Inv(p, init, s) && Enabled(s, Publish(i))
    ensures Inv(p, init, Do(p, s, Publish(i)))
  {
    var s' := Do(p, s, Publish(i));
    StepWellFormed(p, s, Publish(i));
    forall g, k | g in s'.gateways
      ensures OnTrack(p, init, s', g, k)
    {
      assert OnTrack(p, init, s, g, k);
      if Writes(p, s.inflight[i].event, k) || Settled(p, init, s, g, k) {
        PublishSettles(p, init, s, i, g, k);
      } else {
        PublishElsewhere(p, s, i, g, k);
      }
    }
  }

  /** A lost publication leaves at most the event's key stale, at the gateways of its core. */
  lemma {:induction false} PublishFailsKeeps(p: Parsers, init: State, s: State, i: nat)
    requires Inv(p, init, s) && Enabled(s, PublishFails(i))
    ensures Inv(p, init, Do(p, s, PublishFails(i)))
  {
    var s' := Do(p, s, PublishFails(i));
    var gone := s.inflight[i];
    StepWellFormed(p, s, PublishFails(i));
    assert s'.gateways == s.gateways && s'.subscribers == s.subscribers && s'.log == s.log;
    assert s'.lost[|s.lost|] == Lost(gone.core, gone.event, |s.log|);
    forall g, k | g in s'.gateways
      ensures OnTrack(p, init, s', g, k)
    {
      assert OnTrack(p, init, s, g, k);
      if Ahead(p, s, g, k) {
        var b :| b in s.inflight && b.core == s.home[g] && g !in b.todo && Writes(p, b.event, k);
        if b == gone {
          assert s'.lost[|s.lost|] in s'.lost && Silent(p, s'.log, |s.log|, k);
        } else {
          assert b in s'.inflight;
        }
      } else if Stale(p, s, g, k) {
        var l :| l in s.lost && l.core == s.home[g] && Writes(p, l.event, k) && Silent(p, s.log, l.at, k);
        assert l in s'.lost;
      } else {
        assert Outlook(p, s', g) == Outlook(p, s, g);
      }
    }
  }

  /** Moving an event along its way, from the channel to a stream to the table, changes no outlook. */
  lemma {:induction false} SameOutlook(p: Parsers, s: State, step: Step, g: GatewayId)
    requires WellFormed(s) && Enabled(s, step) && g in s.gateways
    requires step.Start? || step.Receive? || step.Relay? || step.Deliver?
    ensures WellFormed(Do(p, s, step)) && g in Do(p, s, step).gateways
    ensures Outlook(p, Do(p, s, step), g) == Outlook(p, s, g)
  {
    StepWellFormed(p, s, step);
    var s' := Do(p, s, step);
    if step.Relay? && g == step.g {
      RelayedOutlook(p, s, step.core, g);
    } else if step.Deliver? && g == step.g {
      DeliveredOutlook(p, s, g);
    } else {
      assert s'.gateways[g] == s.gateways[g] && Relayed(s', g) == Relayed(s, g);
    }
  }

  lemma {:induction false} DeliveredOutlook(p: Parsers, s: State, g: GatewayId)
    requires WellFormed(s) && Enabled(s, Deliver(g)) && WellFormed(Do(p, s, Deliver(g)))
    ensures Outlook(p, Do(p, s, Deliver(g)), g) == Outlook(p, s, g)
  {
  }

  lemma {:induction false} RelayedOutlook(p: Parsers, s: State, c: CoreId, g: GatewayId)
    requires WellFormed(s) && Enabled(s, Relay(c, g)) && WellFormed(Do(p, s, Relay(c, g)))
    ensures Outlook(p, Do(p, s, Relay(c, g)), g) == Outlook(p, s, g)
  {
    var gw, n := s.gateways[g], Relayed(s, g);
    FoldAppend(p, gw.table, gw.queue, [s.log[n]]);
    assert s.log[n..][1..] == s.log[n + 1..];
  }

  lemma {:induction false} OtherStepsKeep(p: Parsers, init: State, s: State, step: Step)
    requires Inv(p, init, s) && Enabled(s, step)
    requires step.Start? || step.Receive? || step.Relay? || step.Deliver?
    ensures Inv(p, init, Do(p, s, step))
  {
    var s' := Do(p, s, step);
    StepWellFormed(p, s, step);
    assert s.inflight <= s'.inflight && s'.log == s.log && s'.lost == s.lost;
    forall g, k | g in s'.gateways
      ensures OnTrack(p, init, s', g, k)
    {
      assert OnTrack(p, init, s, g, k);
      SameOutlook(p, s, step, g);
      AheadStays(p, s, s', g, k);
    }
  }

  lemma {:induction false} AheadStays(p: Parsers, s: State, s': State, g: GatewayId, k: Key)
    requires s.home == s'.home && g in s.home && s.inflight <= s'.inflight
    ensures Ahead(p, s, g, k) ==> Ahead(p, s', g, k)
  {
  }

  lemma {:induction false} RunKeeps(p: Parsers, init: State, s: State, steps: seq<Step>)
    requires Inv(p, init, s) && CanRun(p, s, steps)
    ensures Inv(p, init, Run(p, s, steps))
    decreases |steps|
  {
    if steps != [] {
      match steps[0] {
        case LocalSend(i, g) => LocalSendKeeps(p, init, s, i, g);
        case Publish(i) => PublishKeeps(p, init, s, i);
        case PublishFails(i) => PublishFailsKeeps(p, init, s, i);
        case _ => OtherStepsKeep(p, init, s, steps[0]);
      }
      RunKeeps(p, init, Do(p, s, steps[0]), steps[1..]);
    }
  }

  /** The events whose broadcast was started, in start order. */
  function Started(steps: seq<Step>): seq<PeerUpdate> {
    if steps == [] then []
    else (if steps[0].Start? then [steps[0].event] else []) + Started(steps[1..])
  }

  function EventsOf(bs: seq<Inflight>): seq<PeerUpdate> {
    seq(|bs|, i requires 0 <= i < |bs| => bs[i].event)
  }

  function LostEvents(ls: seq<Lost>): seq<PeerUpdate> {
    seq(|ls|, i requires 0 <= i < |ls| => ls[i].event)
  }

  /** The channel, the broadcasts in progress and the lost ones. */
  ghost function Held(s: State): multiset<PeerUpdate> {
    multiset(s.log) + multiset(EventsOf(s.inflight)) + multiset(LostEvents(s.lost))
  }

  lemma {:induction false} EventsWithout(bs: seq<Inflight>, i: nat)
    requires i < |bs|
    ensures multiset(EventsOf(bs)) == multiset(EventsOf(bs[..i] + bs[i + 1..])) + multiset{bs[i].event}
  {
    var es := EventsOf(bs);
    assert es == es[..i] + [es[i]] + es[i + 1..];
    assert EventsOf(bs[..i] + bs[i + 1..]) == es[..i] + es[i + 1..];
  }

  lemma {:induction false} PublishConserves(p: Parsers, s: State, i: nat)
    requires Enabled(s, Publish(i))
    ensures Held(Do(p, s, Publish(i))) == Held(s)
  {
    EventsWithout(s.inflight, i);
  }

  lemma {:induction false} PublishFailsConserves(p: Parsers, s: State, i: nat)
    requires Enabled(s, PublishFails(i))
    ensures Held(Do(p, s, PublishFails(i))) == Held(s)
  {
    EventsWithout(s.inflight, i);
    assert LostEvents(Do(p, s, PublishFails(i)).lost) == LostEvents(s.lost) + [s.inflight[i].event];
  }

  lemma {:induction false} StepConserves(p: Parsers, s: State, step: Step)
    requires Enabled(s, step)
    ensures Held(Do(p, s, step)) == Held(s) + (if step.Start? then multiset{step.event} else multiset{})
  {
    var s' := Do(p, s, step);
    match step {
      case Start(_, e) =>
        assert s'.log == s.log && s'.lost == s.lost && EventsOf(s'.inflight) == EventsOf(s.inflight) + [e];
      case LocalSend(_, _) =>
        assert s'.log == s.log && s'.lost == s.lost && EventsOf(s'.inflight) == EventsOf(s.inflight);
      case Publish(i) =>
        PublishConserves(p, s, i);
      case PublishFails(i) =>
        PublishFailsConserves(p, s, i);
      case Receive(_) =>
        assert s'.log == s.log && s'.inflight == s.inflight && s'.lost == s.lost;
      case Relay(_, _) =>
        assert s'.log == s.log && s'.inflight == s.inflight && s'.lost == s.lost;
      case Deliver(_) =>
        assert s'.log == s.log && s'.inflight == s.inflight && s'.lost == s.lost;
    }
  }

  /** Conservation: each started event is on the channel, in progress or lost, exactly once. */
  lemma {:induction false} RunConserves(p: Parsers, s: State, steps: seq<Step>)
    requires CanRun(p, s, steps)
    ensures Held(Run(p, s, steps)) == Held(s) + multiset(Started(steps))
    decreases |steps|
  {
    if steps != [] {
      StepConserves(p, s, steps[0]);
      RunConserves(p, Do(p, s, steps[0]), steps[1..]);
    }
  }

  lemma {:induction false} TablesEqual(t1: PeerTable, t2: PeerTable)
    requires forall k :: At(t1, k) == At(t2, k)
    ensures t1 == t2
  {
    forall k
      ensures k in t1 <==> k in t2
      ensures k in t1 ==> t1[k] == t2[k]
    {
      assert At(t1, k) == At(t2, k);
    }
  }

  /** Every gateway holds its starting table with the channel's events applied in order. */
  ghost predicate Converged(p: Parsers, init: State, s: State) {
    && s.gateways.Keys == init.gateways.Keys
    && forall g <- s.gateways :: s.gateways[g].table == Fold(p, init.gateways[g].table, s.log)
  }

  lemma {:induction false} DrainedEntry(p: Parsers, init: State, s: State, g: GatewayId, k: Key)
    requires Inv(p, init, s) && Quiescent(s) && g in s.gateways
    ensures At(s.gateways[g].table, k) == At(Fold(p, init.gateways[g].table, s.log), k) || Stale(p, s, g, k)
  {
    assert s.subscribers[s.home[g]] == Subscriber(|s.log|, {});
    assert s.log[Relayed(s, g)..] == [];
    assert OnTrack(p, init, s, g, k);
  }

  lemma {:induction false} DrainedState(p: Parsers, init: State, s: State)
    requires Inv(p, init, s) && Quiescent(s) && s.lost == []
    ensures Converged(p, init, s) && Held(s) == multiset(s.log)
  {
    forall g | g in s.gateways
      ensures s.gateways[g].table == Fold(p, init.gateways[g].table, s.log)
    {
      forall k
        ensures At(s.gateways[g].table, k) == At(Fold(p, init.gateways[g].table, s.log), k)
      {
        DrainedEntry(p, init, s, g, k);
      }
      TablesEqual(s.gateways[g].table, Fold(p, init.gateways[g].table, s.log));
    }
    assert EventsOf(s.inflight) == [] && LostEvents(s.lost) == [];
  }

  /**
   Convergence: whatever the interleaving, once the system is drained and no publication was
   lost, the channel holds every started event exactly once, and every gateway's table is its
   starting table with those events applied in channel order.
   */
  lemma {:induction false} Convergence(p: Parsers, init: State, steps: seq<Step>)
    requires Initial(init) && CanRun(p, init, steps)
    requires Quiescent(Run(p, init, steps)) && Run(p, init, steps).lost == []
    ensures multiset(Run(p, init, steps).log) == multiset(Started(steps))
    ensures Converged(p, init, Run(p, init, steps))
  {
    InitialInv(p, init);
    RunKeeps(p, init, init, steps);
    DrainedState(p, init, Run(p, init, steps));
    RunConserves(p, init, steps);
    assert Held(init) == multiset{} by {
      assert EventsOf(init.inflight) == [] && LostEvents(init.lost) == [];
    }
  }

  /** The entry of `k` after `us`: what the last update that writes it says, or what was there before. */
  function LastWrite(p: Parsers, before: Option<seq<Cidr>>, us: seq<PeerUpdate>, k: Key): Option<seq<Cidr>> {
    if us == [] then before
    else
      var last := us[|us| - 1];
      if Writes(p, last, k) then Effect(p, last) else LastWrite(p, before, us[..|us| - 1], k)
  }

  lemma {:induction false} FoldIsLastWrite(p: Parsers, t: PeerTable, us: seq<PeerUpdate>, k: Key)
    ensures At(Fold(p, t, us), k) == LastWrite(p, At(t, k), us, k)
  {
    if us != [] {
      var init, last := us[..|us| - 1], us[|us| - 1];
      assert us == init + [last];
      FoldSnoc(p, t, init, last);
      FoldIsLastWrite(p, t, init, k);
      ApplyMeaning(p, Fold(p, t, init), last, k);
    }
  }

  /**
   What a drained system means for one key, with lost publications: every gateway has what the
   last update of that key on the channel says, so a removed peer is gone from all gateways
   unless it was added again. Only a lost update of the key that the channel has not overwritten
   since can leave a gateway of the losing core behind.
   */
  lemma {:induction false} ConvergedEntry(p: Parsers, init: State, steps: seq<Step>, g: GatewayId, k: Key)
    requires Initial(init) && CanRun(p, init, steps) && Quiescent(Run(p, init, steps)) && g in init.gateways
    ensures g in Run(p, init, steps).gateways && g in Run(p, init, steps).home
    ensures || At(Run(p, init, steps).gateways[g].table, k)
               == LastWrite(p, At(init.gateways[g].table, k), Run(p, init, steps).log, k)
            || Stale(p, Run(p, init, steps), g, k)
  {
    InitialInv(p, init);
    RunKeeps(p, init, init, steps);
    DrainedEntry(p, init, Run(p, init, steps), g, k);
    FoldIsLastWrite(p, init.gateways[g].table, Run(p, init, steps).log, k);
  }

  // ---- Without a channel -------------------------------------------------------

  predicate Conflict(p: Parsers, u: PeerUpdate, v: PeerUpdate) {
    && p.key(u.pubkey).Some? && p.key(u.pubkey) == p.key(v.pubkey)
    && u.action != Unspecified && v.action != Unspecified && Effect(p, u) != Effect(p, v)
  }

  function Both(p: Parsers, t: PeerTable, u: PeerUpdate, v: PeerUpdate): PeerTable {
    Apply(p, Apply(p, t, u), v)
  }

  /**
   A single core has no channel to put two overlapping broadcasts in order. The order in which
   a gateway gets them is harmless exactly when they do not write one key differently.
   */
  lemma {:induction false} DirectOrderHarmless(p: Parsers, u: PeerUpdate, v: PeerUpdate)
    ensures (forall t :: Both(p, t, u, v) == Both(p, t, v, u)) <==> !Conflict(p, u, v)
  {
    if Conflict(p, u, v) {
      var k := p.key(u.pubkey).value;
      assert At(Both(p, map[], u, v), k) == Effect(p, v);
      assert At(Both(p, map[], v, u), k) == Effect(p, u);
      assert Both(p, map[], u, v) != Both(p, map[], v, u);
    } else {
      forall t
        ensures Both(p, t, u, v) == Both(p, t, v, u)
      {
        assert Apply(p, Apply(p, t, u), v) == Apply(p, Apply(p, t, v), u);
      }
    }
  }
}
