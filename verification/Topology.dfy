/**
 Site-to-site tunnels: the WireGuard configurations of all gateways of a mesh or of a
 hub-and-spoke network, and where following their allowed networks leads a packet.
 */
module Topology {
  import opened Common
  import opened Addressing

  datatype Kind = Mesh | HubSpoke | Unknown

  datatype Gateway = Gateway(
    id: string, publicKey: string, endpoint: string, localSubnets: seq<Cidr>, isHub: bool, listenPort: int)

  datatype TunnelPeer = TunnelPeer(
    gatewayId: string, publicKey: string, endpoint: string, allowedIPs: seq<Cidr>, keepalive: int)

  /** wg-s2s-hub, or wg-s2s-i. */
  datatype InterfaceName = HubInterface | Numbered(i: nat)

  datatype TunnelConfig = TunnelConfig(
    gatewayId: string, interfaceName: InterfaceName, listenPort: int, localSubnets: seq<Cidr>, peers: seq<TunnelPeer>)

  const KEEPALIVE := 25

  function AsPeer(g: Gateway, allowed: seq<Cidr>): TunnelPeer {
    TunnelPeer(g.id, g.publicKey, g.endpoint, allowed, KEEPALIVE)
  }

  function AsPeers(gs: seq<Gateway>): seq<TunnelPeer> {
    seq(|gs|, i requires 0 <= i < |gs| => AsPeer(gs[i], gs[i].localSubnets))
  }

  function Config(g: Gateway, name: InterfaceName, peers: seq<TunnelPeer>): TunnelConfig {
    TunnelConfig(g.id, name, g.listenPort, g.localSubnets, peers)
  }

  // ---- Mesh --------------------------------------------------------------------

  function MeshConfigs(gs: seq<Gateway>): seq<TunnelConfig> {
    seq(|gs|, i requires 0 <= i < |gs| => Config(gs[i], Numbered(i), AsPeers(gs[..i] + gs[i + 1..])))
  }

  /** The peers of gateway `i`: all the others. */
  method MeshPeers(gs: seq<Gateway>, i: nat) returns (peers: seq<TunnelPeer>)
    requires i < |gs|
    ensures peers == AsPeers(gs[..i] + gs[i + 1..])
  {
    peers := [];
    ghost var done: seq<Gateway> := [];
    for j := 0 to |gs|
      invariant done == (if j <= i then gs[..j] else gs[..i] + gs[i + 1..j])
      invariant peers == AsPeers(done)
    {
      if i == j {
        continue;
      }
      peers := peers + [AsPeer(gs[j], gs[j].localSubnets)];
      done := done + [gs[j]];
    }
  }

  method CalculateMesh(gs: seq<Gateway>) returns (configs: seq<TunnelConfig>)
    ensures configs == MeshConfigs(gs)
  {
    configs := [];
    for i := 0 to |gs|
      invariant configs == MeshConfigs(gs)[..i]
    {
      var peers := MeshPeers(gs, i);
      configs := configs + [Config(gs[i], Numbered(i), peers)];
    }
  }

  // ---- Hub and spoke -----------------------------------------------------------

  /** The last gateway marked as hub. */
  function LastHub(gs: seq<Gateway>): Option<Gateway> {
    if gs == [] then None
    else if gs[|gs| - 1].isHub then Some(gs[|gs| - 1])
    else LastHub(gs[..|gs| - 1])
  }

  function NonHubs(gs: seq<Gateway>): seq<Gateway> {
    if gs == [] then []
    else
      var init := NonHubs(gs[..|gs| - 1]);
      if gs[|gs| - 1].isHub then init else init + [gs[|gs| - 1]]
  }

  /** The hub, with the first gateway as fallback. */
  function HubOf(gs: seq<Gateway>): Gateway
    requires gs != []
  {
    if LastHub(gs).Some? then LastHub(gs).value else gs[0]
  }

  function SpokesOf(gs: seq<Gateway>): seq<Gateway>
    requires gs != []
  {
    if LastHub(gs).Some? then NonHubs(gs) else gs[1..]
  }

  function Subnets(gs: seq<Gateway>): seq<Cidr> {
    if gs == [] then [] else Subnets(gs[..|gs| - 1]) + gs[|gs| - 1].localSubnets
  }

  function SpokeConfigs(hub: Gateway, spokes: seq<Gateway>, allowed: seq<Cidr>): seq<TunnelConfig> {
    seq(|spokes|, i requires 0 <= i < |spokes| => Config(spokes[i], Numbered(i), [AsPeer(hub, allowed)]))
  }

  function HubSpokeConfigs(gs: seq<Gateway>): seq<TunnelConfig> {
    if gs == [] then []
    else
      var hub, spokes := HubOf(gs), SpokesOf(gs);
      [Config(hub, HubInterface, AsPeers(spokes))]
      + SpokeConfigs(hub, spokes, hub.localSubnets + Subnets(spokes))
  }

  /** Picks the hub and the spokes. */
  method ChooseHub(gs: seq<Gateway>) returns (hub: Gateway, spokes: seq<Gateway>)
    requires gs != []
    ensures hub == HubOf(gs) && spokes == SpokesOf(gs)
  {
    var marked: Option<Gateway> := None;
    spokes := [];
    for i := 0 to |gs|
      invariant marked == LastHub(gs[..i]) && spokes == NonHubs(gs[..i])
    {
      assert gs[..i + 1][..i] == gs[..i];
      if gs[i].isHub {
        marked := Some(gs[i]);
      } else {
        spokes := spokes + [gs[i]];
      }
    }
    assert gs[..|gs|] == gs;
    if marked.None? {
      return gs[0], gs[1..];
    }
    hub := marked.value;
  }

  /** The hub's peers and, for the spokes, everything reachable through the hub. */
  method HubPeers(hub: Gateway, spokes: seq<Gateway>) returns (peers: seq<TunnelPeer>, allSubnets: seq<Cidr>)
    ensures peers == AsPeers(spokes) && allSubnets == hub.localSubnets + Subnets(spokes)
  {
    peers, allSubnets := [], hub.localSubnets;
    for i := 0 to |spokes|
      invariant peers == AsPeers(spokes[..i])
    {
      peers := peers + [AsPeer(spokes[i], spokes[i].localSubnets)];
    }
    for i := 0 to |spokes|
      invariant allSubnets == hub.localSubnets + Subnets(spokes[..i])
    {
      assert spokes[..i + 1][..i] == spokes[..i];
      allSubnets := allSubnets + spokes[i].localSubnets;
    }
    assert spokes[..|spokes|] == spokes;
  }

  method CalculateHubSpoke(gs: seq<Gateway>) returns (configs: seq<TunnelConfig>)
    ensures configs == HubSpokeConfigs(gs)
  {
    if |gs| == 0 {
      return [];
    }
    var hub, spokes := ChooseHub(gs);
    var peers, allSubnets := HubPeers(hub, spokes);
    configs := [Config(hub, HubInterface, peers)];
    ghost var spokeConfigs := SpokeConfigs(hub, spokes, allSubnets);
    for i := 0 to |spokes|
      invariant configs == [Config(hub, HubInterface, peers)] + spokeConfigs[..i]
    {
      configs := configs + [Config(spokes[i], Numbered(i), [AsPeer(hub, allSubnets)])];
    }
  }

  // ---- Following the allowed networks ------------------------------------------

  predicate DistinctIds(gs: seq<Gateway>) {
    forall i, j :: 0 <= i < j < |gs| ==> gs[i].id != gs[j].id
  }

  /** No address belongs to two gateways. */
  ghost predicate DisjointSubnets(gs: seq<Gateway>) {
    forall g <- gs, h <- gs, a: Addr :: InAny(a, g.localSubnets) && InAny(a, h.localSubnets) ==> g == h
  }

  predicate AtMostOneHub(gs: seq<Gateway>) {
    forall i, j :: 0 <= i < j < |gs| ==> !(gs[i].isHub && gs[j].isHub)
  }

  function ConfigOf(configs: seq<TunnelConfig>, id: string): Option<TunnelConfig> {
    if configs == [] then None
    else if configs[0].gatewayId == id then Some(configs[0])
    else ConfigOf(configs[1..], id)
  }

  /** The peers a gateway hands a packet for `dst` to. */
  predicate NextHop(c: TunnelConfig, dst: Addr, p: TunnelPeer) {
    p in c.peers && InAny(dst, p.allowedIPs)
  }

  /** A packet for `dst` that starts at `from` comes to a gateway with that subnet in at most `hops` tunnels. */
  ghost predicate Reaches(configs: seq<TunnelConfig>, from: string, dst: Addr, hops: nat)
    decreases hops
  {
    var c := ConfigOf(configs, from);
    c.Some? &&
    (|| InAny(dst, c.value.localSubnets)
     || (&& hops > 0
         && (exists p :: NextHop(c.value, dst, p))
         && (forall p :: NextHop(c.value, dst, p) ==> Reaches(configs, p.gatewayId, dst, hops - 1))))
  }

  /** Every gateway reaches every gateway's subnets. */
  ghost predicate Connected(gs: seq<Gateway>, configs: seq<TunnelConfig>, hops: nat) {
    forall from <- gs, owner <- gs, dst: Addr ::
      InAny(dst, owner.localSubnets) ==> Reaches(configs, from.id, dst, hops)
  }

  predicate Tunnel(configs: seq<TunnelConfig>, a: string, b: string) {
    var c := ConfigOf(configs, a);
    c.Some? && exists p <- c.value.peers :: p.gatewayId == b
  }

  /** The number of tunnel ends; every tunnel has two. */
  function TunnelEnds(configs: seq<TunnelConfig>): nat {
    if configs == [] then 0 else |configs[0].peers| + TunnelEnds(configs[1..])
  }

  lemma {:induction false} ConfigAt(configs: seq<TunnelConfig>, i: nat)
    requires i < |configs| && forall j :: 0 <= j < i ==> configs[j].gatewayId != configs[i].gatewayId
    ensures ConfigOf(configs, configs[i].gatewayId) == Some(configs[i])
  {
    if i > 0 {
      ConfigAt(configs[1..], i - 1);
    }
  }

  lemma {:induction false} ConfigListed(configs: seq<TunnelConfig>, id: string)
    ensures var c := ConfigOf(configs, id); c.Some? ==> c.value in configs && c.value.gatewayId == id
  {
    if configs != [] {
      ConfigListed(configs[1..], id);
    }
  }

  // ---- Mesh: one hop, symmetric, n(n-1)/2 tunnels --------------------------------

  lemma {:induction false} MeshConfigOf(gs: seq<Gateway>, i: nat)
    requires DistinctIds(gs) && i < |gs|
    ensures ConfigOf(MeshConfigs(gs), gs[i].id) == Some(MeshConfigs(gs)[i])
  {
    ConfigAt(MeshConfigs(gs), i);
  }

  /** The peers of gateway `i` are the other gateways, each with its own subnets. */
  lemma {:induction false} MeshPeerIsOther(gs: seq<Gateway>, i: nat, p: TunnelPeer) returns (j: nat)
    requires i < |gs| && p in MeshConfigs(gs)[i].peers
    ensures j < |gs| && j != i && p == AsPeer(gs[j], gs[j].localSubnets)
  {
    var others := gs[..i] + gs[i + 1..];
    var k :| 0 <= k < |others| && AsPeers(others)[k] == p;
    j := if k < i then k else k + 1;
  }

  lemma {:induction false} MeshOtherIsPeer(gs: seq<Gateway>, i: nat, j: nat)
    requires i < |gs| && j < |gs| && j != i
    ensures AsPeer(gs[j], gs[j].localSubnets) in MeshConfigs(gs)[i].peers
  {
    var others := gs[..i] + gs[i + 1..];
    var k := if j < i then j else j - 1;
    assert AsPeers(others)[k] == AsPeer(gs[j], gs[j].localSubnets);
  }

  /** Every configuration is its gateway's own, and names each other gateway with its key, endpoint and subnets. */
  lemma {:induction false} MeshFields(gs: seq<Gateway>, i: nat, j: nat)
    requires i < |gs| && j < |gs|
    ensures |MeshConfigs(gs)| == |gs| && MeshConfigs(gs)[i].gatewayId == gs[i].id
    ensures MeshConfigs(gs)[i].listenPort == gs[i].listenPort && MeshConfigs(gs)[i].localSubnets == gs[i].localSubnets
    ensures MeshConfigs(gs)[i].interfaceName == Numbered(i)
    ensures i != j ==>
              TunnelPeer(gs[j].id, gs[j].publicKey, gs[j].endpoint, gs[j].localSubnets, 25) in MeshConfigs(gs)[i].peers
  {
    if i != j {
      MeshOtherIsPeer(gs, i, j);
    }
  }

  /** In a mesh a packet for another gateway's subnet takes exactly one tunnel, to its owner. */
  lemma {:induction false} MeshReach(gs: seq<Gateway>, i: nat, j: nat, dst: Addr)
    requires DistinctIds(gs) && DisjointSubnets(gs)
    requires i < |gs| && j < |gs| && i != j && InAny(dst, gs[j].localSubnets)
    ensures Reaches(MeshConfigs(gs), gs[i].id, dst, 1)
    ensures !Reaches(MeshConfigs(gs), gs[i].id, dst, 0)
    ensures forall p :: NextHop(MeshConfigs(gs)[i], dst, p) <==> p == AsPeer(gs[j], gs[j].localSubnets)
  {
    var configs := MeshConfigs(gs);
    MeshConfigOf(gs, i);
    MeshConfigOf(gs, j);
    assert gs[i] in gs && gs[j] in gs;
    forall p
      ensures NextHop(configs[i], dst, p) <==> p == AsPeer(gs[j], gs[j].localSubnets)
    {
      MeshOtherIsPeer(gs, i, j);
      if NextHop(configs[i], dst, p) {
        var k := MeshPeerIsOther(gs, i, p);
        assert gs[k] in gs;
      }
    }
    assert Reaches(configs, gs[j].id, dst, 0);
    assert NextHop(configs[i], dst, AsPeer(gs[j], gs[j].localSubnets));
  }

  /** Any two different gateways have a tunnel, so peering is symmetric; none has one to itself. */
  lemma {:induction false} MeshTunnel(gs: seq<Gateway>, i: nat, j: nat)
    requires DistinctIds(gs) && i < |gs| && j < |gs|
    ensures Tunnel(MeshConfigs(gs), gs[i].id, gs[j].id) <==> i != j
  {
    var configs := MeshConfigs(gs);
    MeshConfigOf(gs, i);
    if i != j {
      MeshOtherIsPeer(gs, i, j);
      assert AsPeer(gs[j], gs[j].localSubnets).gatewayId == gs[j].id;
    } else if p :| p in configs[i].peers && p.gatewayId == gs[i].id {
      var _ := MeshPeerIsOther(gs, i, p);
    }
  }

  lemma {:induction false} EvenEnds(configs: seq<TunnelConfig>, k: nat)
    requires forall c <- configs :: |c.peers| == k
    ensures TunnelEnds(configs) == |configs| * k
  {
    if configs != [] {
      EvenEnds(configs[1..], k);
      assert configs[0] in configs;
      OneMore(|configs| - 1, k);
    }
  }

  lemma {:induction false} OneMore(n: nat, k: nat)
    ensures (n + 1) * k == n * k + k
  {
  }

  lemma {:induction false} MeshTunnels(gs: seq<Gateway>)
    ensures TunnelEnds(MeshConfigs(gs)) == |gs| * (|gs| - 1)
  {
    if gs != [] {
      EvenEnds(MeshConfigs(gs), |gs| - 1);
    }
  }

  // ---- Hub and spoke: two hops, symmetric, n-1 tunnels ---------------------------

  lemma {:induction false} NonHubsMembers(gs: seq<Gateway>, g: Gateway)
    ensures g in NonHubs(gs) <==> g in gs && !g.isHub
    ensures LastHub(gs).Some? <==> exists h <- gs :: h.isHub
    ensures LastHub(gs).Some? ==> LastHub(gs).value in gs && LastHub(gs).value.isHub
  {
    if gs != [] {
      var init, last := gs[..|gs| - 1], gs[|gs| - 1];
      assert gs == init + [last];
      NonHubsMembers(init, g);
    }
  }

  lemma {:induction false} NonHubsDistinct(gs: seq<Gateway>)
    requires DistinctIds(gs)
    ensures DistinctIds(NonHubs(gs))
  {
    if gs != [] {
      var init, last := gs[..|gs| - 1], gs[|gs| - 1];
      NonHubsDistinct(init);
      forall k | 0 <= k < |NonHubs(init)|
        ensures NonHubs(init)[k].id != last.id
      {
        NonHubsMembers(init, NonHubs(init)[k]);
        var m :| 0 <= m < |init| && init[m] == NonHubs(init)[k];
        assert gs[m].id != gs[|gs| - 1].id;
      }
    }
  }

  /** The hub is the last gateway that is marked, and all unmarked ones are spokes; unmarked, the first one leads. */
  lemma {:induction false} HubChoice(gs: seq<Gateway>, i: nat, g: Gateway)
    requires i < |gs| && forall j :: i < j < |gs| ==> !gs[j].isHub
    ensures gs[i].isHub ==> HubOf(gs) == gs[i] && (g in SpokesOf(gs) <==> g in gs && !g.isHub)
    ensures (forall h <- gs :: !h.isHub) ==> HubOf(gs) == gs[0] && SpokesOf(gs) == gs[1..]
  {
    NonHubsMembers(gs, g);
    if gs[i].isHub {
      assert gs[i] in gs;
      LastHubAt(gs, i);
    }
  }

  lemma {:induction false} LastHubAt(gs: seq<Gateway>, i: nat)
    requires i < |gs| && gs[i].isHub && forall j :: i < j < |gs| ==> !gs[j].isHub
    ensures LastHub(gs) == Some(gs[i])
  {
    if i < |gs| - 1 {
      LastHubAt(gs[..|gs| - 1], i);
    }
  }

  /** The hub names each spoke, and each spoke the hub, with key, endpoint and networks. */
  lemma {:induction false} HubSpokeFields(gs: seq<Gateway>, i: nat)
    requires gs != [] && i < |SpokesOf(gs)|
    ensures var hub, spokes, configs := HubOf(gs), SpokesOf(gs), HubSpokeConfigs(gs);
            var spoke := spokes[i];
            && |configs| == |spokes| + 1
            && configs[0].gatewayId == hub.id && configs[0].interfaceName == HubInterface
            && configs[0].listenPort == hub.listenPort && configs[0].localSubnets == hub.localSubnets
            && configs[0].peers[i] == TunnelPeer(spoke.id, spoke.publicKey, spoke.endpoint, spoke.localSubnets, 25)
            && configs[i + 1].gatewayId == spoke.id && configs[i + 1].interfaceName == Numbered(i)
            && configs[i + 1].listenPort == spoke.listenPort && configs[i + 1].localSubnets == spoke.localSubnets
            && configs[i + 1].peers
               == [TunnelPeer(hub.id, hub.publicKey, hub.endpoint, hub.localSubnets + Subnets(spokes), 25)]
  {
    var hub, spokes := HubOf(gs), SpokesOf(gs);
    var rest := SpokeConfigs(hub, spokes, hub.localSubnets + Subnets(spokes));
    assert HubSpokeConfigs(gs)[i + 1] == rest[i];
  }

  /** The gateways that get a configuration: the hub, then the spokes. */
  function Members(gs: seq<Gateway>): seq<Gateway>
    requires gs != []
  {
    [HubOf(gs)] + SpokesOf(gs)
  }

  lemma {:induction false} SameId(gs: seq<Gateway>, g: Gateway, h: Gateway)
    requires DistinctIds(gs) && g in gs && h in gs && g.id == h.id
    ensures g == h
  {
  }

  lemma {:induction false} MembersDistinct(gs: seq<Gateway>)
    requires DistinctIds(gs) && gs != []
    ensures DistinctIds(Members(gs)) && forall g <- Members(gs) :: g in gs
  {
    NonHubsDistinct(gs);
    var hub, spokes := HubOf(gs), SpokesOf(gs);
    NonHubsMembers(gs, hub);
    forall s | s in spokes
      ensures s in gs && s.id != hub.id
    {
      NonHubsMembers(gs, s);
    }
  }

  /** With at most one hub no gateway is left out. */
  lemma {:induction false} MembersAll(gs: seq<Gateway>, g: Gateway)
    requires DistinctIds(gs) && AtMostOneHub(gs) && g in gs
    ensures g in Members(gs)
  {
    NonHubsMembers(gs, g);
    NonHubsMembers(gs, HubOf(gs));
    if LastHub(gs).None? {
      assert gs == [gs[0]] + gs[1..];
    } else if g.isHub {
      var h := LastHub(gs).value;
      var i :| 0 <= i < |gs| && gs[i] == g;
      var j :| 0 <= j < |gs| && gs[j] == h;
    }
  }

  lemma {:induction false} HubConfigOf(gs: seq<Gateway>)
    requires gs != [] && DistinctIds(gs)
    ensures ConfigOf(HubSpokeConfigs(gs), HubOf(gs).id) == Some(HubSpokeConfigs(gs)[0])
  {
  }

  lemma {:induction false} ConfigIds(gs: seq<Gateway>, k: nat)
    requires gs != [] && k < |Members(gs)|
    ensures |HubSpokeConfigs(gs)| == |Members(gs)| && HubSpokeConfigs(gs)[k].gatewayId == Members(gs)[k].id
  {
    var hub, spokes := HubOf(gs), SpokesOf(gs);
    var rest := SpokeConfigs(hub, spokes, hub.localSubnets + Subnets(spokes));
    assert HubSpokeConfigs(gs) == [Config(hub, HubInterface, AsPeers(spokes))] + rest;
    if k > 0 {
      assert HubSpokeConfigs(gs)[k] == rest[k - 1] && Members(gs)[k] == spokes[k - 1];
      assert rest[k - 1].gatewayId == spokes[k - 1].id;
    }
  }

  lemma {:induction false} SpokeConfigOf(gs: seq<Gateway>, i: nat)
    requires gs != [] && DistinctIds(gs) && i < |SpokesOf(gs)|
    ensures ConfigOf(HubSpokeConfigs(gs), SpokesOf(gs)[i].id) == Some(HubSpokeConfigs(gs)[i + 1])
  {
    MembersDistinct(gs);
    var configs, members := HubSpokeConfigs(gs), Members(gs);
    ConfigIds(gs, i + 1);
    forall k | 0 <= k < i + 1
      ensures configs[k].gatewayId != configs[i + 1].gatewayId
    {
      ConfigIds(gs, k);
      assert members[k].id != members[i + 1].id;
    }
    ConfigAt(configs, i + 1);
  }

  lemma {:induction false} SubnetsCover(gs: seq<Gateway>, dst: Addr)
    ensures InAny(dst, Subnets(gs)) <==> exists g <- gs :: InAny(dst, g.localSubnets)
  {
    if gs != [] {
      var init, last := gs[..|gs| - 1], gs[|gs| - 1];
      assert gs == init + [last];
      SubnetsCover(init, dst);
      InAnyAppend(dst, Subnets(init), last.localSubnets);
    }
  }

  lemma {:induction false} InAnyAppend(a: Addr, c1: seq<Cidr>, c2: seq<Cidr>)
    ensures InAny(a, c1 + c2) <==> InAny(a, c1) || InAny(a, c2)
  {
  }

  /** The hub hands a packet for a spoke's subnet to that spoke and to nobody else. */
  lemma {:induction false} HubReach(gs: seq<Gateway>, owner: Gateway, dst: Addr)
    requires DistinctIds(gs) && DisjointSubnets(gs) && owner in gs && owner in Members(gs)
    requires InAny(dst, owner.localSubnets)
    ensures Reaches(HubSpokeConfigs(gs), HubOf(gs).id, dst, 1)
    ensures Reaches(HubSpokeConfigs(gs), owner.id, dst, 0)
  {
    var configs, hub, spokes := HubSpokeConfigs(gs), HubOf(gs), SpokesOf(gs);
    HubConfigOf(gs);
    if owner != hub {
      MembersDistinct(gs);
      var i :| 0 <= i < |spokes| && spokes[i] == owner;
      SpokeConfigOf(gs, i);
      assert NextHop(configs[0], dst, AsPeers(spokes)[i]);
      forall p | NextHop(configs[0], dst, p)
        ensures p.gatewayId == owner.id
      {
        var k :| 0 <= k < |spokes| && AsPeers(spokes)[k] == p;
        assert spokes[k] in Members(gs);
      }
    }
  }

  /** Every spoke sends whatever is not its own to the hub, whose networks cover all members. */
  lemma {:induction false} SpokeReach(gs: seq<Gateway>, i: nat, owner: Gateway, dst: Addr)
    requires DistinctIds(gs) && DisjointSubnets(gs) && owner in gs && owner in Members(gs)
    requires i < |SpokesOf(gs)| && InAny(dst, owner.localSubnets)
    ensures Reaches(HubSpokeConfigs(gs), SpokesOf(gs)[i].id, dst, 2)
  {
    var configs, hub, spokes := HubSpokeConfigs(gs), HubOf(gs), SpokesOf(gs);
    SpokeConfigOf(gs, i);
    HubReach(gs, owner, dst);
    SubnetsCover(spokes, dst);
    InAnyAppend(dst, hub.localSubnets, Subnets(spokes));
    var p := AsPeer(hub, hub.localSubnets + Subnets(spokes));
    assert configs[i + 1].peers == [p];
    assert NextHop(configs[i + 1], dst, p);
  }

  /** In a hub-and-spoke network every subnet is at most two tunnels away from every gateway. */
  lemma {:induction false} HubSpokeReach(gs: seq<Gateway>, from: Gateway, owner: Gateway, dst: Addr)
    requires DistinctIds(gs) && DisjointSubnets(gs) && AtMostOneHub(gs)
    requires from in gs && owner in gs && InAny(dst, owner.localSubnets)
    ensures Reaches(HubSpokeConfigs(gs), from.id, dst, 2)
  {
    MembersAll(gs, from);
    MembersAll(gs, owner);
    if from == HubOf(gs) {
      HubReach(gs, owner, dst);
      ReachesMore(HubSpokeConfigs(gs), from.id, dst, 1);
    } else {
      var i :| 0 <= i < |SpokesOf(gs)| && SpokesOf(gs)[i] == from;
      SpokeReach(gs, i, owner, dst);
    }
  }

  lemma {:induction false} ReachesMore(configs: seq<TunnelConfig>, from: string, dst: Addr, hops: nat)
    requires Reaches(configs, from, dst, hops)
    ensures Reaches(configs, from, dst, hops + 1)
    decreases hops
  {
    var c := ConfigOf(configs, from).value;
    if !InAny(dst, c.localSubnets) {
      forall p | NextHop(c, dst, p)
        ensures Reaches(configs, p.gatewayId, dst, hops)
      {
        ReachesMore(configs, p.gatewayId, dst, hops - 1);
      }
    }
  }

  /**
   A second hub gets no configuration at all: as soon as there is a subnet to reach, reachability
   needs at most one hub.
   */
  lemma {:induction false} HubSpokeReachExactly(gs: seq<Gateway>)
    requires DistinctIds(gs) && DisjointSubnets(gs)
    ensures Connected(gs, HubSpokeConfigs(gs), 2) <==> AtMostOneHub(gs) || forall g <- gs :: g.localSubnets == []
  {
    if AtMostOneHub(gs) {
      forall from <- gs, owner <- gs, dst: Addr | InAny(dst, owner.localSubnets)
        ensures Reaches(HubSpokeConfigs(gs), from.id, dst, 2)
      {
        HubSpokeReach(gs, from, owner, dst);
      }
    } else if owner :| owner in gs && owner.localSubnets != [] {
      var lost := LeftOut(gs);
      var dst := owner.localSubnets[0].base;
      assert InCidr(dst, owner.localSubnets[0]) && InAny(dst, owner.localSubnets);
      assert !Reaches(HubSpokeConfigs(gs), lost.id, dst, 2);
    }
  }

  lemma {:induction false} LeftOut(gs: seq<Gateway>) returns (lost: Gateway)
    requires DistinctIds(gs) && !AtMostOneHub(gs)
    ensures lost in gs && ConfigOf(HubSpokeConfigs(gs), lost.id).None?
  {
    var i, j :| 0 <= i < j < |gs| && gs[i].isHub && gs[j].isHub;
    lost := if HubOf(gs) == gs[i] then gs[j] else gs[i];
    NonHubsMembers(gs, lost);
    if ConfigOf(HubSpokeConfigs(gs), lost.id).Some? {
      var m := ConfiguredMember(gs, lost.id);
      MembersDistinct(gs);
      SameId(gs, m, lost);
    }
  }

  lemma {:induction false} ConfiguredMember(gs: seq<Gateway>, id: string) returns (m: Gateway)
    requires gs != [] && ConfigOf(HubSpokeConfigs(gs), id).Some?
    ensures m in Members(gs) && m.id == id
  {
    var configs, members := HubSpokeConfigs(gs), Members(gs);
    ConfigListed(configs, id);
    var k :| 0 <= k < |configs| && configs[k].gatewayId == id;
    ConfigIds(gs, 0);
    ConfigIds(gs, k);
    m := members[k];
  }

  lemma {:induction false} HubTunnel(gs: seq<Gateway>, b: Gateway)
    requires gs != [] && DistinctIds(gs) && b in Members(gs)
    ensures Tunnel(HubSpokeConfigs(gs), HubOf(gs).id, b.id) <==> b != HubOf(gs)
  {
    var configs, hub, spokes := HubSpokeConfigs(gs), HubOf(gs), SpokesOf(gs);
    HubConfigOf(gs);
    if b != hub {
      var i :| 0 <= i < |spokes| && spokes[i] == b;
      assert AsPeers(spokes)[i] in configs[0].peers;
    } else {
      MembersDistinct(gs);
      forall p | p in configs[0].peers
        ensures p.gatewayId != hub.id
      {
        var k :| 0 <= k < |spokes| && AsPeers(spokes)[k] == p;
        assert Members(gs)[0].id != Members(gs)[k + 1].id;
      }
    }
  }

  lemma {:induction false} SpokeTunnel(gs: seq<Gateway>, i: nat, b: Gateway)
    requires gs != [] && DistinctIds(gs) && i < |SpokesOf(gs)| && b in Members(gs)
    ensures Tunnel(HubSpokeConfigs(gs), SpokesOf(gs)[i].id, b.id) <==> b == HubOf(gs)
  {
    var configs, hub, spokes := HubSpokeConfigs(gs), HubOf(gs), SpokesOf(gs);
    SpokeConfigOf(gs, i);
    var p := AsPeer(hub, hub.localSubnets + Subnets(spokes));
    assert configs[i + 1].peers == [p];
    assert p in configs[i + 1].peers;
    SameIdInMembers(gs, b);
  }

  /** Tunnels are the hub-spoke pairs, in both directions. */
  lemma {:induction false} HubSpokeTunnel(gs: seq<Gateway>, a: Gateway, b: Gateway)
    requires gs != [] && DistinctIds(gs) && a in Members(gs) && b in Members(gs)
    ensures Tunnel(HubSpokeConfigs(gs), a.id, b.id) <==> (a == HubOf(gs)) != (b == HubOf(gs))
  {
    if a == HubOf(gs) {
      HubTunnel(gs, b);
    } else {
      var i :| 0 <= i < |SpokesOf(gs)| && SpokesOf(gs)[i] == a;
      SpokeTunnel(gs, i, b);
    }
  }

  lemma {:induction false} SameIdInMembers(gs: seq<Gateway>, b: Gateway)
    requires gs != [] && DistinctIds(gs) && b in Members(gs)
    ensures b.id == HubOf(gs).id <==> b == HubOf(gs)
  {
    MembersDistinct(gs);
    assert Members(gs)[0] in Members(gs);
  }

  lemma {:induction false} NonHubsCount(gs: seq<Gateway>)
    requires AtMostOneHub(gs)
    ensures |NonHubs(gs)| == if LastHub(gs).Some? then |gs| - 1 else |gs|
  {
    if gs != [] {
      var init := gs[..|gs| - 1];
      NonHubsCount(init);
      if gs[|gs| - 1].isHub && LastHub(init).Some? {
        NonHubsMembers(init, gs[0]);
      }
    }
  }

  lemma {:induction false} HubSpokeTunnels(gs: seq<Gateway>)
    requires gs != [] && AtMostOneHub(gs)
    ensures TunnelEnds(HubSpokeConfigs(gs)) == 2 * (|gs| - 1)
  {
    NonHubsCount(gs);
    var configs := HubSpokeConfigs(gs);
    EvenEnds(configs[1..], 1);
  }

  // ---- The calculation as a whole ------------------------------------------------

  /** How many tunnels a packet needs at most. */
  function MaxHops(kind: Kind): nat {
    if kind == Mesh then 1 else 2
  }

  lemma {:induction false} MeshPair(gs: seq<Gateway>, i: nat, j: nat, dst: Addr)
    requires DistinctIds(gs) && DisjointSubnets(gs) && i < |gs| && j < |gs| && InAny(dst, gs[j].localSubnets)
    ensures Reaches(MeshConfigs(gs), gs[i].id, dst, 1)
  {
    if i == j {
      MeshConfigOf(gs, i);
    } else {
      MeshReach(gs, i, j, dst);
    }
  }

  lemma {:induction false} MeshConnected(gs: seq<Gateway>)
    requires DistinctIds(gs) && DisjointSubnets(gs)
    ensures Connected(gs, MeshConfigs(gs), 1)
  {
    forall from <- gs, owner <- gs, dst: Addr | InAny(dst, owner.localSubnets)
      ensures Reaches(MeshConfigs(gs), from.id, dst, 1)
    {
      var i :| 0 <= i < |gs| && gs[i] == from;
      var j :| 0 <= j < |gs| && gs[j] == owner;
      MeshPair(gs, i, j, dst);
    }
  }

  /** Either topology connects all gateways; an unknown kind yields nothing. */
  method CalculateTopology(kind: Kind, gs: seq<Gateway>) returns (configs: seq<TunnelConfig>)
    ensures configs == match kind case Mesh => MeshConfigs(gs) case HubSpoke => HubSpokeConfigs(gs) case Unknown => []
    ensures kind != Unknown && DistinctIds(gs) && DisjointSubnets(gs) && (kind == Mesh || AtMostOneHub(gs)) ==>
              Connected(gs, configs, MaxHops(kind))
  {
    match kind
    case Mesh =>
      configs := CalculateMesh(gs);
      if DistinctIds(gs) && DisjointSubnets(gs) {
        MeshConnected(gs);
      }
    case HubSpoke =>
      configs := CalculateHubSpoke(gs);
      if DistinctIds(gs) && DisjointSubnets(gs) && AtMostOneHub(gs) {
        forall from <- gs, owner <- gs, dst: Addr | InAny(dst, owner.localSubnets)
          ensures Reaches(configs, from.id, dst, 2)
        {
          HubSpokeReach(gs, from, owner, dst);
        }
      }
    case Unknown =>
      configs := [];
  }
}
