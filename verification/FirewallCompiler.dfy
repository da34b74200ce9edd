/**
 The ZTNA decision: which device addresses a gateway has to block, computed from the trust
 configuration, the latest posture of each device and the deny/restrict policies.
 */
module Ztna {
  import opened Common
  import opened Addressing

  datatype Posture = Posture(
    ip: Addr, networkId: string, trustScore: int, trustLevel: string,
    diskEncrypted: bool, screenLock: bool, antivirus: bool, firewall: bool, mfaEnabled: bool)

  datatype Conditions = Conditions(
    minTrustScore: Option<int>,
    requireDiskEncryption: Option<bool>, requireScreenLock: Option<bool>, requireAntivirus: Option<bool>,
    requireFirewall: Option<bool>, requireMFA: Option<bool>)

  /** An active deny or restrict policy row; `conditions` is None when its JSON does not parse. */
  datatype Policy = Policy(conditions: Option<Conditions>, networkIds: seq<string>)

  datatype TrustConfig = TrustConfig(autoRestrict: bool, autoBlock: bool)

  // ---- What blocking means -----------------------------------------------------

  /** A demanded property the device does not have. */
  predicate Lacks(demand: Option<bool>, has: bool) {
    demand == Some(true) && !has
  }

  predicate Violates(c: Conditions, p: Posture) {
    || (c.minTrustScore.Some? && p.trustScore < c.minTrustScore.value)
    || Lacks(c.requireDiskEncryption, p.diskEncrypted)
    || Lacks(c.requireScreenLock, p.screenLock)
    || Lacks(c.requireAntivirus, p.antivirus)
    || Lacks(c.requireFirewall, p.firewall)
    || Lacks(c.requireMFA, p.mfaEnabled)
  }

  predicate AppliesTo(pol: Policy, p: Posture) {
    pol.networkIds == [] || p.networkId in pol.networkIds
  }

  predicate Denies(pol: Policy, p: Posture) {
    pol.conditions.Some? && AppliesTo(pol, p) && Violates(pol.conditions.value, p)
  }

  predicate AutoBlocks(cfg: TrustConfig, p: Posture) {
    || (cfg.autoBlock && p.trustLevel in {"critical", "low"})
    || (cfg.autoRestrict && p.trustLevel == "critical")
  }

  /** The posture that counts for an address: that of its last row. */
  function PostureOf(rows: seq<Posture>, ip: Addr): Option<Posture> {
    if rows == [] then None
    else if rows[|rows| - 1].ip == ip then Some(rows[|rows| - 1])
    else PostureOf(rows[..|rows| - 1], ip)
  }

  /** The posture that counts is that of the last row with the address, and there is one iff there is a row. */
  lemma {:induction false} PostureOfLast(rows: seq<Posture>, ip: Addr, i: nat)
    requires i <= |rows| && forall j :: i < j < |rows| ==> rows[j].ip != ip
    ensures i < |rows| && rows[i].ip == ip ==> PostureOf(rows, ip) == Some(rows[i])
    ensures PostureOf(rows, ip).Some? <==> exists r <- rows :: r.ip == ip
  {
    if rows != [] {
      var init, last := rows[..|rows| - 1], rows[|rows| - 1];
      assert rows == init + [last];
      if last.ip != ip {
        PostureOfLast(init, ip, if i < |init| then i else |init|);
      }
    }
  }

  /** Each condition is about one property of the device, and only a demanded one counts. */
  lemma {:induction false} ViolationsOneByOne(c: Conditions, p: Posture)
    ensures c.minTrustScore.Some? && p.trustScore < c.minTrustScore.value ==> Violates(c, p)
    ensures c.requireDiskEncryption == Some(true) && !p.diskEncrypted ==> Violates(c, p)
    ensures c.requireScreenLock == Some(true) && !p.screenLock ==> Violates(c, p)
    ensures c.requireAntivirus == Some(true) && !p.antivirus ==> Violates(c, p)
    ensures c.requireFirewall == Some(true) && !p.firewall ==> Violates(c, p)
    ensures c.requireMFA == Some(true) && !p.mfaEnabled ==> Violates(c, p)
    ensures Violates(c, p) ==>
              || (c.minTrustScore.Some? && p.trustScore < c.minTrustScore.value)
              || (c.requireDiskEncryption == Some(true) && !p.diskEncrypted)
              || (c.requireScreenLock == Some(true) && !p.screenLock)
              || (c.requireAntivirus == Some(true) && !p.antivirus)
              || (c.requireFirewall == Some(true) && !p.firewall)
              || (c.requireMFA == Some(true) && !p.mfaEnabled)
  {
  }

  /** Blocking takes critical and low devices, restricting only critical ones, and neither any other. */
  lemma {:induction false} TrustLevels(p: Posture)
    ensures AutoBlocks(TrustConfig(false, true), p) <==> p.trustLevel == "critical" || p.trustLevel == "low"
    ensures AutoBlocks(TrustConfig(true, false), p) <==> p.trustLevel == "critical"
    ensures AutoBlocks(TrustConfig(true, true), p) <==> p.trustLevel == "critical" || p.trustLevel == "low"
    ensures !AutoBlocks(TrustConfig(false, false), p)
  {
  }

  /** A policy without networks is for all of them; one whose conditions do not parse is for none. */
  lemma {:induction false} PolicyScope(c: Conditions, n: string, p: Posture)
    ensures Denies(Policy(Some(c), []), p) <==> Violates(c, p)
    ensures Denies(Policy(Some(c), [n]), p) <==> p.networkId == n && Violates(c, p)
    ensures !Denies(Policy(None, [n]), p) && !Denies(Policy(None, []), p)
  {
  }

  ghost predicate Blocked(cfg: TrustConfig, postures: seq<Posture>, policies: seq<Policy>, ip: Addr) {
    var p := PostureOf(postures, ip);
    p.Some? && (AutoBlocks(cfg, p.value) || exists pol <- policies :: Denies(pol, p.value))
  }

  /** One reason is enough, and without a posture or a reason nobody is blocked. */
  lemma {:induction false} BlockedMeaning(cfg: TrustConfig, rows: seq<Posture>, policies: seq<Policy>,
                                          i: nat, pol: Policy)
    requires i < |rows| && forall j :: i < j < |rows| ==> rows[j].ip != rows[i].ip
    ensures pol in policies && Denies(pol, rows[i]) ==> Blocked(cfg, rows, policies, rows[i].ip)
    ensures AutoBlocks(cfg, rows[i]) ==> Blocked(cfg, rows, policies, rows[i].ip)
    ensures !AutoBlocks(cfg, rows[i]) && (forall q <- policies :: !Denies(q, rows[i])) ==>
              !Blocked(cfg, rows, policies, rows[i].ip)
  {
    PostureOfLast(rows, rows[i].ip, i);
  }

  lemma {:induction false} NoPostureNoBlock(cfg: TrustConfig, rows: seq<Posture>, policies: seq<Policy>, ip: Addr)
    requires forall r <- rows :: r.ip != ip
    ensures !Blocked(cfg, rows, policies, ip)
  {
    PostureOfLast(rows, ip, |rows|);
  }

  // ---- How the core computes it ------------------------------------------------

  method CollectPostures(rows: seq<Posture>) returns (postures: map<Addr, Posture>)
    ensures forall ip: Addr :: PostureOf(rows, ip) == if ip in postures then Some(postures[ip]) else None
  {
    postures := map[];
    for i := 0 to |rows|
      invariant forall ip: Addr ::
          PostureOf(rows[..i], ip) == if ip in postures then Some(postures[ip]) else None
    {
      assert rows[..i + 1][..i] == rows[..i];
      postures := postures[rows[i].ip := rows[i]];
    }
    assert rows[..|rows|] == rows;
  }

  /** The condition checks of one policy against one device, one after the other. */
  method EvaluateConditions(c: Conditions, p: Posture) returns (failed: bool)
    ensures failed == Violates(c, p)
  {
    failed := false;
    if c.minTrustScore.Some? && p.trustScore < c.minTrustScore.value {
      failed := true;
    }
    ghost var before := failed;
    if c.requireDiskEncryption.Some? && c.requireDiskEncryption.value && !p.diskEncrypted {
      failed := true;
    }
    assert failed == (before || Lacks(c.requireDiskEncryption, p.diskEncrypted));
    before := failed;
    if c.requireScreenLock.Some? && c.requireScreenLock.value && !p.screenLock {
      failed := true;
    }
    assert failed == (before || Lacks(c.requireScreenLock, p.screenLock));
    before := failed;
    if c.requireAntivirus.Some? && c.requireAntivirus.value && !p.antivirus {
      failed := true;
    }
    assert failed == (before || Lacks(c.requireAntivirus, p.antivirus));
    before := failed;
    if c.requireFirewall.Some? && c.requireFirewall.value && !p.firewall {
      failed := true;
    }
    assert failed == (before || Lacks(c.requireFirewall, p.firewall));
    before := failed;
    if c.requireMFA.Some? && c.requireMFA.value && !p.mfaEnabled {
      failed := true;
    }
    assert failed == (before || Lacks(c.requireMFA, p.mfaEnabled));
  }

  method AutoBlock(cfg: TrustConfig, postures: map<Addr, Posture>) returns (blocked: set<Addr>)
    ensures forall ip: Addr :: ip in blocked <==> ip in postures && AutoBlocks(cfg, postures[ip])
  {
    blocked := {};
    if cfg.autoRestrict || cfg.autoBlock {
      var rest := postures.Keys;
      while rest != {}
        invariant rest <= postures.Keys
        invariant forall ip: Addr :: ip in blocked <==> ip in postures && ip !in rest && AutoBlocks(cfg, postures[ip])
        decreases |rest|
      {
        var ip :| ip in rest;
        rest := rest - {ip};
        var p := postures[ip];
        if cfg.autoBlock && (p.trustLevel == "critical" || p.trustLevel == "low") {
          blocked := blocked + {ip};
        } else if cfg.autoRestrict && p.trustLevel == "critical" {
          blocked := blocked + {ip};
        }
      }
    }
  }

  /** One policy against one device: the network filter, then the conditions. */
  method EvaluatePolicy(pol: Policy, c: Conditions, p: Posture) returns (denied: bool)
    requires pol.conditions == Some(c)
    ensures denied == Denies(pol, p)
  {
    var netFilter := set n | n in pol.networkIds;
    assert netFilter == {} <==> pol.networkIds == [] by {
      if pol.networkIds != [] {
        assert pol.networkIds[0] in netFilter;
      }
    }
    if |netFilter| > 0 && p.networkId !in netFilter {
      return false;
    }
    denied := EvaluateConditions(c, p);
  }

  /** One policy over all postures, in any order, skipping the devices that are blocked already. */
  method EnforcePolicy(pol: Policy, postures: map<Addr, Posture>, before: set<Addr>) returns (blocked: set<Addr>)
    ensures forall ip: Addr :: ip in blocked <==> ip in before || (ip in postures && Denies(pol, postures[ip]))
  {
    blocked := before;
    if pol.conditions.None? {
      return;
    }
    var rest := postures.Keys;
    while rest != {}
      invariant rest <= postures.Keys
      invariant forall ip: Addr :: ip in blocked <==>
          ip in before || (ip in postures && ip !in rest && Denies(pol, postures[ip]))
      decreases |rest|
    {
      var ip :| ip in rest;
      rest := rest - {ip};
      if ip in blocked {
        continue;
      }
      var failed := EvaluatePolicy(pol, pol.conditions.value, postures[ip]);
      if failed {
        blocked := blocked + {ip};
      }
    }
  }

  /** The whole ZTNA pass computes exactly the declarative set, for any policy and map order. */
  method ComputeBlocked(cfg: TrustConfig, rows: seq<Posture>, policies: seq<Policy>) returns (blocked: set<Addr>)
    ensures forall ip: Addr :: ip in blocked <==> Blocked(cfg, rows, policies, ip)
  {
    var postures := CollectPostures(rows);
    blocked := AutoBlock(cfg, postures);
    for i := 0 to |policies|
      invariant forall ip: Addr :: ip in blocked <==>
          ip in postures &&
          (AutoBlocks(cfg, postures[ip]) || exists pol <- policies[..i] :: Denies(pol, postures[ip]))
    {
      blocked := EnforcePolicy(policies[i], postures, blocked);
      assert policies[..i + 1] == policies[..i] + [policies[i]];
    }
    assert policies[..|policies|] == policies;
  }

  // ---- Order and monotonicity --------------------------------------------------

  /** `tight` demands everything `loose` demands. */
  predicate AtLeast(tight: Option<bool>, loose: Option<bool>) {
    loose == Some(true) ==> tight == Some(true)
  }

  predicate Tightens(tight: Conditions, loose: Conditions) {
    && (loose.minTrustScore.Some? ==>
          tight.minTrustScore.Some? && loose.minTrustScore.value <= tight.minTrustScore.value)
    && AtLeast(tight.requireDiskEncryption, loose.requireDiskEncryption)
    && AtLeast(tight.requireScreenLock, loose.requireScreenLock)
    && AtLeast(tight.requireAntivirus, loose.requireAntivirus)
    && AtLeast(tight.requireFirewall, loose.requireFirewall)
    && AtLeast(tight.requireMFA, loose.requireMFA)
  }

  /** `b` covers every device that `a` covers and demands at least as much of it. */
  predicate Covers(b: Policy, a: Policy) {
    a.conditions.Some? ==>
      && b.conditions.Some? && Tightens(b.conditions.value, a.conditions.value)
      && (b.networkIds == [] || (a.networkIds != [] && forall n <- a.networkIds :: n in b.networkIds))
  }

  /** Adding, reordering or tightening policies never unblocks a device. */
  lemma {:induction false} BlockingMonotone(cfg: TrustConfig, rows: seq<Posture>,
                                            before: seq<Policy>, after: seq<Policy>, ip: Addr)
    requires forall a <- before :: exists b <- after :: Covers(b, a)
    requires Blocked(cfg, rows, before, ip)
    ensures Blocked(cfg, rows, after, ip)
  {
  }

  /** The order of the policy rows does not matter. */
  lemma {:induction false} BlockingIgnoresOrder(cfg: TrustConfig, rows: seq<Posture>,
                                                ps: seq<Policy>, qs: seq<Policy>, ip: Addr)
    requires multiset(ps) == multiset(qs)
    ensures Blocked(cfg, rows, ps, ip) == Blocked(cfg, rows, qs, ip)
  {
    forall pol
      ensures pol in ps <==> pol in qs
    {
      assert pol in multiset(ps) <==> pol in multiset(qs);
    }
  }
}

/**
 The firewall compiler: ACL rows, device rows and the ZTNA-blocked set become an ordered list
 of ACCEPT and DROP rules that a gateway evaluates first match first.
 */
module FirewallCompiler {
  import opened Common
  import opened Addressing
  import opened Ztna

  datatype Action = Unspecified | Accept | Drop

  /** A rule; an absent source, destination, protocol or port is an empty string on the wire. */
  datatype Rule = Rule(
    source: Option<Cidr>, destination: Option<Cidr>, protocol: Option<string>, port: Option<string>, action: Action)

  datatype AclRow = AclRow(ip: Addr, allowed: Cidr)

  datatype DeviceRow = DeviceRow(ip: Addr, pubkey: string)

  datatype Packet = Packet(src: Addr, dst: Addr, protocol: string, port: string, established: bool)

  // ---- First-match semantics ---------------------------------------------------

  predicate Matches(r: Rule, p: Packet) {
    && (r.source.Some? ==> InCidr(p.src, r.source.value))
    && (r.destination.Some? ==> InCidr(p.dst, r.destination.value))
    && (r.protocol.Some? ==> r.protocol.value == p.protocol && (r.port.Some? ==> r.port.value == p.port))
  }

  /** The action of the first matching rule; None when the packet falls through. */
  function FirstMatch(rules: seq<Rule>, p: Packet): Option<Action> {
    if rules == [] then None
    else if Matches(rules[0], p) then Some(rules[0].action)
    else FirstMatch(rules[1..], p)
  }

  /** Exactly the first matching rule decides. */
  lemma {:induction false} FirstMatchDecides(rules: seq<Rule>, p: Packet, i: nat)
    requires i <= |rules| && forall j :: 0 <= j < i ==> !Matches(rules[j], p)
    ensures i < |rules| && Matches(rules[i], p) ==> FirstMatch(rules, p) == Some(rules[i].action)
    ensures i == |rules| ==> FirstMatch(rules, p) == None
  {
    if i > 0 {
      FirstMatchDecides(rules[1..], p, i - 1);
    }
  }

  /** What a rule leaves out it does not ask for; a port counts only with a protocol. */
  lemma {:induction false} MatchesFields(s: Cidr, d: Cidr, proto: string, port: string, a: Action, p: Packet)
    ensures Matches(Rule(None, None, None, None, a), p)
    ensures Matches(Rule(Some(s), None, None, None, a), p) <==> InCidr(p.src, s)
    ensures Matches(Rule(None, Some(d), None, None, a), p) <==> InCidr(p.dst, d)
    ensures Matches(Rule(Some(s), Some(d), None, Some(port), a), p) <==> InCidr(p.src, s) && InCidr(p.dst, d)
    ensures Matches(Rule(Some(s), Some(d), Some(proto), Some(port), a), p) <==>
            InCidr(p.src, s) && InCidr(p.dst, d) && p.protocol == proto && p.port == port
  {
  }

  /** A rule the gateway will install. */
  predicate Installable(r: Rule) {
    r.source.Some? && r.action != Unspecified
  }

  function AcceptRule(ip: Addr, dst: Cidr): Rule {
    Rule(Some(Host(ip)), Some(dst), None, None, Accept)
  }

  function DropRule(ip: Addr): Rule {
    Rule(Some(Host(ip)), None, None, None, Drop)
  }

  // ---- What the rules have to mean ---------------------------------------------

  predicate Listed(acls: seq<AclRow>, devices: seq<DeviceRow>, ip: Addr) {
    (exists r <- acls :: r.ip == ip) || (exists d <- devices :: d.ip == ip)
  }

  predicate Allowed(acls: seq<AclRow>, p: Packet) {
    exists r <- acls :: r.ip == p.src && InCidr(p.dst, r.allowed)
  }

  /** The verdict the access policy asks for; None leaves the packet to the rest of the host's firewall. */
  ghost function Intended(acls: seq<AclRow>, devices: seq<DeviceRow>, blocked: set<Addr>, p: Packet): Option<Action> {
    if !Listed(acls, devices, p.src) then None
    else if p.src !in blocked && Allowed(acls, p) then Some(Accept)
    else Some(Drop)
  }

  // ---- The compiler ------------------------------------------------------------

  lemma {:induction false} FirstMatchAppend(r1: seq<Rule>, r2: seq<Rule>, p: Packet)
    ensures FirstMatch(r1 + r2, p) == if FirstMatch(r1, p).Some? then FirstMatch(r1, p) else FirstMatch(r2, p)
  {
    if r1 == [] {
      assert r1 + r2 == r2;
    } else {
      assert (r1 + r2)[1..] == r1[1..] + r2;
      FirstMatchAppend(r1[1..], r2, p);
    }
  }

  lemma {:induction false} HostMatches(a: Addr, ip: Addr)
    ensures InCidr(a, Host(ip)) <==> a == ip
  {
  }

  /** The sources that some rule drops. */
  function DroppedSources(rules: seq<Rule>): set<Addr> {
    if rules == [] then {}
    else
      var last := rules[|rules| - 1];
      DroppedSources(rules[..|rules| - 1])
      + if last.action == Drop && last.source.Some? then {last.source.value.base} else {}
  }

  lemma {:induction false} DroppedExactly(rules: seq<Rule>, ip: Addr)
    ensures ip in DroppedSources(rules) <==>
            exists r <- rules :: r.action == Drop && r.source.Some? && r.source.value.base == ip
  {
    if rules != [] {
      assert rules == rules[..|rules| - 1] + [rules[|rules| - 1]];
      DroppedExactly(rules[..|rules| - 1], ip);
    }
  }

  lemma {:induction false} DroppedAppend(r1: seq<Rule>, r2: seq<Rule>)
    ensures DroppedSources(r1 + r2) == DroppedSources(r1) + DroppedSources(r2)
  {
    if r2 == [] {
      assert r1 + r2 == r1;
    } else {
      assert (r1 + r2)[..|r1 + r2| - 1] == r1 + r2[..|r2| - 1];
      DroppedAppend(r1, r2[..|r2| - 1]);
    }
  }

  method GroupAcls(acls: seq<AclRow>) returns (deviceACLs: map<Addr, seq<Cidr>>)
    ensures forall ip: Addr, c: Cidr ::
        (ip in deviceACLs && c in deviceACLs[ip]) <==> AclRow(ip, c) in acls
    ensures forall ip <- deviceACLs :: deviceACLs[ip] != []
  {
    deviceACLs := map[];
    for i := 0 to |acls|
      invariant forall ip: Addr, c: Cidr ::
          (ip in deviceACLs && c in deviceACLs[ip]) <==> AclRow(ip, c) in acls[..i]
      invariant forall ip <- deviceACLs :: deviceACLs[ip] != []
    {
      var row := acls[i];
      var known := if row.ip in deviceACLs then deviceACLs[row.ip] else [];
      ghost var was := deviceACLs;
      deviceACLs := deviceACLs[row.ip := known + [row.allowed]];
      assert acls[..i + 1] == acls[..i] + [row];
      forall ip: Addr, c: Cidr
        ensures (ip in deviceACLs && c in deviceACLs[ip]) <==> AclRow(ip, c) in acls[..i + 1]
      {
        assert (ip in was && c in was[ip]) <==> AclRow(ip, c) in acls[..i];
      }
    }
    assert acls[..|acls|] == acls;
  }

  /** What the rules of one device have to decide; they say nothing about other sources. */
  function DeviceVerdict(ip: Addr, blocked: bool, cidrs: seq<Cidr>, p: Packet): Option<Action> {
    if p.src != ip then None
    else if !blocked && InAny(p.dst, cidrs) then Some(Accept)
    else Some(Drop)
  }

  function AcceptRules(ip: Addr, cidrs: seq<Cidr>): seq<Rule> {
    seq(|cidrs|, i requires 0 <= i < |cidrs| => AcceptRule(ip, cidrs[i]))
  }

  lemma {:induction false} AcceptRulesMatch(ip: Addr, cidrs: seq<Cidr>, p: Packet)
    ensures FirstMatch(AcceptRules(ip, cidrs), p) == if p.src == ip && InAny(p.dst, cidrs) then Some(Accept) else None
  {
    if cidrs != [] {
      HostMatches(p.src, ip);
      assert cidrs == [cidrs[0]] + cidrs[1..];
      assert AcceptRules(ip, cidrs)[1..] == AcceptRules(ip, cidrs[1..]);
      AcceptRulesMatch(ip, cidrs[1..], p);
    }
  }

  lemma {:induction false} DeviceRulesDrop(ip: Addr, cidrs: seq<Cidr>)
    ensures DroppedSources([DropRule(ip)]) == {ip}
    ensures DroppedSources(AcceptRules(ip, cidrs)) == {}
    ensures DroppedSources(AcceptRules(ip, cidrs) + [DropRule(ip)]) == {ip}
  {
    assert DroppedSources([DropRule(ip)][..0]) == {};
    if cidrs != [] {
      var init := cidrs[..|cidrs| - 1];
      DeviceRulesDrop(ip, init);
      assert AcceptRules(ip, cidrs)[..|init|] == AcceptRules(ip, init);
    }
    DroppedAppend(AcceptRules(ip, cidrs), [DropRule(ip)]);
  }

  lemma {:induction false} DeviceRulesMatch(ip: Addr, cidrs: seq<Cidr>, p: Packet)
    ensures FirstMatch([DropRule(ip)], p) == DeviceVerdict(ip, true, cidrs, p)
    ensures FirstMatch(AcceptRules(ip, cidrs) + [DropRule(ip)], p) == DeviceVerdict(ip, false, cidrs, p)
  {
    HostMatches(p.src, ip);
    AcceptRulesMatch(ip, cidrs, p);
    FirstMatchAppend(AcceptRules(ip, cidrs), [DropRule(ip)], p);
  }

  /** The rules of one device with ACL entries. */
  method DeviceRules(ip: Addr, cidrs: seq<Cidr>, blocked: bool) returns (rules: seq<Rule>)
    ensures forall p: Packet :: FirstMatch(rules, p) == DeviceVerdict(ip, blocked, cidrs, p)
    ensures forall r <- rules :: Installable(r)
    ensures DroppedSources(rules) == {ip}
  {
    rules := [];
    DeviceRulesDrop(ip, cidrs);
    if blocked {
      rules := rules + [DropRule(ip)];
    } else {
      for i := 0 to |cidrs|
        invariant rules == AcceptRules(ip, cidrs[..i])
      {
        rules := rules + [AcceptRule(ip, cidrs[i])];
      }
      assert cidrs[..|cidrs|] == cidrs;
      rules := rules + [DropRule(ip)];
    }
    forall p: Packet
      ensures FirstMatch(rules, p) == DeviceVerdict(ip, blocked, cidrs, p)
    {
      DeviceRulesMatch(ip, cidrs, p);
    }
  }

  /** What the rules for the devices in `done` decide, given their ACL entries. */
  function AclVerdicts(deviceACLs: map<Addr, seq<Cidr>>, blocked: set<Addr>, done: set<Addr>,
                       p: Packet): Option<Action> {
    if p.src in deviceACLs && p.src in done
    then DeviceVerdict(p.src, p.src in blocked, deviceACLs[p.src], p)
    else None
  }

  lemma {:induction false} AclStep(deviceACLs: map<Addr, seq<Cidr>>, blocked: set<Addr>, rest: set<Addr>, ip: Addr,
                                   rules: seq<Rule>, own: seq<Rule>, p: Packet)
    requires ip in rest && ip in deviceACLs
    requires FirstMatch(rules, p) == AclVerdicts(deviceACLs, blocked, deviceACLs.Keys - rest, p)
    requires FirstMatch(own, p) == DeviceVerdict(ip, ip in blocked, deviceACLs[ip], p)
    ensures FirstMatch(rules + own, p) == AclVerdicts(deviceACLs, blocked, deviceACLs.Keys - (rest - {ip}), p)
  {
    FirstMatchAppend(rules, own, p);
  }

  /** The part of the rule list for the devices with ACL entries, in any map order. */
  method AclRules(deviceACLs: map<Addr, seq<Cidr>>, blocked: set<Addr>) returns (rules: seq<Rule>)
    ensures forall p: Packet :: FirstMatch(rules, p) == AclVerdicts(deviceACLs, blocked, deviceACLs.Keys, p)
    ensures forall r <- rules :: Installable(r)
    ensures DroppedSources(rules) == deviceACLs.Keys
  {
    rules := [];
    var rest := deviceACLs.Keys;
    while rest != {}
      invariant rest <= deviceACLs.Keys && DroppedSources(rules) == deviceACLs.Keys - rest
      invariant forall r <- rules :: Installable(r)
      invariant forall p: Packet ::
          FirstMatch(rules, p) == AclVerdicts(deviceACLs, blocked, deviceACLs.Keys - rest, p)
      decreases |rest|
    {
      var ip :| ip in rest;
      var own := DeviceRules(ip, deviceACLs[ip], ip in blocked);
      forall p: Packet
        ensures FirstMatch(rules + own, p) == AclVerdicts(deviceACLs, blocked, deviceACLs.Keys - (rest - {ip}), p)
      {
        AclStep(deviceACLs, blocked, rest, ip, rules, own, p);
      }
      DroppedAppend(rules, own);
      rest := rest - {ip};
      rules := rules + own;
    }
  }

  /** What the default-deny rules decide: listed devices without ACL entries are cut off. */
  function DenyVerdict(devices: seq<DeviceRow>, withAcl: set<Addr>, p: Packet): Option<Action> {
    if p.src !in withAcl && (exists d <- devices :: d.ip == p.src) then Some(Drop) else None
  }

  lemma {:induction false} DenyStep(devices: seq<DeviceRow>, d: DeviceRow, withAcl: set<Addr>,
                                    rules: seq<Rule>, p: Packet)
    requires FirstMatch(rules, p) == DenyVerdict(devices, withAcl, p)
    ensures FirstMatch(rules + (if d.ip in withAcl then [] else [DropRule(d.ip)]), p)
            == DenyVerdict(devices + [d], withAcl, p)
  {
    HostMatches(p.src, d.ip);
    FirstMatchAppend(rules, if d.ip in withAcl then [] else [DropRule(d.ip)], p);
  }

  lemma {:induction false} DenySources(devices: seq<DeviceRow>, d: DeviceRow, withAcl: set<Addr>, rules: seq<Rule>)
    requires DroppedSources(rules) == (set x <- devices :: x.ip) - withAcl
    ensures DroppedSources(rules + (if d.ip in withAcl then [] else [DropRule(d.ip)]))
            == (set x <- devices + [d] :: x.ip) - withAcl
  {
    DroppedAppend(rules, if d.ip in withAcl then [] else [DropRule(d.ip)]);
    DeviceRulesDrop(d.ip, []);
    assert (set x <- devices + [d] :: x.ip) == (set x <- devices :: x.ip) + {d.ip};
  }

  method DefaultDeny(devices: seq<DeviceRow>, withAcl: set<Addr>) returns (rules: seq<Rule>)
    ensures forall p: Packet :: FirstMatch(rules, p) == DenyVerdict(devices, withAcl, p)
    ensures forall r <- rules :: Installable(r)
    ensures DroppedSources(rules) == (set d <- devices :: d.ip) - withAcl
  {
    rules := [];
    for i := 0 to |devices|
      invariant forall r <- rules :: Installable(r)
      invariant DroppedSources(rules) == (set d <- devices[..i] :: d.ip) - withAcl
      invariant forall p: Packet :: FirstMatch(rules, p) == DenyVerdict(devices[..i], withAcl, p)
    {
      var ip := devices[i].ip;
      var added := if ip in withAcl then [] else [DropRule(ip)];
      assert devices[..i + 1] == devices[..i] + [devices[i]];
      forall p: Packet
        ensures FirstMatch(rules + added, p) == DenyVerdict(devices[..i + 1], withAcl, p)
      {
        DenyStep(devices[..i], devices[i], withAcl, rules, p);
      }
      DenySources(devices[..i], devices[i], withAcl, rules);
      rules := rules + added;
    }
    assert devices[..|devices|] == devices;
  }

  /** Grouping the rows by address loses nothing. */
  lemma {:induction false} AclVerdict(acls: seq<AclRow>, deviceACLs: map<Addr, seq<Cidr>>, p: Packet)
    requires forall ip: Addr, c: Cidr ::
        (ip in deviceACLs && c in deviceACLs[ip]) <==> AclRow(ip, c) in acls
    requires forall ip <- deviceACLs :: deviceACLs[ip] != []
    ensures p.src in deviceACLs <==> exists r <- acls :: r.ip == p.src
    ensures p.src in deviceACLs ==> (InAny(p.dst, deviceACLs[p.src]) <==> Allowed(acls, p))
  {
    if p.src in deviceACLs {
      assert AclRow(p.src, deviceACLs[p.src][0]) in acls;
      if c :| c in deviceACLs[p.src] && InCidr(p.dst, c) {
        assert AclRow(p.src, c) in acls;
      }
      if r :| r in acls && r.ip == p.src && InCidr(p.dst, r.allowed) {
        assert AclRow(p.src, r.allowed) in acls;
      }
    }
    if r :| r in acls && r.ip == p.src {
      assert AclRow(p.src, r.allowed) in acls;
    }
  }

  /** Compilation preserves meaning: every packet gets the verdict the access policy asks for. */
  method CompileRules(acls: seq<AclRow>, devices: seq<DeviceRow>, blocked: set<Addr>) returns (rules: seq<Rule>)
    ensures forall p: Packet :: FirstMatch(rules, p) == Intended(acls, devices, blocked, p)
    ensures forall r <- rules :: Installable(r)
    ensures forall ip: Addr :: ip in DroppedSources(rules) <==> Listed(acls, devices, ip)
  {
    var deviceACLs := GroupAcls(acls);
    var own := AclRules(deviceACLs, blocked);
    var deny := DefaultDeny(devices, deviceACLs.Keys);
    rules := own + deny;
    forall p: Packet
      ensures FirstMatch(rules, p) == Intended(acls, devices, blocked, p)
    {
      FirstMatchAppend(own, deny, p);
      AclVerdict(acls, deviceACLs, p);
    }
    DroppedAppend(own, deny);
    forall ip: Addr
      ensures ip in DroppedSources(rules) <==> Listed(acls, devices, ip)
    {
      AclVerdict(acls, deviceACLs, Packet(ip, ip, "", "", false));
    }
  }

  // ---- Keys of blocked devices -------------------------------------------------

  /** The public key that counts for an address: that of its last device row. */
  function PubkeyOf(devices: seq<DeviceRow>, ip: Addr): Option<string> {
    if devices == [] then None
    else if devices[|devices| - 1].ip == ip then Some(devices[|devices| - 1].pubkey)
    else PubkeyOf(devices[..|devices| - 1], ip)
  }

  lemma {:induction false} PubkeyOfLast(devices: seq<DeviceRow>, ip: Addr, i: nat)
    requires i <= |devices| && forall j :: i < j < |devices| ==> devices[j].ip != ip
    ensures i < |devices| && devices[i].ip == ip ==> PubkeyOf(devices, ip) == Some(devices[i].pubkey)
    ensures PubkeyOf(devices, ip).Some? <==> exists d <- devices :: d.ip == ip
  {
    if devices != [] {
      var init, last := devices[..|devices| - 1], devices[|devices| - 1];
      assert devices == init + [last];
      if last.ip != ip {
        PubkeyOfLast(init, ip, if i < |init| then i else |init|);
      }
    }
  }

  method CollectPubkeys(devices: seq<DeviceRow>) returns (keys: map<Addr, string>)
    ensures forall ip: Addr :: PubkeyOf(devices, ip) == if ip in keys then Some(keys[ip]) else None
  {
    keys := map[];
    for i := 0 to |devices|
      invariant forall ip: Addr ::
          PubkeyOf(devices[..i], ip) == if ip in keys then Some(keys[ip]) else None
    {
      assert devices[..i + 1][..i] == devices[..i];
      keys := keys[devices[i].ip := devices[i].pubkey];
    }
    assert devices[..|devices|] == devices;
  }

  /** The blocked addresses that `pubkey` belongs to. */
  ghost function BlockedHolders(devices: seq<DeviceRow>, blocked: set<Addr>, pubkey: string): set<Addr> {
    set ip | ip in blocked && PubkeyOf(devices, ip) == Some(pubkey)
  }

  lemma {:induction false} HoldersGrow(devices: seq<DeviceRow>, done: set<Addr>, ip: Addr, pk: string)
    requires ip !in done
    ensures |BlockedHolders(devices, done + {ip}, pk)| ==
            |BlockedHolders(devices, done, pk)| + (if PubkeyOf(devices, ip) == Some(pk) then 1 else 0)
  {
    assert BlockedHolders(devices, done + {ip}, pk) ==
           BlockedHolders(devices, done, pk) + if PubkeyOf(devices, ip) == Some(pk) then {ip} else {};
  }

  /** `pubkeys` holds every non-empty key once for each address in `done` that it belongs to. */
  ghost predicate Collected(devices: seq<DeviceRow>, done: set<Addr>, pubkeys: seq<string>) {
    forall pk: string :: multiset(pubkeys)[pk] == if pk == "" then 0 else |BlockedHolders(devices, done, pk)|
  }

  lemma {:induction false} CollectedGrows(devices: seq<DeviceRow>, done: set<Addr>, pubkeys: seq<string>, ip: Addr)
    requires Collected(devices, done, pubkeys) && ip !in done
    ensures var key := PubkeyOf(devices, ip);
            Collected(devices, done + {ip}, if key.Some? && key.value != "" then pubkeys + [key.value] else pubkeys)
  {
    forall pk: string {
      HoldersGrow(devices, done, ip, pk);
    }
  }

  /** The peers to remove: every non-empty key once for each blocked address it belongs to, nothing else. */
  method BlockedPubkeys(devices: seq<DeviceRow>, blocked: set<Addr>) returns (pubkeys: seq<string>)
    ensures Collected(devices, blocked, pubkeys)
    ensures forall pk: string ::
        pk in pubkeys <==> pk != "" && exists ip <- blocked :: PubkeyOf(devices, ip) == Some(pk)
  {
    var keys := CollectPubkeys(devices);
    pubkeys := [];
    var done: set<Addr>, rest := {}, blocked;
    while rest != {}
      invariant done + rest == blocked && done !! rest
      invariant Collected(devices, done, pubkeys)
      decreases |rest|
    {
      var ip :| ip in rest;
      CollectedGrows(devices, done, pubkeys, ip);
      if ip in keys && keys[ip] != "" {
        pubkeys := pubkeys + [keys[ip]];
      }
      done, rest := done + {ip}, rest - {ip};
    }
    assert done == blocked;
    forall pk: string
      ensures pk in pubkeys <==> pk != "" && exists ip <- blocked :: PubkeyOf(devices, ip) == Some(pk)
    {
      CollectedMembers(devices, blocked, pubkeys, pk);
    }
  }

  lemma {:induction false} CollectedMembers(devices: seq<DeviceRow>, blocked: set<Addr>,
                                            pubkeys: seq<string>, pk: string)
    requires Collected(devices, blocked, pubkeys)
    ensures pk in pubkeys <==> pk != "" && exists ip <- blocked :: PubkeyOf(devices, ip) == Some(pk)
  {
    var holders := BlockedHolders(devices, blocked, pk);
    assert pk in pubkeys <==> multiset(pubkeys)[pk] > 0;
    if ip :| ip in blocked && PubkeyOf(devices, ip) == Some(pk) {
      assert ip in holders;
    } else {
      assert holders == {};
    }
  }

  // ---- The whole computation ---------------------------------------------------

  datatype FirewallConfig = FirewallConfig(rules: seq<Rule>, natEnabled: bool, natInterface: string)

  datatype FirewallResult = FirewallResult(config: FirewallConfig, blockedPubkeys: seq<string>)

  ghost function BlockedSet(cfg: TrustConfig, postures: seq<Posture>, policies: seq<Policy>): (s: set<Addr>)
    ensures forall ip: Addr :: ip in s <==> Blocked(cfg, postures, policies, ip)
  {
    PostureAddresses(postures);
    set r <- postures | Blocked(cfg, postures, policies, r.ip) :: r.ip
  }

  lemma {:induction false} PostureAddresses(postures: seq<Posture>)
    ensures forall ip: Addr :: PostureOf(postures, ip).Some? ==> PostureOf(postures, ip).value in postures
    ensures forall ip: Addr :: PostureOf(postures, ip).Some? ==> PostureOf(postures, ip).value.ip == ip
  {
    if postures != [] {
      PostureAddresses(postures[..|postures| - 1]);
    }
  }

  /** The answers of the five queries; None for one that failed. */
  datatype Queries = Queries(
    acls: Option<seq<AclRow>>, devices: Option<seq<DeviceRow>>, trust: Option<TrustConfig>,
    postures: Option<seq<Posture>>, policies: Option<seq<Policy>>)

  /** All queries but the first may fail: they count as having found nothing. */
  function Answered<T>(rows: Option<seq<T>>): seq<T> {
    if rows.Some? then rows.value else []
  }

  function TrustOf(q: Queries): TrustConfig {
    if q.trust.Some? then q.trust.value else TrustConfig(false, false)
  }

  ghost function BlockedBy(q: Queries): set<Addr> {
    BlockedSet(TrustOf(q), Answered(q.postures), Answered(q.policies))
  }

  /** What the access policy, as far as it could be read, says about a packet. */
  ghost function PolicyVerdict(q: Queries, p: Packet): Option<Action> {
    Intended(Answered(q.acls), Answered(q.devices), BlockedBy(q), p)
  }

  /** The policy in terms of rows: what is let through, what is not, and whom it does not concern. */
  lemma {:induction false} PolicyMeaning(q: Queries, p: Packet, allowed: Cidr)
    requires q.acls.Some?
    ensures AclRow(p.src, allowed) in q.acls.value && InCidr(p.dst, allowed) && p.src !in BlockedBy(q) ==>
              PolicyVerdict(q, p) == Some(Accept)
    ensures p.src in BlockedBy(q) && AclRow(p.src, allowed) in q.acls.value ==> PolicyVerdict(q, p) == Some(Drop)
    ensures PolicyVerdict(q, p) == Some(Accept) ==>
              p.src !in BlockedBy(q) && exists c :: AclRow(p.src, c) in q.acls.value && InCidr(p.dst, c)
    ensures (forall r <- q.acls.value :: r.ip != p.src) ==>
              PolicyVerdict(q, p) == if exists d <- Answered(q.devices) :: d.ip == p.src then Some(Drop) else None
  {
    if PolicyVerdict(q, p) == Some(Accept) {
      var r :| r in q.acls.value && r.ip == p.src && InCidr(p.dst, r.allowed);
      assert AclRow(p.src, r.allowed) in q.acls.value;
    }
  }

  /** Without postures, or without settings and policies to judge them by, nobody is blocked. */
  lemma {:induction false} UnreadBlocksNobody(q: Queries)
    requires q.postures.None? || (q.trust.None? && q.policies.None?)
    ensures BlockedBy(q) == {}
  {
  }

  /**
   From the query results to the gateway's rules: a new packet of a listed device is accepted
   iff the device is not blocked and one of its ACL networks contains the destination, every
   other packet of a listed device is dropped, and no other source is matched. Without the ACL
   rows there is no configuration at all.
   */
  method BuildFirewallConfig(q: Queries) returns (result: Option<FirewallResult>)
    ensures result.Some? <==> q.acls.Some?
    ensures result.Some? ==>
        && result.value.config.natEnabled && result.value.config.natInterface == ""
        && Collected(Answered(q.devices), BlockedBy(q), result.value.blockedPubkeys)
        && (forall p: Packet :: FirstMatch(result.value.config.rules, p) == PolicyVerdict(q, p))
        && (forall r <- result.value.config.rules :: Installable(r))
        && (forall ip: Addr ::
              ip in DroppedSources(result.value.config.rules) <==> Listed(q.acls.value, Answered(q.devices), ip))
  {
    if q.acls.None? {
      return None;
    }
    var devices := Answered(q.devices);
    var blocked := ComputeBlocked(TrustOf(q), Answered(q.postures), Answered(q.policies));
    assert blocked == BlockedBy(q);
    var rules := CompileRules(q.acls.value, devices, blocked);
    var pubkeys := BlockedPubkeys(devices, blocked);
    result := Some(FirewallResult(FirewallConfig(rules, true, ""), pubkeys));
  }
}
