/**
 The gateway's firewall manager: it keeps two chains of the iptables filter table, OUTPOST-FWD
 for the compiled access rules and OUTPOST-SMART for destination overrides, and hooks them into
 FORWARD. The table is a value; the manager runs one command after the other on it. Applying access
 rules also masquerades an interface and cuts the tracked connections of dropped sources.
 */
module FilterTable {
  import opened Common
  import opened Addressing
  import opened FirewallCompiler

  /** OUTPOST-FWD, OUTPOST-SMART, and any other chain of the host. */
  datatype Chain = FWD | SMART | Custom(name: string)

  /** A line of a chain: return traffic of accepted sessions, or a rule. */
  datatype Entry = EstablishedAccept | Match(rule: Rule)

  /** A line of FORWARD: a jump to a chain, or one of the host's own rules. */
  datatype Line = Hook(chain: Chain) | Foreign(entry: Entry)

  datatype Filter = Filter(chains: map<Chain, seq<Entry>>, forward: seq<Line>)

  datatype SmartRule = SmartRule(entryType: string, value: Cidr, action: string)

  // ---- iptables ----------------------------------------------------------------

  datatype Command =
    | NewChain(chain: Chain)
    | Flush(chain: Chain)
    | DeleteChain(chain: Chain)
    | Append(chain: Chain, entry: Entry, accepted: bool)   // iptables may refuse a rule
    | CheckHook(chain: Chain)
    | InsertHook(chain: Chain)
    | DeleteHook(chain: Chain)

  /** The list with the first occurrence of `x`, if any, taken out. */
  function WithoutFirst<T(==)>(xs: seq<T>, x: T): seq<T> {
    if xs == [] then []
    else if xs[0] == x then xs[1..]
    else [xs[0]] + WithoutFirst(xs[1..], x)
  }

  /** Whether a command succeeds; a failing one leaves the table alone. */
  predicate Succeeds(t: Filter, cmd: Command) {
    match cmd
    case NewChain(c) => c !in t.chains
    case Flush(c) => c in t.chains
    case DeleteChain(c) => c in t.chains && t.chains[c] == [] && Hook(c) !in t.forward
    case Append(c, _, accepted) => c in t.chains && accepted
    case CheckHook(c) => Hook(c) in t.forward
    case InsertHook(c) => c in t.chains
    case DeleteHook(c) => Hook(c) in t.forward
  }

  function Exec(t: Filter, cmd: Command): Filter {
    if !Succeeds(t, cmd) then t
    else
      match cmd
      case NewChain(c) => t.(chains := t.chains[c := []])
      case Flush(c) => t.(chains := t.chains[c := []])
      case DeleteChain(c) => t.(chains := t.chains - {c})
      case Append(c, e, _) => t.(chains := t.chains[c := t.chains[c] + [e]])
      case CheckHook(_) => t
      case InsertHook(c) => t.(forward := [Hook(c)] + t.forward)
      case DeleteHook(c) => t.(forward := WithoutFirst(t.forward, Hook(c)))
  }

  // ---- What the manager keeps installed ----------------------------------------

  /** The manager's part of the table: its hooks from the top of FORWARD, and its chains. */
  datatype Installed = Installed(hooks: seq<Chain>, fwd: Option<seq<Entry>>, smart: Option<seq<Entry>>)

  const NOTHING := Installed([], None, None)

  ghost predicate Consistent(v: Installed) {
    && (|| v.hooks == [] || v.hooks == [FWD] || v.hooks == [SMART]
        || v.hooks == [SMART, FWD] || v.hooks == [FWD, SMART])
    && (FWD in v.hooks <==> v.fwd.Some?)
    && (SMART in v.hooks <==> v.smart.Some?)
  }

  /** A table the manager has not touched. */
  ghost predicate Clean(t: Filter) {
    FWD !in t.chains && SMART !in t.chains && Hook(FWD) !in t.forward && Hook(SMART) !in t.forward
  }

  function HookLines(hooks: seq<Chain>): seq<Line> {
    seq(|hooks|, i requires 0 <= i < |hooks| => Hook(hooks[i]))
  }

  /** The host's own table `clean` with `v` installed on it. */
  function Table(clean: Filter, v: Installed): Filter {
    Filter(
      clean.chains
      + (if v.fwd.Some? then map[FWD := v.fwd.value] else map[])
      + (if v.smart.Some? then map[SMART := v.smart.value] else map[]),
      HookLines(v.hooks) + clean.forward)
  }

  /** The chain line for a compiled rule; None for a rule that is skipped. */
  function BuildRule(r: Rule): Option<Entry> {
    if r.source.None? || r.action == Unspecified then None
    else Some(Match(if r.protocol.None? then r.(port := None) else r))
  }

  /** The lines of the rules, but for those that iptables refuses. */
  function RuleEntries(rules: seq<Rule>, accepts: Entry -> bool): seq<Entry> {
    if rules == [] then []
    else
      var last := BuildRule(rules[|rules| - 1]);
      var init := RuleEntries(rules[..|rules| - 1], accepts);
      if last.Some? && accepts(last.value) then init + [last.value] else init
  }

  function SmartEntry(r: SmartRule): Option<Entry> {
    if r.entryType != "cidr" then None
    else if r.action == "block" then Some(Match(Rule(None, Some(r.value), None, None, Drop)))
    else if r.action == "direct" then Some(Match(Rule(None, Some(r.value), None, None, Accept)))
    else None
  }

  /** The rule says something about packets to these addresses. */
  predicate Steers(r: SmartRule, p: Packet) {
    r.entryType == "cidr" && (r.action == "block" || r.action == "direct") && InCidr(p.dst, r.value)
  }

  function SmartEntries(rules: seq<SmartRule>, accepts: Entry -> bool): seq<Entry> {
    if rules == [] then []
    else
      var last := SmartEntry(rules[|rules| - 1]);
      var init := SmartEntries(rules[..|rules| - 1], accepts);
      if last.Some? && accepts(last.value) then init + [last.value] else init
  }

  /** A configuration, and which of its lines iptables accepted when it was applied. */
  datatype Access = Access(config: FirewallConfig, accepts: Entry -> bool)

  /** Smart routes, likewise. */
  datatype Smart = Smart(rules: seq<SmartRule>, accepts: Entry -> bool)

  const NO_SMART := Smart([], (_: Entry) => true)

  function FwdLines(rules: seq<Rule>, accepts: Entry -> bool): seq<Entry> {
    (if accepts(EstablishedAccept) then [EstablishedAccept] else []) + RuleEntries(rules, accepts)
  }

  function FwdChain(a: Access): seq<Entry> {
    FwdLines(a.config.rules, a.accepts)
  }

  function SmartChain(s: Smart): Option<seq<Entry>> {
    if s.rules == [] then None else Some(SmartEntries(s.rules, s.accepts))
  }

  function AfterInit(v: Installed): Installed {
    if v.fwd.Some? then v else v.(hooks := [FWD] + v.hooks, fwd := Some([]))
  }

  function AfterApply(v: Installed, access: Option<Access>): Installed {
    if access.None? || v.fwd.None? then v else v.(fwd := Some(FwdChain(access.value)))
  }

  function Without(v: Installed, c: Chain): Installed {
    var other := if c == FWD then SMART else FWD;
    SetChain(v, c, None).(hooks := if ChainOf(v, other).Some? then [other] else [])
  }

  function AfterSmart(v: Installed, s: Smart): Installed {
    if s.rules == [] then Without(v, SMART)
    else v.(hooks := if v.smart.Some? then v.hooks else [SMART] + v.hooks, smart := SmartChain(s))
  }

  // ---- Commands on the manager's part ------------------------------------------

  function ChainOf(v: Installed, c: Chain): Option<seq<Entry>> {
    if c == FWD then v.fwd else v.smart
  }

  function SetChain(v: Installed, c: Chain, x: Option<seq<Entry>>): Installed {
    if c == FWD then v.(fwd := x) else v.(smart := x)
  }

  predicate Works(v: Installed, cmd: Command) {
    match cmd
    case NewChain(c) => ChainOf(v, c).None?
    case Flush(c) => ChainOf(v, c).Some?
    case DeleteChain(c) => ChainOf(v, c) == Some([]) && c !in v.hooks
    case Append(c, _, accepted) => ChainOf(v, c).Some? && accepted
    case CheckHook(c) => c in v.hooks
    case InsertHook(c) => ChainOf(v, c).Some?
    case DeleteHook(c) => c in v.hooks
  }

  function Act(v: Installed, cmd: Command): Installed {
    if !Works(v, cmd) then v
    else
      match cmd
      case NewChain(c) => SetChain(v, c, Some([]))
      case Flush(c) => SetChain(v, c, Some([]))
      case DeleteChain(c) => SetChain(v, c, None)
      case Append(c, e, _) => SetChain(v, c, Some(ChainOf(v, c).value + [e]))
      case CheckHook(_) => v
      case InsertHook(c) => v.(hooks := [c] + v.hooks)
      case DeleteHook(c) => v.(hooks := WithoutFirst(v.hooks, c))
  }

  lemma {:induction false} UnhookLine(hooks: seq<Chain>, own: seq<Line>, c: Chain)
    requires c in hooks
    ensures WithoutFirst(HookLines(hooks) + own, Hook(c)) == HookLines(WithoutFirst(hooks, c)) + own
  {
    var lines := HookLines(hooks) + own;
    assert lines[0] == Hook(hooks[0]);
    assert lines[1..] == HookLines(hooks[1..]) + own;
    if hooks[0] != c {
      UnhookLine(hooks[1..], own, c);
      var rest := WithoutFirst(hooks[1..], c);
      assert HookLines([hooks[0]] + rest) == [Hook(hooks[0])] + HookLines(rest);
    }
  }

  lemma {:induction false} HookPresent(clean: Filter, v: Installed, c: Chain)
    requires Hook(c) !in clean.forward
    ensures Hook(c) in Table(clean, v).forward <==> c in v.hooks
  {
    var lines := HookLines(v.hooks);
    if c in v.hooks {
      var i :| 0 <= i < |v.hooks| && v.hooks[i] == c;
      assert lines[i] == Hook(c);
    }
  }

  lemma {:induction false} SetChainTable(clean: Filter, v: Installed, c: Chain, x: Option<seq<Entry>>)
    requires Clean(clean) && !c.Custom?
    ensures var t, t' := Table(clean, v), Table(clean, SetChain(v, c, x));
            t'.forward == t.forward && t'.chains == if x.Some? then t.chains[c := x.value] else t.chains - {c}
  {
  }

  /** A command on one of the manager's chains acts on the manager's part and on nothing else. */
  lemma {:induction false} Simulates(clean: Filter, v: Installed, cmd: Command)
    requires Clean(clean) && !cmd.chain.Custom?
    ensures Succeeds(Table(clean, v), cmd) == Works(v, cmd)
    ensures Exec(Table(clean, v), cmd) == Table(clean, Act(v, cmd))
  {
    var c := cmd.chain;
    HookPresent(clean, v, c);
    SetChainTable(clean, v, c, ChainOf(v, c));
    if Works(v, cmd) {
      match cmd {
        case NewChain(_) => SetChainTable(clean, v, c, Some([]));
        case Flush(_) => SetChainTable(clean, v, c, Some([]));
        case DeleteChain(_) => SetChainTable(clean, v, c, None);
        case Append(_, e, _) => SetChainTable(clean, v, c, Some(ChainOf(v, c).value + [e]));
        case CheckHook(_) =>
        case InsertHook(_) =>
          assert HookLines([c] + v.hooks) == [Hook(c)] + HookLines(v.hooks);
        case DeleteHook(_) =>
          UnhookLine(v.hooks, clean.forward, c);
      }
    }
  }

  lemma {:induction false} UnhookOnly(v: Installed, c: Chain)
    requires Consistent(v) && !c.Custom?
    ensures WithoutFirst(v.hooks, c) == Without(v, c).hooks
  {
  }

  /** A connection that the kernel tracks, from the side that opened it. */
  datatype Conn = Conn(src: Addr, dst: Addr)

  /** What the host's tools answer while a configuration is applied. */
  datatype Answers = Answers(
    accepts: Entry -> bool,     // iptables takes the line
    defaultInterface: string,   // of the default route, "" if there is none
    masquerades: bool,          // iptables takes the MASQUERADE rule
    conntrack: bool)            // the conntrack tool works

  /** The interfaces masqueraded after a configuration was applied: its own, or that of the default route. */
  function AfterNat(masqueraded: seq<string>, config: FirewallConfig, host: Answers): seq<string> {
    var iface := if config.natInterface == "" then host.defaultInterface else config.natInterface;
    if config.natEnabled && iface != "" && iface !in masqueraded && host.masquerades then masqueraded + [iface]
    else masqueraded
  }

  /** One interface is masqueraded, the configured one or else the default one, and never twice. */
  lemma {:induction false} NatMeaning(masqueraded: seq<string>, config: FirewallConfig, host: Answers, iface: string)
    ensures masqueraded <= AfterNat(masqueraded, config, host)
    ensures config.natEnabled && config.natInterface != "" && host.masquerades ==>
              config.natInterface in AfterNat(masqueraded, config, host)
    ensures config.natEnabled && config.natInterface == "" && host.defaultInterface != "" && host.masquerades ==>
              host.defaultInterface in AfterNat(masqueraded, config, host)
    ensures iface in AfterNat(masqueraded, config, host) && iface !in masqueraded ==>
              && config.natEnabled && multiset(AfterNat(masqueraded, config, host))[iface] == 1
              && iface == (if config.natInterface != "" then config.natInterface else host.defaultInterface)
    ensures iface in masqueraded ==>
              multiset(AfterNat(masqueraded, config, host))[iface] == multiset(masqueraded)[iface]
  {
  }

  class FirewallManager {
    var table: Filter
    var masqueraded: seq<string>   // the MASQUERADE rules of POSTROUTING
    var tracked: set<Conn>
    ghost var clean: Filter
    ghost var view: Installed

    ghost predicate Tracks()
      reads this
    {
      Clean(clean) && table == Table(clean, view)
    }

    ghost predicate Valid()
      reads this
    {
      Tracks() && Consistent(view)
    }

    constructor (table: Filter, masqueraded: seq<string>, tracked: set<Conn>)
      requires Clean(table)
      ensures Valid() && this.table == table && clean == table && view == NOTHING
      ensures this.masqueraded == masqueraded && this.tracked == tracked
    {
      this.table, this.masqueraded, this.tracked := table, masqueraded, tracked;
      clean := table;
      view := NOTHING;
      new;
      assert HookLines([]) + table.forward == table.forward;
    }

    method RunCommand(cmd: Command) returns (ok: bool)
      requires Tracks() && !cmd.chain.Custom?
      modifies this`table, this`view
      ensures Tracks()
      ensures table == Exec(old(table), cmd) && ok == Succeeds(old(table), cmd)
      ensures view == Act(old(view), cmd) && ok == Works(old(view), cmd)
    {
      Simulates(clean, view, cmd);
      ok := Succeeds(table, cmd);
      table := Exec(table, cmd);
      view := Act(view, cmd);
    }

    /** Unhooks, empties and deletes a chain; each command may find nothing to do. */
    method RemoveChain(c: Chain)
      requires Valid() && !c.Custom?
      modifies this`table, this`view
      ensures Valid() && view == Without(old(view), c)
    {
      UnhookOnly(view, c);
      var _ := RunCommand(DeleteHook(c));
      var _ := RunCommand(Flush(c));
      var _ := RunCommand(DeleteChain(c));
    }

    /** Creates the FWD chain and hooks it on top of FORWARD, unless that was done before. */
    method Init() returns (ok: bool)
      requires Valid()
      modifies this`table, this`view
      ensures Valid() && ok && view == AfterInit(old(view))
    {
      var _ := RunCommand(NewChain(FWD));
      var hooked := RunCommand(CheckHook(FWD));
      if !hooked {
        ok := RunCommand(InsertHook(FWD));
        if !ok {
          return false;
        }
      }
      return true;
    }

    /** Appends the compiled rules to the FWD chain, leaving out those that cannot be installed. */
    method AppendRules(rules: seq<Rule>, accepts: Entry -> bool)
      requires Tracks() && view.fwd.Some?
      modifies this`table, this`view
      ensures Tracks() && view == old(view).(fwd := Some(old(view).fwd.value + RuleEntries(rules, accepts)))
    {
      assert view.fwd.value + RuleEntries(rules[..0], accepts) == view.fwd.value;
      for i := 0 to |rules|
        invariant Tracks()
        invariant view == old(view).(fwd := Some(old(view).fwd.value + RuleEntries(rules[..i], accepts)))
      {
        assert rules[..i + 1][..i] == rules[..i];
        var entry := BuildRule(rules[i]);
        if entry.None? {
          continue;
        }
        var _ := RunCommand(Append(FWD, entry.value, accepts(entry.value)));
        assert view.fwd.value == old(view).fwd.value + RuleEntries(rules[..i + 1], accepts);
      }
      assert rules[..|rules|] == rules;
    }

    /** Appends the smart routes on CIDRs that block or go direct. */
    method AppendSmart(rules: seq<SmartRule>, accepts: Entry -> bool)
      requires Tracks() && view.smart.Some?
      modifies this`table, this`view
      ensures Tracks() && view == old(view).(smart := Some(old(view).smart.value + SmartEntries(rules, accepts)))
    {
      assert view.smart.value + SmartEntries(rules[..0], accepts) == view.smart.value;
      for i := 0 to |rules|
        invariant Tracks()
        invariant view == old(view).(smart := Some(old(view).smart.value + SmartEntries(rules[..i], accepts)))
      {
        assert rules[..i + 1][..i] == rules[..i];
        var entry := SmartEntry(rules[i]);
        if entry.None? {
          continue;
        }
        var _ := RunCommand(Append(SMART, entry.value, accepts(entry.value)));
        assert view.smart.value == old(view).smart.value + SmartEntries(rules[..i + 1], accepts);
      }
      assert rules[..|rules|] == rules;
    }

    /** Cuts the tracked connections opened by the sources of drop rules, each source once. */
    method FlushDropped(rules: seq<Rule>, works: bool)
      modifies this`tracked
      ensures tracked == set c | c in old(tracked) && !(works && c.src in DroppedSources(rules))
    {
      var seen: set<Addr> := {};
      for i := 0 to |rules|
        invariant seen == DroppedSources(rules[..i])
        invariant tracked == set c | c in old(tracked) && !(works && c.src in seen)
      {
        assert rules[..i + 1][..i] == rules[..i];
        if rules[i].action != Drop || rules[i].source.None? {
          continue;
        }
        var ip := rules[i].source.value.base;
        if ip in seen {
          continue;
        }
        seen := seen + {ip};
        if works {
          tracked := set c | c in tracked && c.src != ip;
        }
      }
      assert rules[..|rules|] == rules;
    }

    /** Replaces the FWD chain; fails, changing nothing, when there is no such chain. */
    method ReplaceRules(rules: seq<Rule>, accepts: Entry -> bool) returns (ok: bool)
      requires Valid()
      modifies this`table, this`view
      ensures Valid() && ok == old(view).fwd.Some?
      ensures view == if ok then old(view).(fwd := Some(FwdLines(rules, accepts))) else old(view)
    {
      ok := RunCommand(Flush(FWD));
      if !ok {
        return false;
      }
      var _ := RunCommand(Append(FWD, EstablishedAccept, accepts(EstablishedAccept)));
      AppendRules(rules, accepts);
      assert view.fwd.value == FwdLines(rules, accepts);
      return true;
    }

    /**
     Replaces the FWD chain, masquerades one interface and cuts the connections of dropped sources;
     fails, changing nothing, when there is no such chain. A refused line is only logged.
     */
    method Apply(config: Option<FirewallConfig>, host: Answers) returns (ok: bool)
      requires Valid()
      modifies this`table, this`view, this`masqueraded, this`tracked
      ensures Valid() && (ok <==> config.None? || old(view).fwd.Some?)
      ensures view == AfterApply(old(view), if config.Some? then Some(Access(config.value, host.accepts)) else None)
      ensures masqueraded == if ok && config.Some? then AfterNat(old(masqueraded), config.value, host)
                             else old(masqueraded)
      ensures tracked == if ok && config.Some? && host.conntrack
                         then set c | c in old(tracked) && c.src !in DroppedSources(config.value.rules)
                         else old(tracked)
    {
      if config.None? {
        return true;
      }
      ok := ReplaceRules(config.value.rules, host.accepts);
      if !ok {
        return false;
      }
      if config.value.natEnabled {
        var iface := config.value.natInterface;
        if iface == "" {
          iface := host.defaultInterface;
        }
        if iface != "" && iface !in masqueraded && host.masquerades {
          masqueraded := masqueraded + [iface];
        }
      }
      FlushDropped(config.value.rules, host.conntrack);
      return true;
    }

    /** Replaces the SMART chain, hooking it above everything else when it is new; no rules remove it. */
    method ApplySmartRoutes(rules: seq<SmartRule>, accepts: Entry -> bool) returns (ok: bool)
      requires Valid()
      modifies this`table, this`view
      ensures Valid() && ok && view == AfterSmart(old(view), Smart(rules, accepts))
    {
      if rules == [] {
        RemoveChain(SMART);
        return true;
      }
      var _ := RunCommand(NewChain(SMART));
      ok := RunCommand(Flush(SMART));
      if !ok {
        return false;
      }
      var hooked := RunCommand(CheckHook(SMART));
      if !hooked {
        ok := RunCommand(InsertHook(SMART));
        if !ok {
          return false;
        }
      }
      AppendSmart(rules, accepts);
      assert view.smart.value == SmartEntries(rules, accepts);
      return true;
    }

    /** Gives the host its own table back. */
    method Cleanup()
      requires Valid()
      modifies this`table, this`view
      ensures Valid() && view == NOTHING && table == clean
    {
      RemoveChain(SMART);
      RemoveChain(FWD);
      assert HookLines([]) + clean.forward == clean.forward;
    }
  }

  // ---- Whole runs --------------------------------------------------------------

  datatype Op = DoInit | DoApply(access: Option<Access>) | DoSmart(smart: Smart) | DoCleanup

  function After(v: Installed, op: Op): Installed {
    match op
    case DoInit => AfterInit(v)
    case DoApply(access) => AfterApply(v, access)
    case DoSmart(smart) => AfterSmart(v, smart)
    case DoCleanup => NOTHING
  }

  function AfterAll(v: Installed, ops: seq<Op>): Installed {
    if |ops| == 0 then v else After(AfterAll(v, ops[..|ops| - 1]), ops[|ops| - 1])
  }

  function LastAccess(ops: seq<Op>): Option<Access> {
    if |ops| == 0 then None
    else
      var last := ops[|ops| - 1];
      if last.DoApply? && last.access.Some? then last.access else LastAccess(ops[..|ops| - 1])
  }

  function LastSmart(ops: seq<Op>): Smart {
    if |ops| == 0 then NO_SMART
    else
      var last := ops[|ops| - 1];
      if last.DoSmart? then last.smart else LastSmart(ops[..|ops| - 1])
  }

  /** The manager's part when `access` and `smart` are in force. */
  function InForce(access: Option<Access>, smart: Smart): Installed {
    Installed(
      if smart.rules == [] then [FWD] else [SMART, FWD],
      Some(if access.None? then [] else FwdChain(access.value)),
      SmartChain(smart))
  }

  /** After Init only the last configurations count: hooked once each, SMART above FWD. */
  lemma {:induction false} RunInForce(ops: seq<Op>)
    requires forall op <- ops :: !op.DoCleanup?
    ensures AfterAll(AfterInit(NOTHING), ops) == InForce(LastAccess(ops), LastSmart(ops))
  {
    if ops != [] {
      assert ops[|ops| - 1] in ops;
      RunInForce(ops[..|ops| - 1]);
    }
  }

  /** SMART is not below FWD. */
  predicate Ordered(v: Installed) {
    v.hooks != [FWD, SMART]
  }

  /** The order survives every operation but one: an Init that hooks FWD while SMART is in place. */
  lemma {:induction false} OrderKeptExactly(v: Installed, op: Op)
    requires Consistent(v) && Ordered(v)
    ensures Consistent(After(v, op))
    ensures Ordered(After(v, op)) <==> !(op.DoInit? && v.fwd.None? && v.smart.Some?)
  {
  }

  /** Every caller that applies smart routes before Init gets the order wrong. */
  lemma {:induction false} SmartBeforeInitReverses(smart: Smart)
    requires smart.rules != []
    ensures !Ordered(AfterAll(NOTHING, [DoSmart(smart), DoInit]))
  {
    var ops := [DoSmart(smart), DoInit];
    assert ops[..1] == [DoSmart(smart)] && ops[..1][..0] == [];
    assert AfterAll(NOTHING, ops[..1]) == AfterSmart(NOTHING, smart);
    assert AfterSmart(NOTHING, smart).hooks == [SMART];
    assert AfterAll(NOTHING, ops).hooks == [FWD] + [SMART];
  }

  // ---- Verdicts ----------------------------------------------------------------

  function EntryVerdict(e: Entry, p: Packet): Option<Action> {
    match e
    case EstablishedAccept => if p.established then Some(Accept) else None
    case Match(r) => if Matches(r, p) then Some(r.action) else None
  }

  function ChainVerdict(entries: seq<Entry>, p: Packet): Option<Action> {
    if entries == [] then None
    else if EntryVerdict(entries[0], p).Some? then EntryVerdict(entries[0], p)
    else ChainVerdict(entries[1..], p)
  }

  function LineVerdict(chains: map<Chain, seq<Entry>>, line: Line, p: Packet): Option<Action> {
    match line
    case Foreign(e) => EntryVerdict(e, p)
    case Hook(c) => if c in chains then ChainVerdict(chains[c], p) else None
  }

  /** What FORWARD does to a packet; None leaves it to the chain's default policy. */
  function ForwardVerdict(chains: map<Chain, seq<Entry>>, lines: seq<Line>, p: Packet): Option<Action> {
    if lines == [] then None
    else if LineVerdict(chains, lines[0], p).Some? then LineVerdict(chains, lines[0], p)
    else ForwardVerdict(chains, lines[1..], p)
  }

  function Verdict(t: Filter, p: Packet): Option<Action> {
    ForwardVerdict(t.chains, t.forward, p)
  }

  function OrElse(a: Option<Action>, b: Option<Action>): Option<Action> {
    if a.Some? then a else b
  }

  lemma {:induction false} ChainVerdictAppend(e1: seq<Entry>, e2: seq<Entry>, p: Packet)
    ensures ChainVerdict(e1 + e2, p) == OrElse(ChainVerdict(e1, p), ChainVerdict(e2, p))
  {
    if e1 == [] {
      assert e1 + e2 == e2;
    } else {
      assert (e1 + e2)[1..] == e1[1..] + e2;
      ChainVerdictAppend(e1[1..], e2, p);
    }
  }

  lemma {:induction false} SmartEntryVerdict(r: SmartRule, p: Packet)
    ensures SmartEntry(r).Some? ==>
              EntryVerdict(SmartEntry(r).value, p)
              == if !Steers(r, p) then None else if r.action == "block" then Some(Drop) else Some(Accept)
    ensures SmartEntry(r).None? ==> !Steers(r, p)
  {
  }

  /** What smart routes say: the first rule for the destination blocks it or lets it through. */
  function SmartSays(rules: seq<SmartRule>, p: Packet): Option<Action> {
    if rules == [] then None
    else if Steers(rules[0], p) then Some(if rules[0].action == "block" then Drop else Accept)
    else SmartSays(rules[1..], p)
  }

  lemma {:induction false} SmartFirstDecides(rules: seq<SmartRule>, p: Packet, i: nat)
    requires i <= |rules| && forall j :: 0 <= j < i ==> !Steers(rules[j], p)
    ensures i < |rules| && Steers(rules[i], p) && rules[i].action == "block" ==> SmartSays(rules, p) == Some(Drop)
    ensures i < |rules| && Steers(rules[i], p) && rules[i].action == "direct" ==> SmartSays(rules, p) == Some(Accept)
    ensures i == |rules| ==> SmartSays(rules, p) == None
  {
    if i > 0 {
      SmartFirstDecides(rules[1..], p, i - 1);
    }
  }

  lemma {:induction false} SmartSaysAppend(r1: seq<SmartRule>, r2: seq<SmartRule>, p: Packet)
    ensures SmartSays(r1 + r2, p) == OrElse(SmartSays(r1, p), SmartSays(r2, p))
  {
    if r1 == [] {
      assert r1 + r2 == r2;
    } else {
      assert (r1 + r2)[1..] == r1[1..] + r2;
      SmartSaysAppend(r1[1..], r2, p);
    }
  }

  /** The smart routes that iptables did not refuse. */
  function KeptSmart(rules: seq<SmartRule>, accepts: Entry -> bool): seq<SmartRule> {
    if rules == [] then []
    else
      var last := rules[|rules| - 1];
      var init := KeptSmart(rules[..|rules| - 1], accepts);
      if SmartEntry(last).Some? && !accepts(SmartEntry(last).value) then init else init + [last]
  }

  lemma {:induction false} KeptSmartExactly(rules: seq<SmartRule>, accepts: Entry -> bool, r: SmartRule)
    ensures r in KeptSmart(rules, accepts) <==> r in rules && (SmartEntry(r).Some? ==> accepts(SmartEntry(r).value))
    ensures TakesAll(accepts) ==> KeptSmart(rules, accepts) == rules
  {
    if rules != [] {
      assert rules == rules[..|rules| - 1] + [rules[|rules| - 1]];
      KeptSmartExactly(rules[..|rules| - 1], accepts, r);
    }
  }

  /** The installed chain does what the smart routes say, those that were refused aside. */
  lemma {:induction false} SmartVerdict(rules: seq<SmartRule>, accepts: Entry -> bool, p: Packet)
    ensures ChainVerdict(SmartEntries(rules, accepts), p) == SmartSays(KeptSmart(rules, accepts), p)
  {
    if rules != [] {
      var init, last := rules[..|rules| - 1], rules[|rules| - 1];
      SmartVerdict(init, accepts, p);
      SmartEntryVerdict(last, p);
      assert SmartSays([last], p) == if SmartEntry(last).None? then None else EntryVerdict(SmartEntry(last).value, p);
      SmartSaysAppend(KeptSmart(init, accepts), [last], p);
      if SmartEntry(last).Some? {
        var line := SmartEntry(last).value;
        assert ChainVerdict([line], p) == EntryVerdict(line, p);
        ChainVerdictAppend(SmartEntries(init, accepts), [line], p);
      }
    }
  }

  /** The rules whose lines were accepted. */
  function Kept(rules: seq<Rule>, accepts: Entry -> bool): seq<Rule> {
    if rules == [] then []
    else
      var last := rules[|rules| - 1];
      var init := Kept(rules[..|rules| - 1], accepts);
      if BuildRule(last).Some? && accepts(BuildRule(last).value) then init + [last] else init
  }

  /** Turning rules into chain lines keeps their first-match meaning. */
  lemma {:induction false} RuleEntriesVerdict(rules: seq<Rule>, accepts: Entry -> bool, p: Packet)
    requires forall r <- rules :: Installable(r)
    ensures ChainVerdict(RuleEntries(rules, accepts), p) == FirstMatch(Kept(rules, accepts), p)
  {
    if rules != [] {
      var init, last := rules[..|rules| - 1], rules[|rules| - 1];
      assert rules == init + [last] && Installable(last);
      RuleEntriesVerdict(init, accepts, p);
      var line := BuildRule(last).value;
      assert ChainVerdict([line], p) == FirstMatch([last], p);
      ChainVerdictAppend(RuleEntries(init, accepts), [line], p);
      FirstMatchAppend(Kept(init, accepts), [last], p);
    }
  }

  lemma {:induction false} KeptExactly(rules: seq<Rule>, accepts: Entry -> bool, r: Rule)
    requires forall x <- rules :: Installable(x)
    ensures r in Kept(rules, accepts) <==> r in rules && BuildRule(r).Some? && accepts(BuildRule(r).value)
  {
    if rules != [] {
      assert rules == rules[..|rules| - 1] + [rules[|rules| - 1]];
      KeptExactly(rules[..|rules| - 1], accepts, r);
    }
  }

  /** iptables took every drop rule. */
  ghost predicate TakesDrops(accepts: Entry -> bool) {
    forall r: Rule :: r.action == Drop ==> accepts(Match(r))
  }

  ghost predicate TakesAll(accepts: Entry -> bool) {
    forall e: Entry :: accepts(e)
  }

  /**
   Refused lines, exactly: with every line taken the verdicts are those of the rules, and with
   every drop line taken only packets that the rules accept can fare differently.
   */
  lemma {:induction false} RefusedLines(rules: seq<Rule>, accepts: Entry -> bool, p: Packet)
    requires forall r <- rules :: Installable(r)
    ensures TakesAll(accepts) ==> Kept(rules, accepts) == rules
    ensures TakesDrops(accepts) && FirstMatch(rules, p) != Some(Accept) ==>
              FirstMatch(Kept(rules, accepts), p) == FirstMatch(rules, p)
  {
    if rules != [] {
      var init, last := rules[..|rules| - 1], rules[|rules| - 1];
      assert rules == init + [last] && Installable(last);
      RefusedLines(init, accepts, p);
      FirstMatchAppend(init, [last], p);
      FirstMatchAppend(Kept(init, accepts), [last], p);
    }
  }

  /** The host's own lines do not see the manager's chains. */
  lemma {:induction false} ForeignVerdict(clean: Filter, v: Installed, lines: seq<Line>, p: Packet)
    requires Hook(FWD) !in lines && Hook(SMART) !in lines
    ensures ForwardVerdict(Table(clean, v).chains, lines, p) == ForwardVerdict(clean.chains, lines, p)
  {
    if lines != [] {
      ForeignVerdict(clean, v, lines[1..], p);
    }
  }

  /** FORWARD asks the smart routes, then the access rules, then the host's own rules. */
  lemma {:induction false} InForceVerdict(clean: Filter, access: Access, smart: Smart, p: Packet)
    requires Clean(clean) && forall r <- access.config.rules :: Installable(r)
    ensures Verdict(Table(clean, InForce(Some(access), smart)), p) ==
            OrElse(SmartSays(KeptSmart(smart.rules, smart.accepts), p),
                   OrElse(AccessVerdict(access, p), Verdict(clean, p)))
  {
    SmartVerdict(smart.rules, smart.accepts, p);
    var v := InForce(Some(access), smart);
    var t := Table(clean, v);
    FwdChainVerdict(access, p);
    ForeignVerdict(clean, v, clean.forward, p);
    var below := [Hook(FWD)] + clean.forward;
    assert below[1..] == clean.forward;
    assert ForwardVerdict(t.chains, below, p) == OrElse(ChainVerdict(FwdChain(access), p), Verdict(clean, p));
    if smart.rules == [] {
      assert HookLines(v.hooks) + clean.forward == below;
    } else {
      assert t.forward[0] == Hook(SMART) && t.forward[1..] == below;
      assert t.chains[SMART] == SmartEntries(smart.rules, smart.accepts);
    }
  }

  /** Return traffic first, then the rules that were taken. */
  function AccessVerdict(access: Access, p: Packet): Option<Action> {
    if p.established && access.accepts(EstablishedAccept) then Some(Accept)
    else FirstMatch(Kept(access.config.rules, access.accepts), p)
  }

  lemma {:induction false} FwdChainVerdict(access: Access, p: Packet)
    requires forall r <- access.config.rules :: Installable(r)
    ensures ChainVerdict(FwdChain(access), p) == AccessVerdict(access, p)
  {
    var entries := RuleEntries(access.config.rules, access.accepts);
    RuleEntriesVerdict(access.config.rules, access.accepts, p);
    if access.accepts(EstablishedAccept) {
      ChainVerdictAppend([EstablishedAccept], entries, p);
    } else {
      assert FwdChain(access) == entries;
    }
  }

  /** In force together: blocked and direct destinations first, then return traffic, then the access rules. */
  lemma {:induction false} InForceMeaning(clean: Filter, access: Access, smart: Smart, p: Packet, i: nat)
    requires Clean(clean) && (forall r <- access.config.rules :: Installable(r))
    requires TakesAll(access.accepts) && TakesAll(smart.accepts)
    requires i <= |smart.rules| && forall j :: 0 <= j < i ==> !Steers(smart.rules[j], p)
    ensures var verdict := Verdict(Table(clean, InForce(Some(access), smart)), p);
            && (i < |smart.rules| && Steers(smart.rules[i], p) && smart.rules[i].action == "block" ==>
                  verdict == Some(Drop))
            && (i < |smart.rules| && Steers(smart.rules[i], p) && smart.rules[i].action == "direct" ==>
                  verdict == Some(Accept))
            && (i == |smart.rules| ==>
                  verdict == if p.established then Some(Accept)
                             else OrElse(FirstMatch(access.config.rules, p), Verdict(clean, p)))
  {
    InForceVerdict(clean, access, smart, p);
    if smart.rules != [] {
      KeptSmartExactly(smart.rules, smart.accepts, smart.rules[0]);
    }
    SmartFirstDecides(smart.rules, p, i);
    RefusedLines(access.config.rules, access.accepts, p);
  }

  /** A new packet gets the verdict of the smart routes, else of the policy, else of the host. */
  ghost predicate Enforced(fm: FirewallManager, q: Queries, smart: Smart, p: Packet)
    reads fm
  {
    Verdict(fm.table, p) ==
    OrElse(SmartSays(KeptSmart(smart.rules, smart.accepts), p),
           OrElse(PolicyVerdict(q, p), Verdict(fm.clean, p)))
  }

  /**
   From query results to the installed table: with smart routes `smart` in force, a new packet
   that no smart route decides gets the verdict of the access policy, and one that the policy
   does not speak about gets the host's own. If iptables refuses lines, but no drop line, this
   still holds for every packet that the policy does not accept. Connections opened earlier by
   listed devices are cut, no others, so that return traffic does not outlive the old policy.
   Without the ACL rows nothing changes.
   */
  method EnforceAccessPolicy(fm: FirewallManager, q: Queries, host: Answers, ghost smart: Smart)
    requires fm.Valid() && exists access :: fm.view == InForce(access, smart)
    modifies fm`table, fm`view, fm`masqueraded, fm`tracked
    ensures fm.Valid() && exists access :: fm.view == InForce(access, smart)
    ensures q.acls.None? ==>
        fm.table == old(fm.table) && fm.tracked == old(fm.tracked) && fm.masqueraded == old(fm.masqueraded)
    ensures q.acls.Some? && host.masquerades && host.defaultInterface != "" ==>
        host.defaultInterface in fm.masqueraded
    ensures q.acls.Some? && host.conntrack ==>
        fm.tracked == set c | c in old(fm.tracked) && !Listed(q.acls.value, Answered(q.devices), c.src)
    ensures q.acls.Some? && TakesAll(host.accepts) ==>
        forall p: Packet :: !p.established ==> Enforced(fm, q, smart, p)
    ensures q.acls.Some? && TakesDrops(host.accepts) ==>
        forall p: Packet :: !p.established && PolicyVerdict(q, p) != Some(Accept) ==> Enforced(fm, q, smart, p)
  {
    var result := BuildFirewallConfig(q);
    if result.None? {
      return;
    }
    var config := result.value.config;
    var _ := fm.Apply(Some(config), host);
    var access := Access(config, host.accepts);
    assert fm.view == InForce(Some(access), smart);
    forall p: Packet | !p.established
      ensures TakesAll(host.accepts) ==> Enforced(fm, q, smart, p)
      ensures TakesDrops(host.accepts) && PolicyVerdict(q, p) != Some(Accept) ==> Enforced(fm, q, smart, p)
    {
      InForceVerdict(fm.clean, access, smart, p);
      RefusedLines(config.rules, host.accepts, p);
    }
  }
}
