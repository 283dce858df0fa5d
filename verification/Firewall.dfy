/**
 The access-policy compiler of the controller: a list of service policies becomes an
 ordered first-match rule list, once for nftables and once for iptables.

 Rules are data, a packet is a record and a chain is evaluated by first match.
 */
module Firewall {
  import opened Common

  // Address text, seen the way the validity test sees it: it parses to an IPv4 address or it does not.
  datatype Address = Ip(value: nat) | Malformed(text: string)

  datatype Policy = Policy(
    serviceIp: Address,
    servicePort: nat,
    sshPort: nat,
    sshUnlocked: bool,
    peers: seq<Address>,
    egressEnabled: bool,
    networkClosed: bool)

  datatype Packet = Packet(
    iif: string,
    oif: string,
    src: nat,
    dst: nat,
    tcp: bool,
    sport: nat,
    dport: nat,
    established: bool)

  // Pass: no rule matched, so the packet falls through to whatever follows the chain.
  datatype Verdict = Accept | Drop | Pass

  datatype Rule = Rule(
    iif: Option<string>,
    oif: Option<string>,
    saddr: Option<seq<nat>>,
    daddr: Option<nat>,
    dport: Option<nat>,
    sport: Option<nat>,
    established: bool,
    accept: bool)

  const ANY := Rule(None, None, None, None, None, None, false, true)
  const ESTABLISHED := ANY.(established := true)

  predicate Matches(r: Rule, p: Packet) {
    && (r.iif.Some? ==> p.iif == r.iif.value)
    && (r.oif.Some? ==> p.oif == r.oif.value)
    && (r.saddr.Some? ==> p.src in r.saddr.value)
    && (r.daddr.Some? ==> p.dst == r.daddr.value)
    && (r.dport.Some? ==> p.tcp && p.dport == r.dport.value)
    && (r.sport.Some? ==> p.tcp && p.sport == r.sport.value)
    && (r.established ==> p.established)
  }

  function Eval(rules: seq<Rule>, p: Packet): Verdict {
    if rules == [] then Pass
    else if Matches(rules[0], p) then (if rules[0].accept then Accept else Drop)
    else Eval(rules[1..], p)
  }

  function Then(first: Verdict, second: Verdict): Verdict {
    if first == Pass then second else first
  }

  lemma {:induction false} EvalConcat(a: seq<Rule>, b: seq<Rule>, p: Packet)
    ensures Eval(a + b, p) == Then(Eval(a, p), Eval(b, p))
  {
    if a == [] {
      assert a + b == b;
    } else {
      EvalConcat(a[1..], b, p);
      assert (a + b)[1..] == a[1..] + b;
    }
  }

  // ---------------------------------------------------------------- rule emission

  function ValidPeers(peers: seq<Address>): seq<nat> {
    if peers == [] then []
    else
      var rest := ValidPeers(peers[..|peers| - 1]);
      var last := peers[|peers| - 1];
      if last.Ip? then rest + [last.value] else rest
  }

  predicate IsPeer(q: Policy, addr: nat) { Ip(addr) in q.peers }

  lemma {:induction false} ValidPeersMembership(peers: seq<Address>, addr: nat)
    ensures addr in ValidPeers(peers) <==> Ip(addr) in peers
  {
    if peers != [] {
      ValidPeersMembership(peers[..|peers| - 1], addr);
      assert peers == peers[..|peers| - 1] + [peers[|peers| - 1]];
    }
  }

  datatype Chain = Forward | Output

  // One loop over the policy list, in one backend.
  datatype Stage =
    | NftClosed(wg: string)
    | NftOpen(wg: string, inet: string, chain: Chain)
    | IptClosed(wg: string)
    | IptOpen(wg: string, inet: string)

  function When(condition: bool, rules: seq<Rule>): seq<Rule> {
    if condition then rules else []
  }

  function Via(wg: string, r: Rule): Rule { r.(iif := Some(wg)) }

  function NftClosedRules(wg: string, q: Policy): seq<Rule> {
    if !q.networkClosed || !q.serviceIp.Ip? then []
    else
      var peers := ValidPeers(q.peers);
      var toService := ANY.(daddr := Some(q.serviceIp.value));
      When(peers != [], [toService.(saddr := Some(peers))])
      + (if wg != "" then [Via(wg, toService.(accept := false))] else [toService.(accept := false)])
  }

  function NftServiceRules(wg: string, chain: Chain, q: Policy, ip: nat): seq<Rule> {
    var toPort := ANY.(daddr := Some(ip), dport := Some(q.servicePort));
    var fromService := ANY.(oif := Some(wg), saddr := Some([ip]));
    var scoped := chain == Forward && wg != "";
    When(q.servicePort > 0,
         When(scoped, [Via(wg, toPort)]) + [toPort]
         + When(scoped, [fromService.(sport := Some(q.servicePort)), fromService.(established := true)]))
  }

  function NftSshRules(wg: string, chain: Chain, q: Policy, ip: nat): seq<Rule> {
    var toSsh := ANY.(daddr := Some(ip), dport := Some(q.sshPort));
    var scoped := chain == Forward && wg != "";
    var peers := ValidPeers(q.peers);
    When(q.sshUnlocked && q.peers != [] && peers != [],
         When(scoped, [Via(wg, toSsh.(saddr := Some(peers)))]) + [toSsh.(saddr := Some(peers))])
    + When(q.sshPort > 0,
           When(scoped, [Via(wg, toSsh.(accept := false))]) + [toSsh.(accept := false)])
  }

  function EgressDrop(inet: string, ip: nat): Rule {
    ANY.(oif := Some(inet), saddr := Some([ip]), accept := false)
  }

  function NftAdmitRules(wg: string, chain: Chain, q: Policy, ip: nat): seq<Rule> {
    NftServiceRules(wg, chain, q, ip) + NftSshRules(wg, chain, q, ip)
    + When(chain == Forward && wg != "", [Via(wg, ANY.(daddr := Some(ip), accept := false))])
  }

  function NftOpenRules(wg: string, inet: string, chain: Chain, q: Policy): seq<Rule> {
    if !q.serviceIp.Ip? then []
    else
      var ip := q.serviceIp.value;
      When(!q.egressEnabled && inet != "" && chain == Forward, [EgressDrop(inet, ip)])
      + (if q.networkClosed then [] else NftAdmitRules(wg, chain, q, ip))
  }

  // The iptables backend writes one or two rules per peer instead of one rule with a peer set.
  function IptPeerRules(wg: string, target: Rule, peers: seq<nat>): seq<Rule> {
    if peers == [] then []
    else
      var r := target.(saddr := Some([peers[|peers| - 1]]));
      IptPeerRules(wg, target, peers[..|peers| - 1]) + When(wg != "", [Via(wg, r)]) + [r]
  }

  function IptClosedRules(wg: string, q: Policy): seq<Rule> {
    if !q.networkClosed || !q.serviceIp.Ip? then []
    else
      var toService := ANY.(daddr := Some(q.serviceIp.value));
      IptPeerRules(wg, toService, ValidPeers(q.peers))
      + (if wg != "" then [Via(wg, toService.(accept := false))] else [toService.(accept := false)])
  }

  function IptServiceRules(wg: string, q: Policy, ip: nat): seq<Rule> {
    var toPort := ANY.(daddr := Some(ip), dport := Some(q.servicePort));
    var fromService := ANY.(oif := Some(wg), saddr := Some([ip]));
    [Via(wg, toPort), toPort, fromService.(sport := Some(q.servicePort)), fromService.(established := true)]
  }

  function IptSshRules(wg: string, q: Policy, ip: nat): seq<Rule> {
    var toSsh := ANY.(daddr := Some(ip), dport := Some(q.sshPort));
    When(q.sshUnlocked && q.peers != [], IptPeerRules(wg, toSsh, ValidPeers(q.peers)))
    + [Via(wg, toSsh.(accept := false)), toSsh.(accept := false)]
    + When(wg != "", [Via(wg, ANY.(daddr := Some(ip), accept := false))])
  }

  function IptOpenRules(wg: string, inet: string, q: Policy): seq<Rule> {
    if !q.serviceIp.Ip? then []
    else
      var ip := q.serviceIp.value;
      When(!q.egressEnabled && inet != "", [EgressDrop(inet, ip)])
      + (if q.networkClosed then [] else IptServiceRules(wg, q, ip) + IptSshRules(wg, q, ip))
  }

  function StageRules(stage: Stage, q: Policy): seq<Rule> {
    match stage
    case NftClosed(wg) => NftClosedRules(wg, q)
    case NftOpen(wg, inet, chain) => NftOpenRules(wg, inet, chain, q)
    case IptClosed(wg) => IptClosedRules(wg, q)
    case IptOpen(wg, inet) => IptOpenRules(wg, inet, q)
  }

  function Compile(stage: Stage, ps: seq<Policy>): seq<Rule> {
    if ps == [] then []
    else Compile(stage, ps[..|ps| - 1]) + StageRules(stage, ps[|ps| - 1])
  }

  function NftForward(wg: string, inet: string, ps: seq<Policy>): seq<Rule> {
    Compile(NftClosed(wg), ps) + [ESTABLISHED] + Compile(NftOpen(wg, inet, Forward), ps)
  }

  function NftOutput(inet: string, ps: seq<Policy>): seq<Rule> {
    [ESTABLISHED] + Compile(NftOpen("", inet, Output), ps)
  }

  function IptablesChain(wg: string, inet: string, ps: seq<Policy>): seq<Rule> {
    Compile(IptClosed(wg), ps) + [ESTABLISHED] + Compile(IptOpen(wg, inet), ps)
  }

  // ---------------------------------------------------------------- the two renderers

  method CollectValidPeers(peers: seq<Address>) returns (valid: seq<nat>)
    ensures valid == ValidPeers(peers)
  {
    valid := [];
    for i := 0 to |peers|
      invariant valid == ValidPeers(peers[..i])
    {
      assert peers[..i + 1][..i] == peers[..i];
      if peers[i].Ip? {
        valid := valid + [peers[i].value];
      }
    }
    assert peers[..|peers|] == peers;
  }

  lemma ConcatAssoc(a: seq<Rule>, b: seq<Rule>, c: seq<Rule>)
    ensures a + b + c == a + (b + c)
  {
  }

  lemma CompileSnoc(stage: Stage, ps: seq<Policy>, i: nat)
    requires i < |ps|
    ensures Compile(stage, ps[..i + 1]) == Compile(stage, ps[..i]) + StageRules(stage, ps[i])
  {
    assert ps[..i + 1][..i] == ps[..i];
  }

  method RenderClosedPolicy(wg: string, q: Policy) returns (out: seq<Rule>)
    ensures out == NftClosedRules(wg, q)
  {
    out := [];
    if q.networkClosed && q.serviceIp.Ip? {
      var peers := CollectValidPeers(q.peers);
      var toService := ANY.(daddr := Some(q.serviceIp.value));
      if |peers| > 0 {
        out := out + [toService.(saddr := Some(peers))];
      }
      if wg != "" {
        out := out + [Via(wg, toService.(accept := false))];
      } else {
        out := out + [toService.(accept := false)];
      }
    }
  }

  method AppendClosedNetworkRules(builder: seq<Rule>, wg: string, ps: seq<Policy>) returns (out: seq<Rule>)
    ensures out == builder + Compile(NftClosed(wg), ps)
  {
    out := builder;
    for i := 0 to |ps|
      invariant out == builder + Compile(NftClosed(wg), ps[..i])
    {
      var rules := RenderClosedPolicy(wg, ps[i]);
      out := out + rules;
      CompileSnoc(NftClosed(wg), ps, i);
      ConcatAssoc(builder, Compile(NftClosed(wg), ps[..i]), rules);
    }
    assert ps[..|ps|] == ps;
  }

  method RenderServiceRules(wg: string, chain: Chain, q: Policy, ip: nat) returns (out: seq<Rule>)
    ensures out == NftServiceRules(wg, chain, q, ip)
  {
    out := [];
    var scoped := chain == Forward && wg != "";
    var toPort := ANY.(daddr := Some(ip), dport := Some(q.servicePort));
    if q.servicePort > 0 {
      if scoped {
        out := out + [Via(wg, toPort)];
      }
      out := out + [toPort];
      if scoped {
        var fromService := ANY.(oif := Some(wg), saddr := Some([ip]));
        out := out + [fromService.(sport := Some(q.servicePort))];
        out := out + [fromService.(established := true)];
      }
    }
  }

  method RenderSshRules(wg: string, chain: Chain, q: Policy, ip: nat) returns (out: seq<Rule>)
    ensures out == NftSshRules(wg, chain, q, ip)
  {
    out := [];
    var scoped := chain == Forward && wg != "";
    var toSsh := ANY.(daddr := Some(ip), dport := Some(q.sshPort));
    if q.sshUnlocked && |q.peers| > 0 {
      var peers := CollectValidPeers(q.peers);
      if |peers| > 0 {
        if scoped {
          out := out + [Via(wg, toSsh.(saddr := Some(peers)))];
        }
        out := out + [toSsh.(saddr := Some(peers))];
      }
    }
    if q.sshPort > 0 {
      if scoped {
        out := out + [Via(wg, toSsh.(accept := false))];
      }
      out := out + [toSsh.(accept := false)];
    }
  }

  method RenderAdmitRules(wg: string, chain: Chain, q: Policy, ip: nat) returns (out: seq<Rule>)
    ensures out == NftAdmitRules(wg, chain, q, ip)
  {
    var service := RenderServiceRules(wg, chain, q, ip);
    var ssh := RenderSshRules(wg, chain, q, ip);
    var residual := [];
    if chain == Forward && wg != "" {
      residual := [Via(wg, ANY.(daddr := Some(ip), accept := false))];
    }
    out := service + ssh + residual;
  }

  method RenderOpenPolicy(wg: string, inet: string, chain: Chain, q: Policy) returns (out: seq<Rule>)
    ensures out == NftOpenRules(wg, inet, chain, q)
  {
    if !q.serviceIp.Ip? {
      return [];
    }
    var egress, admit := [], [];
    if !q.egressEnabled && inet != "" && chain == Forward {
      egress := [EgressDrop(inet, q.serviceIp.value)];
    }
    if !q.networkClosed {
      admit := RenderAdmitRules(wg, chain, q, q.serviceIp.value);
    }
    out := egress + admit;
  }

  method AppendControllerAccessPolicyRules(
    builder: seq<Rule>, wg: string, inet: string, ps: seq<Policy>, chain: Chain)
    returns (out: seq<Rule>)
    ensures out == builder + Compile(NftOpen(wg, inet, chain), ps)
  {
    out := builder;
    for i := 0 to |ps|
      invariant out == builder + Compile(NftOpen(wg, inet, chain), ps[..i])
    {
      var rules := RenderOpenPolicy(wg, inet, chain, ps[i]);
      out := out + rules;
      CompileSnoc(NftOpen(wg, inet, chain), ps, i);
      ConcatAssoc(builder, Compile(NftOpen(wg, inet, chain), ps[..i]), rules);
    }
    assert ps[..|ps|] == ps;
  }

  method RenderControllerAccessRules(wg: string, inet: string, ps: seq<Policy>)
    returns (forward: seq<Rule>, output: seq<Rule>)
    ensures forward == NftForward(wg, inet, ps)
    ensures output == NftOutput(inet, ps)
  {
    forward := AppendClosedNetworkRules([], wg, ps);
    assert forward == Compile(NftClosed(wg), ps);
    forward := forward + [ESTABLISHED];
    forward := AppendControllerAccessPolicyRules(forward, wg, inet, ps, Forward);
    output := AppendControllerAccessPolicyRules([ESTABLISHED], "", inet, ps, Output);
  }

  lemma PeerRulesNext(wg: string, target: Rule, peers: seq<Address>, i: nat)
    requires i < |peers|
    ensures IptPeerRules(wg, target, ValidPeers(peers[..i + 1]))
         == IptPeerRules(wg, target, ValidPeers(peers[..i]))
          + if !peers[i].Ip? then []
            else PeerRules(wg, target.(saddr := Some([peers[i].value])))
  {
    assert peers[..i + 1][..i] == peers[..i];
    var known := ValidPeers(peers[..i]);
    if peers[i].Ip? {
      assert (known + [peers[i].value])[..|known|] == known;
      ConcatAssoc(IptPeerRules(wg, target, known), When(wg != "", [Via(wg, target.(saddr := Some([peers[i].value])))]),
                  [target.(saddr := Some([peers[i].value]))]);
    }
  }

  function PeerRules(wg: string, r: Rule): seq<Rule> { When(wg != "", [Via(wg, r)]) + [r] }

  method RenderPeerRules(wg: string, target: Rule, peers: seq<Address>) returns (out: seq<Rule>)
    ensures out == IptPeerRules(wg, target, ValidPeers(peers))
  {
    out := [];
    for i := 0 to |peers|
      invariant out == IptPeerRules(wg, target, ValidPeers(peers[..i]))
    {
      PeerRulesNext(wg, target, peers, i);
      if peers[i].Ip? {
        var r := target.(saddr := Some([peers[i].value]));
        var rules := [];
        if wg != "" {
          rules := [Via(wg, r)];
        }
        out := out + (rules + [r]);
      }
    }
    assert peers[..|peers|] == peers;
  }

  method RenderIptClosedPolicy(wg: string, q: Policy) returns (out: seq<Rule>)
    ensures out == IptClosedRules(wg, q)
  {
    out := [];
    if q.networkClosed && q.serviceIp.Ip? {
      var toService := ANY.(daddr := Some(q.serviceIp.value));
      out := RenderPeerRules(wg, toService, q.peers);
      if wg != "" {
        out := out + [Via(wg, toService.(accept := false))];
      } else {
        out := out + [toService.(accept := false)];
      }
    }
  }

  method RenderIptSshRules(wg: string, q: Policy, ip: nat) returns (out: seq<Rule>)
    ensures out == IptSshRules(wg, q, ip)
  {
    out := [];
    var toSsh := ANY.(daddr := Some(ip), dport := Some(q.sshPort));
    if q.sshUnlocked && |q.peers| > 0 {
      out := RenderPeerRules(wg, toSsh, q.peers);
    }
    out := out + [Via(wg, toSsh.(accept := false)), toSsh.(accept := false)];
    if wg != "" {
      out := out + [Via(wg, ANY.(daddr := Some(ip), accept := false))];
    }
  }

  method RenderIptOpenPolicy(wg: string, inet: string, q: Policy) returns (out: seq<Rule>)
    ensures out == IptOpenRules(wg, inet, q)
  {
    if !q.serviceIp.Ip? {
      return [];
    }
    var ip := q.serviceIp.value;
    var egress, admit := [], [];
    if !q.egressEnabled && inet != "" {
      egress := [EgressDrop(inet, ip)];
    }
    if !q.networkClosed {
      var ssh := RenderIptSshRules(wg, q, ip);
      var toPort := ANY.(daddr := Some(ip), dport := Some(q.servicePort));
      var fromService := ANY.(oif := Some(wg), saddr := Some([ip]));
      admit := [Via(wg, toPort), toPort, fromService.(sport := Some(q.servicePort)), fromService.(established := true)];
      admit := admit + ssh;
    }
    out := egress + admit;
  }

  method ApplyDockerUserRules(wg: string, inet: string, ps: seq<Policy>) returns (chain: seq<Rule>)
    ensures chain == IptablesChain(wg, inet, ps)
  {
    chain := [];
    for i := 0 to |ps|
      invariant chain == Compile(IptClosed(wg), ps[..i])
    {
      var rules := RenderIptClosedPolicy(wg, ps[i]);
      chain := chain + rules;
      CompileSnoc(IptClosed(wg), ps, i);
    }
    assert ps[..|ps|] == ps;
    chain := chain + [ESTABLISHED];
    ghost var head := chain;
    for i := 0 to |ps|
      invariant chain == head + Compile(IptOpen(wg, inet), ps[..i])
    {
      var rules := RenderIptOpenPolicy(wg, inet, ps[i]);
      chain := chain + rules;
      CompileSnoc(IptOpen(wg, inet), ps, i);
      ConcatAssoc(head, Compile(IptOpen(wg, inet), ps[..i]), rules);
    }
  }

  // ---------------------------------------------------------------- what a compiled stage decides

  // A stage is decided by the only policy whose rules touch the packet.
  lemma {:induction false} StageDecidedByOne(stage: Stage, ps: seq<Policy>, p: Packet, i: nat)
    requires i < |ps|
    requires forall j :: 0 <= j < |ps| && j != i ==> Eval(StageRules(stage, ps[j]), p) == Pass
    ensures Eval(Compile(stage, ps), p) == Eval(StageRules(stage, ps[i]), p)
  {
    var front, last := ps[..|ps| - 1], ps[|ps| - 1];
    EvalConcat(Compile(stage, front), StageRules(stage, last), p);
    if i == |front| {
      forall q | q in front ensures Eval(StageRules(stage, q), p) == Pass {
        var j :| 0 <= j < |front| && front[j] == q;
        assert ps[j] == q;
      }
      StagePasses(stage, front, p);
    } else {
      assert front[i] == ps[i] && ps[|front|] == last;
      StageDecidedByOne(stage, front, p, i);
    }
  }

  lemma {:induction false} StagePasses(stage: Stage, ps: seq<Policy>, p: Packet)
    requires forall q :: q in ps ==> Eval(StageRules(stage, q), p) == Pass
    ensures Eval(Compile(stage, ps), p) == Pass
  {
    if ps != [] {
      StagePasses(stage, ps[..|ps| - 1], p);
      EvalConcat(Compile(stage, ps[..|ps| - 1]), StageRules(stage, ps[|ps| - 1]), p);
    }
  }

  lemma {:induction false} StagesAgree(a: Stage, b: Stage, ps: seq<Policy>, p: Packet)
    requires forall q :: q in ps ==> Eval(StageRules(a, q), p) == Eval(StageRules(b, q), p)
    ensures Eval(Compile(a, ps), p) == Eval(Compile(b, ps), p)
  {
    if ps != [] {
      var front, last := ps[..|ps| - 1], ps[|ps| - 1];
      StagesAgree(a, b, front, p);
      EvalConcat(Compile(a, front), StageRules(a, last), p);
      EvalConcat(Compile(b, front), StageRules(b, last), p);
    }
  }

  lemma ChainVerdict(closed: seq<Rule>, open: seq<Rule>, p: Packet)
    ensures Eval(closed + [ESTABLISHED] + open, p)
         == Then(Eval(closed, p), if p.established then Accept else Eval(open, p))
  {
    EvalConcat(closed + [ESTABLISHED], open, p);
    EvalConcat(closed, [ESTABLISHED], p);
  }

  predicate SshAllowed(q: Policy, p: Packet) {
    p.tcp && p.dport == q.sshPort && q.sshUnlocked && IsPeer(q, p.src)
  }

  // Verdicts of one policy's rules, as decision tables.
  function ClosedVerdict(wg: string, q: Policy, p: Packet): Verdict {
    if !q.networkClosed || q.serviceIp != Ip(p.dst) then Pass
    else if IsPeer(q, p.src) then Accept
    else if wg == "" || p.iif == wg then Drop
    else Pass
  }

  lemma NftClosedDecides(wg: string, q: Policy, p: Packet)
    ensures Eval(NftClosedRules(wg, q), p) == ClosedVerdict(wg, q, p)
  {
    ValidPeersMembership(q.peers, p.src);
    var peers := ValidPeers(q.peers);
    if q.networkClosed && q.serviceIp.Ip? {
      var toService := ANY.(daddr := Some(q.serviceIp.value));
      EvalConcat(When(peers != [], [toService.(saddr := Some(peers))]),
                 if wg != "" then [Via(wg, toService.(accept := false))] else [toService.(accept := false)], p);
    }
  }

  lemma {:induction false} PeerRulesDecide(wg: string, target: Rule, peers: seq<nat>, p: Packet)
    requires target.saddr.None? && target.iif.None? && target.accept
    ensures Eval(IptPeerRules(wg, target, peers), p)
         == if p.src in peers && Matches(target, p) then Accept else Pass
  {
    if peers != [] {
      var front, last := peers[..|peers| - 1], peers[|peers| - 1];
      PeerRulesDecide(wg, target, front, p);
      var r := target.(saddr := Some([last]));
      EvalConcat(IptPeerRules(wg, target, front) + When(wg != "", [Via(wg, r)]), [r], p);
      EvalConcat(IptPeerRules(wg, target, front), When(wg != "", [Via(wg, r)]), p);
      assert peers == front + [last];
    }
  }

  lemma IptClosedDecides(wg: string, q: Policy, p: Packet)
    ensures Eval(IptClosedRules(wg, q), p) == ClosedVerdict(wg, q, p)
  {
    ValidPeersMembership(q.peers, p.src);
    if q.networkClosed && q.serviceIp.Ip? {
      var toService := ANY.(daddr := Some(q.serviceIp.value));
      PeerRulesDecide(wg, toService, ValidPeers(q.peers), p);
      EvalConcat(IptPeerRules(wg, toService, ValidPeers(q.peers)),
                 if wg != "" then [Via(wg, toService.(accept := false))] else [toService.(accept := false)], p);
    }
  }

  predicate Tcp(p: Packet, port: nat) { p.tcp && p.dport == port }

  // The rules of one open-stage policy as a decision table. The nftables renderer guards port rules by
  // "port > 0"; the iptables one does not.
  function AdmitVerdict(wg: string, guarded: bool, q: Policy, ip: nat, p: Packet): Verdict {
    var serviceRules := guarded ==> q.servicePort > 0;
    if serviceRules && p.dst == ip && Tcp(p, q.servicePort) then Accept
    else if serviceRules && wg != "" && p.oif == wg && p.src == ip
            && ((p.tcp && p.sport == q.servicePort) || p.established) then Accept
    else if p.dst != ip then Pass
    else if SshAllowed(q, p) then Accept
    else if (guarded ==> q.sshPort > 0) && Tcp(p, q.sshPort) then Drop
    else if wg != "" && p.iif == wg then Drop
    else Pass
  }

  function OpenVerdict(wg: string, inet: string, guarded: bool, q: Policy, p: Packet): Verdict {
    if !q.serviceIp.Ip? then Pass
    else if !q.egressEnabled && inet != "" && p.oif == inet && p.src == q.serviceIp.value then Drop
    else if q.networkClosed then Pass
    else AdmitVerdict(wg, guarded, q, q.serviceIp.value, p)
  }

  function Apply(r: Rule, p: Packet): Verdict {
    if !Matches(r, p) then Pass else if r.accept then Accept else Drop
  }

  lemma EvalTwo(a: Rule, b: Rule, p: Packet)
    ensures Eval([a, b], p) == Then(Apply(a, p), Apply(b, p))
  {
    assert [a, b] == [a] + [b];
    EvalConcat([a], [b], p);
  }

  lemma NftServiceDecides(wg: string, q: Policy, ip: nat, p: Packet)
    ensures Eval(NftServiceRules(wg, Forward, q, ip), p)
         == if q.servicePort > 0 && (|| (p.dst == ip && Tcp(p, q.servicePort))
                                     || (wg != "" && p.oif == wg && p.src == ip
                                         && ((p.tcp && p.sport == q.servicePort) || p.established)))
            then Accept else Pass
  {
    var toPort := ANY.(daddr := Some(ip), dport := Some(q.servicePort));
    var fromService := ANY.(oif := Some(wg), saddr := Some([ip]));
    if q.servicePort > 0 {
      var reply := When(wg != "", [fromService.(sport := Some(q.servicePort)), fromService.(established := true)]);
      EvalConcat(When(wg != "", [Via(wg, toPort)]) + [toPort], reply, p);
      EvalConcat(When(wg != "", [Via(wg, toPort)]), [toPort], p);
      EvalTwo(fromService.(sport := Some(q.servicePort)), fromService.(established := true), p);
    }
  }

  lemma NftSshDecides(wg: string, chain: Chain, q: Policy, ip: nat, p: Packet)
    ensures Eval(NftSshRules(wg, chain, q, ip), p)
         == if p.dst != ip then Pass
            else if SshAllowed(q, p) then Accept
            else if q.sshPort > 0 && Tcp(p, q.sshPort) then Drop
            else Pass
  {
    var toSsh := ANY.(daddr := Some(ip), dport := Some(q.sshPort));
    var scoped := chain == Forward && wg != "";
    var peers := ValidPeers(q.peers);
    ValidPeersMembership(q.peers, p.src);
    var allow := toSsh.(saddr := Some(peers));
    var deny := toSsh.(accept := false);
    EvalConcat(When(q.sshUnlocked && q.peers != [] && peers != [], When(scoped, [Via(wg, allow)]) + [allow]),
               When(q.sshPort > 0, When(scoped, [Via(wg, deny)]) + [deny]), p);
    EvalConcat(When(scoped, [Via(wg, allow)]), [allow], p);
    EvalConcat(When(scoped, [Via(wg, deny)]), [deny], p);
  }

  lemma NftAdmitDecides(wg: string, q: Policy, ip: nat, p: Packet)
    ensures Eval(NftAdmitRules(wg, Forward, q, ip), p) == AdmitVerdict(wg, true, q, ip, p)
  {
    var service, ssh := NftServiceRules(wg, Forward, q, ip), NftSshRules(wg, Forward, q, ip);
    var residual := When(wg != "", [Via(wg, ANY.(daddr := Some(ip), accept := false))]);
    EvalConcat(service + ssh, residual, p);
    EvalConcat(service, ssh, p);
    NftServiceDecides(wg, q, ip, p);
    NftSshDecides(wg, Forward, q, ip, p);
  }

  lemma NftOpenDecides(wg: string, inet: string, q: Policy, p: Packet)
    ensures Eval(NftOpenRules(wg, inet, Forward, q), p) == OpenVerdict(wg, inet, true, q, p)
  {
    if q.serviceIp.Ip? {
      var ip := q.serviceIp.value;
      var egress := When(!q.egressEnabled && inet != "", [EgressDrop(inet, ip)]);
      NftAdmitDecides(wg, q, ip, p);
      EvalConcat(egress, if q.networkClosed then [] else NftAdmitRules(wg, Forward, q, ip), p);
    }
  }

  lemma IptSshDecides(wg: string, q: Policy, ip: nat, p: Packet)
    requires wg != ""
    ensures Eval(IptSshRules(wg, q, ip), p)
         == if p.dst != ip then Pass
            else if SshAllowed(q, p) then Accept
            else if Tcp(p, q.sshPort) || p.iif == wg then Drop
            else Pass
  {
    var toSsh := ANY.(daddr := Some(ip), dport := Some(q.sshPort));
    var peers := ValidPeers(q.peers);
    ValidPeersMembership(q.peers, p.src);
    PeerRulesDecide(wg, toSsh, peers, p);
    var allow := When(q.sshUnlocked && q.peers != [], IptPeerRules(wg, toSsh, peers));
    var deny := [Via(wg, toSsh.(accept := false)), toSsh.(accept := false)];
    EvalConcat(allow + deny, When(wg != "", [Via(wg, ANY.(daddr := Some(ip), accept := false))]), p);
    EvalConcat(allow, deny, p);
    EvalTwo(deny[0], deny[1], p);
  }

  lemma IptServiceDecides(wg: string, q: Policy, ip: nat, p: Packet)
    requires wg != ""
    ensures Eval(IptServiceRules(wg, q, ip), p)
         == if || (p.dst == ip && Tcp(p, q.servicePort))
               || (p.oif == wg && p.src == ip && ((p.tcp && p.sport == q.servicePort) || p.established))
            then Accept else Pass
  {
    var rules := IptServiceRules(wg, q, ip);
    assert rules == [rules[0], rules[1]] + [rules[2], rules[3]];
    EvalConcat([rules[0], rules[1]], [rules[2], rules[3]], p);
    EvalTwo(rules[0], rules[1], p);
    EvalTwo(rules[2], rules[3], p);
  }

  lemma IptOpenDecides(wg: string, inet: string, q: Policy, p: Packet)
    requires wg != ""
    ensures Eval(IptOpenRules(wg, inet, q), p) == OpenVerdict(wg, inet, false, q, p)
  {
    if q.serviceIp.Ip? {
      var ip := q.serviceIp.value;
      var egress := When(!q.egressEnabled && inet != "", [EgressDrop(inet, ip)]);
      var admit := IptServiceRules(wg, q, ip) + IptSshRules(wg, q, ip);
      EvalConcat(egress, if q.networkClosed then [] else admit, p);
      EvalConcat(IptServiceRules(wg, q, ip), IptSshRules(wg, q, ip), p);
      IptServiceDecides(wg, q, ip, p);
      IptSshDecides(wg, q, ip, p);
    }
  }

  // ---------------------------------------------------------------- main results

  predicate IsService(ps: seq<Policy>, addr: nat) {
    exists q :: q in ps && q.serviceIp == Ip(addr)
  }

  ghost predicate DistinctServices(ps: seq<Policy>) {
    forall i, j :: 0 <= i < j < |ps| && ps[i].serviceIp.Ip? ==> ps[i].serviceIp != ps[j].serviceIp
  }

  // What the forward chain means for a packet addressed to a service.
  function IngressMeaning(wg: string, q: Policy, p: Packet): Verdict {
    var fromWireGuard := wg != "" && p.iif == wg;
    if q.networkClosed then
      if IsPeer(q, p.src) then Accept
      else if fromWireGuard || wg == "" then Drop
      else if p.established then Accept
      else Pass
    else
      if p.established || (q.servicePort > 0 && Tcp(p, q.servicePort)) || SshAllowed(q, p) then Accept
      else if fromWireGuard || (q.sshPort > 0 && Tcp(p, q.sshPort)) then Drop
      else Pass
  }

  // What it means for a packet a service sends to the outside.
  function EgressMeaning(wg: string, inet: string, q: Policy, p: Packet): Verdict {
    if p.established then Accept
    else if !q.egressEnabled && inet != "" && p.oif == inet then Drop
    else if !q.networkClosed && q.servicePort > 0 && wg != "" && p.oif == wg && p.tcp && p.sport == q.servicePort
    then Accept
    else Pass
  }

  lemma IngressTable(wg: string, inet: string, q: Policy, p: Packet)
    requires q.serviceIp == Ip(p.dst) && q.serviceIp != Ip(p.src)
    ensures Then(ClosedVerdict(wg, q, p), if p.established then Accept else OpenVerdict(wg, inet, true, q, p))
         == IngressMeaning(wg, q, p)
  {
  }

  lemma ForwardIngress(wg: string, inet: string, ps: seq<Policy>, i: nat, p: Packet)
    requires DistinctServices(ps) && i < |ps|
    requires ps[i].serviceIp == Ip(p.dst) && !IsService(ps, p.src)
    ensures Eval(NftForward(wg, inet, ps), p) == IngressMeaning(wg, ps[i], p)
  {
    var closed, open := NftClosed(wg), NftOpen(wg, inet, Forward);
    forall j | 0 <= j < |ps|
      ensures Eval(StageRules(closed, ps[j]), p) == ClosedVerdict(wg, ps[j], p)
      ensures Eval(StageRules(open, ps[j]), p) == OpenVerdict(wg, inet, true, ps[j], p)
      ensures j != i ==> ps[j].serviceIp != Ip(p.dst)
      ensures ps[j].serviceIp != Ip(p.src)
    {
      NftClosedDecides(wg, ps[j], p);
      NftOpenDecides(wg, inet, ps[j], p);
    }
    StageDecidedByOne(closed, ps, p, i);
    StageDecidedByOne(open, ps, p, i);
    ChainVerdict(Compile(closed, ps), Compile(open, ps), p);
    IngressTable(wg, inet, ps[i], p);
  }

  lemma ForwardEgress(wg: string, inet: string, ps: seq<Policy>, i: nat, p: Packet)
    requires DistinctServices(ps) && i < |ps|
    requires ps[i].serviceIp == Ip(p.src) && !IsService(ps, p.dst)
    ensures Eval(NftForward(wg, inet, ps), p) == EgressMeaning(wg, inet, ps[i], p)
  {
    var closed, open := NftClosed(wg), NftOpen(wg, inet, Forward);
    forall j | 0 <= j < |ps|
      ensures Eval(StageRules(closed, ps[j]), p) == Pass
      ensures Eval(StageRules(open, ps[j]), p) == OpenVerdict(wg, inet, true, ps[j], p)
      ensures j != i ==> ps[j].serviceIp != Ip(p.src)
      ensures ps[j].serviceIp != Ip(p.dst)
    {
      NftClosedDecides(wg, ps[j], p);
      NftOpenDecides(wg, inet, ps[j], p);
    }
    StagePasses(closed, ps, p);
    StageDecidedByOne(open, ps, p, i);
    ChainVerdict(Compile(closed, ps), Compile(open, ps), p);
  }

  lemma ForwardTransit(wg: string, inet: string, ps: seq<Policy>, p: Packet)
    requires !IsService(ps, p.src) && !IsService(ps, p.dst)
    ensures Eval(NftForward(wg, inet, ps), p) == if p.established then Accept else Pass
  {
    var closed, open := NftClosed(wg), NftOpen(wg, inet, Forward);
    forall q | q in ps
      ensures Eval(StageRules(closed, q), p) == Pass && Eval(StageRules(open, q), p) == Pass
    {
      NftClosedDecides(wg, q, p);
      NftOpenDecides(wg, inet, q, p);
    }
    StagePasses(closed, ps, p);
    StagePasses(open, ps, p);
    ChainVerdict(Compile(closed, ps), Compile(open, ps), p);
  }

  // On the WireGuard path every packet to a service is accepted or dropped, and accepted exactly when listed.
  lemma WireGuardDefaultDeny(wg: string, inet: string, ps: seq<Policy>, i: nat, p: Packet)
    requires DistinctServices(ps) && i < |ps| && wg != "" && p.iif == wg
    requires ps[i].serviceIp == Ip(p.dst) && !IsService(ps, p.src)
    ensures var verdict := Eval(NftForward(wg, inet, ps), p);
            && (verdict == Accept <==>
                  if ps[i].networkClosed then IsPeer(ps[i], p.src)
                  else p.established || (ps[i].servicePort > 0 && Tcp(p, ps[i].servicePort)) || SshAllowed(ps[i], p))
            && (verdict != Accept ==> verdict == Drop)
  {
    ForwardIngress(wg, inet, ps, i, p);
  }

  lemma SamePolicy(ps: seq<Policy>, qs: seq<Policy>, addr: nat) returns (i: nat, j: nat)
    requires multiset(ps) == multiset(qs) && IsService(ps, addr)
    ensures i < |ps| && j < |qs| && ps[i] == qs[j] && ps[i].serviceIp == Ip(addr)
  {
    var q :| q in ps && q.serviceIp == Ip(addr);
    assert q in multiset(ps) && q in multiset(qs);
    assert q in qs;
    i :| 0 <= i < |ps| && ps[i] == q;
    j :| 0 <= j < |qs| && qs[j] == q;
  }

  lemma SameServices(ps: seq<Policy>, qs: seq<Policy>, addr: nat)
    requires multiset(ps) == multiset(qs)
    ensures IsService(ps, addr) <==> IsService(qs, addr)
  {
    if IsService(ps, addr) {
      var i, j := SamePolicy(ps, qs, addr);
      assert qs[j] in qs;
    }
    if IsService(qs, addr) {
      var i, j := SamePolicy(qs, ps, addr);
      assert ps[j] in ps;
    }
  }

  // Reordering the policy list changes no verdict unless both ends of the packet are services.
  lemma PolicyOrderIrrelevant(wg: string, inet: string, ps: seq<Policy>, qs: seq<Policy>, p: Packet)
    requires multiset(ps) == multiset(qs) && DistinctServices(ps) && DistinctServices(qs)
    requires !IsService(ps, p.src) || !IsService(ps, p.dst)
    ensures Eval(NftForward(wg, inet, ps), p) == Eval(NftForward(wg, inet, qs), p)
  {
    SameServices(ps, qs, p.src);
    SameServices(ps, qs, p.dst);
    if IsService(ps, p.dst) {
      var i, j := SamePolicy(ps, qs, p.dst);
      ForwardIngress(wg, inet, ps, i, p);
      ForwardIngress(wg, inet, qs, j, p);
    } else if IsService(ps, p.src) {
      var i, j := SamePolicy(ps, qs, p.src);
      ForwardEgress(wg, inet, ps, i, p);
      ForwardEgress(wg, inet, qs, j, p);
    } else {
      ForwardTransit(wg, inet, ps, p);
      ForwardTransit(wg, inet, qs, p);
    }
  }

  // ---------------------------------------------------------------- exactly when policy order matters

  // A stage is decided by the earlier of the only two policies whose rules touch the packet, if it has a say.
  lemma StageDecidedByTwo(stage: Stage, ps: seq<Policy>, p: Packet, i: nat, j: nat)
    requires i < j < |ps|
    requires forall k :: 0 <= k < |ps| && k != i && k != j ==> Eval(StageRules(stage, ps[k]), p) == Pass
    ensures Eval(Compile(stage, ps), p) == Then(Eval(StageRules(stage, ps[i]), p), Eval(StageRules(stage, ps[j]), p))
    decreases |ps|
  {
    var front, last := ps[..|ps| - 1], ps[|ps| - 1];
    EvalConcat(Compile(stage, front), StageRules(stage, last), p);
    assert forall k :: 0 <= k < |front| ==> front[k] == ps[k];
    if j == |front| {
      StageDecidedByOne(stage, front, p, i);
    } else {
      StageDecidedByTwo(stage, front, p, i, j);
    }
  }

  function Between(wg: string, inet: string, first: Policy, second: Policy, to: Policy, p: Packet): Verdict {
    Then(ClosedVerdict(wg, to, p),
         if p.established then Accept
         else Then(OpenVerdict(wg, inet, true, first, p), OpenVerdict(wg, inet, true, second, p)))
  }

  lemma OthersPass(wg: string, inet: string, ps: seq<Policy>, p: Packet, i: nat, j: nat)
    requires DistinctServices(ps) && i < |ps| && j < |ps|
    requires ps[i].serviceIp == Ip(p.src) && ps[j].serviceIp == Ip(p.dst)
    ensures forall k :: 0 <= k < |ps| && k != j ==> Eval(StageRules(NftClosed(wg), ps[k]), p) == Pass
    ensures forall k :: 0 <= k < |ps| && k != i && k != j ==>
              Eval(StageRules(NftOpen(wg, inet, Forward), ps[k]), p) == Pass
  {
    forall k | 0 <= k < |ps|
      ensures k != j ==> Eval(StageRules(NftClosed(wg), ps[k]), p) == Pass
      ensures k != i && k != j ==> Eval(StageRules(NftOpen(wg, inet, Forward), ps[k]), p) == Pass
    {
      NftClosedDecides(wg, ps[k], p);
      NftOpenDecides(wg, inet, ps[k], p);
      assert k != j ==> ps[k].serviceIp != Ip(p.dst);
      assert k != i ==> ps[k].serviceIp != Ip(p.src);
    }
  }

  // The verdict on a packet from one service to another, by which of the two comes first.
  lemma ForwardBetween(wg: string, inet: string, ps: seq<Policy>, p: Packet, i: nat, j: nat)
    requires DistinctServices(ps) && i < |ps| && j < |ps| && i != j
    requires ps[i].serviceIp == Ip(p.src) && ps[j].serviceIp == Ip(p.dst)
    ensures Eval(NftForward(wg, inet, ps), p)
         == if i < j then Between(wg, inet, ps[i], ps[j], ps[j], p) else Between(wg, inet, ps[j], ps[i], ps[j], p)
  {
    OthersPass(wg, inet, ps, p, i, j);
    if i < j {
      ForwardOfTwo(wg, inet, ps, p, i, j, j);
    } else {
      ForwardOfTwo(wg, inet, ps, p, j, i, j);
    }
  }

  // Two services decide the open stage between them, and one of them the closed stage.
  lemma ForwardOfTwo(wg: string, inet: string, ps: seq<Policy>, p: Packet, i: nat, j: nat, to: nat)
    requires i < j < |ps| && to < |ps|
    requires forall k :: 0 <= k < |ps| && k != to ==> Eval(StageRules(NftClosed(wg), ps[k]), p) == Pass
    requires forall k :: 0 <= k < |ps| && k != i && k != j ==>
               Eval(StageRules(NftOpen(wg, inet, Forward), ps[k]), p) == Pass
    ensures Eval(NftForward(wg, inet, ps), p) == Between(wg, inet, ps[i], ps[j], ps[to], p)
  {
    var closed, open := NftClosed(wg), NftOpen(wg, inet, Forward);
    NftClosedDecides(wg, ps[to], p);
    StageDecidedByOne(closed, ps, p, to);
    OpenOfTwo(wg, inet, ps, p, i, j);
    ChainVerdict(Compile(closed, ps), Compile(open, ps), p);
  }

  lemma OpenOfTwo(wg: string, inet: string, ps: seq<Policy>, p: Packet, i: nat, j: nat)
    requires i < j < |ps|
    requires forall k :: 0 <= k < |ps| && k != i && k != j ==>
               Eval(StageRules(NftOpen(wg, inet, Forward), ps[k]), p) == Pass
    ensures Eval(Compile(NftOpen(wg, inet, Forward), ps), p)
         == Then(OpenVerdict(wg, inet, true, ps[i], p), OpenVerdict(wg, inet, true, ps[j], p))
  {
    NftOpenDecides(wg, inet, ps[i], p);
    NftOpenDecides(wg, inet, ps[j], p);
    StageDecidedByTwo(NftOpen(wg, inet, Forward), ps, p, i, j);
  }

  // A packet from a service to itself concerns that service's policy alone.
  lemma ForwardToSelf(wg: string, inet: string, ps: seq<Policy>, p: Packet, i: nat)
    requires DistinctServices(ps) && i < |ps| && ps[i].serviceIp == Ip(p.src) == Ip(p.dst)
    ensures Eval(NftForward(wg, inet, ps), p)
         == Then(ClosedVerdict(wg, ps[i], p), if p.established then Accept else OpenVerdict(wg, inet, true, ps[i], p))
  {
    var closed, open := NftClosed(wg), NftOpen(wg, inet, Forward);
    OthersPass(wg, inet, ps, p, i, i);
    NftClosedDecides(wg, ps[i], p);
    NftOpenDecides(wg, inet, ps[i], p);
    StageDecidedByOne(closed, ps, p, i);
    StageDecidedByOne(open, ps, p, i);
    ChainVerdict(Compile(closed, ps), Compile(open, ps), p);
  }

  // The sending service may not use this way out.
  predicate Blocks(inet: string, from: Policy, p: Packet) {
    !from.egressEnabled && inet != "" && p.oif == inet
  }

  // The packet leaves by WireGuard from the sending service's own port.
  predicate Replies(wg: string, inet: string, from: Policy, p: Packet) {
    && !Blocks(inet, from, p) && !from.networkClosed && from.servicePort > 0
    && wg != "" && p.oif == wg && p.tcp && p.sport == from.servicePort
  }

  // The packet is for the receiving service's port, or SSH it allows.
  predicate Admits(to: Policy, p: Packet) {
    !to.networkClosed && ((to.servicePort > 0 && Tcp(p, to.servicePort)) || SshAllowed(to, p))
  }

  // SSH it does not allow, or anything else coming in by WireGuard.
  predicate Refuses(wg: string, to: Policy, p: Packet) {
    !to.networkClosed && !Admits(to, p) && ((to.sshPort > 0 && Tcp(p, to.sshPort)) || (wg != "" && p.iif == wg))
  }

  // The sender's and the receiver's rules contradict each other on a new connection.
  predicate Clash(wg: string, inet: string, from: Policy, to: Policy, p: Packet) {
    !p.established && ((Blocks(inet, from, p) && Admits(to, p)) || (Replies(wg, inet, from, p) && Refuses(wg, to, p)))
  }

  lemma SenderTable(wg: string, inet: string, q: Policy, p: Packet)
    requires q.serviceIp == Ip(p.src) && p.src != p.dst && !p.established
    ensures OpenVerdict(wg, inet, true, q, p)
         == if Blocks(inet, q, p) then Drop else if Replies(wg, inet, q, p) then Accept else Pass
  {
  }

  lemma ReceiverTable(wg: string, inet: string, q: Policy, p: Packet)
    requires q.serviceIp == Ip(p.dst) && p.src != p.dst && !p.established
    ensures OpenVerdict(wg, inet, true, q, p)
         == if Admits(q, p) then Accept else if Refuses(wg, q, p) then Drop else Pass
    ensures !q.networkClosed ==> ClosedVerdict(wg, q, p) == Pass
  {
  }

  lemma SwapMattersIff(wg: string, inet: string, from: Policy, to: Policy, p: Packet)
    requires from.serviceIp == Ip(p.src) && to.serviceIp == Ip(p.dst) && p.src != p.dst
    ensures Between(wg, inet, from, to, to, p) != Between(wg, inet, to, from, to, p) <==> Clash(wg, inet, from, to, p)
  {
    if !p.established {
      SenderTable(wg, inet, from, p);
      ReceiverTable(wg, inet, to, p);
    }
  }

  predicate Reordered(ps: seq<Policy>, qs: seq<Policy>) { multiset(ps) == multiset(qs) }

  lemma {:induction false} OccursOnceMore(s: seq<Policy>, i: nat, j: nat)
    requires i < j < |s| && s[i] == s[j]
    ensures multiset(s)[s[i]] >= 2
  {
    assert s == s[..j] + [s[j]] + s[j + 1..];
    assert s[..j][i] in multiset(s[..j]);
  }

  lemma {:induction false} OccursTwice(s: seq<Policy>, q: Policy) returns (i: nat, j: nat)
    requires multiset(s)[q] >= 2
    ensures i < j < |s| && s[i] == q && s[j] == q
  {
    assert s == [s[0]] + s[1..];
    if s[0] == q {
      assert q in multiset(s[1..]);
      assert q in s[1..];
      i, j := 0, 0;
      var k :| 0 <= k < |s[1..]| && s[1..][k] == q;
      j := k + 1;
    } else {
      i, j := OccursTwice(s[1..], q);
      i, j := i + 1, j + 1;
    }
  }

  lemma FoundIn(ps: seq<Policy>, qs: seq<Policy>, k: nat) returns (i: nat)
    requires Reordered(ps, qs) && k < |qs|
    ensures i < |ps| && ps[i] == qs[k]
  {
    assert qs[k] in multiset(qs) && qs[k] in multiset(ps);
    i :| 0 <= i < |ps| && ps[i] == qs[k];
  }

  lemma ReorderedStaysDistinct(ps: seq<Policy>, qs: seq<Policy>)
    requires Reordered(ps, qs) && DistinctServices(ps)
    ensures DistinctServices(qs)
  {
    forall i, j | 0 <= i < j < |qs| && qs[i].serviceIp.Ip? ensures qs[i].serviceIp != qs[j].serviceIp {
      if qs[i].serviceIp == qs[j].serviceIp {
        var a := FoundIn(ps, qs, i);
        var b := FoundIn(ps, qs, j);
        if a == b {
          OccursOnceMore(qs, i, j);
          var c, d := OccursTwice(ps, qs[i]);
        }
      }
    }
  }

  // Exchanging two policies is a reordering.
  lemma Exchanged(ps: seq<Policy>, i: nat, j: nat) returns (qs: seq<Policy>)
    requires i < |ps| && j < |ps|
    ensures Reordered(ps, qs) && |qs| == |ps| && qs[i] == ps[j] && qs[j] == ps[i]
  {
    qs := ps[i := ps[j]][j := ps[i]];
    assert multiset(ps[i := ps[j]]) == multiset(ps) - multiset{ps[i]} + multiset{ps[j]};
  }

  // The packet goes between two different listed services whose policies contradict each other.
  ghost predicate Contested(wg: string, inet: string, ps: seq<Policy>, p: Packet) {
    exists from, to :: from in ps && to in ps && from.serviceIp == Ip(p.src) && to.serviceIp == Ip(p.dst)
                       && p.src != p.dst && Clash(wg, inet, from, to, p)
  }

  lemma {:induction false} UncontestedOrder(wg: string, inet: string, ps: seq<Policy>, qs: seq<Policy>, p: Packet)
    requires Reordered(ps, qs) && DistinctServices(ps) && DistinctServices(qs) && !Contested(wg, inet, ps, p)
    ensures Eval(NftForward(wg, inet, ps), p) == Eval(NftForward(wg, inet, qs), p)
  {
    if !IsService(ps, p.src) || !IsService(ps, p.dst) {
      PolicyOrderIrrelevant(wg, inet, ps, qs, p);
    } else {
      var i, i' := SamePolicy(ps, qs, p.src);
      var j, j' := SamePolicy(ps, qs, p.dst);
      if p.src == p.dst {
        ForwardToSelf(wg, inet, ps, p, i);
        ForwardToSelf(wg, inet, qs, p, i');
        assert i == j && i' == j';
      } else {
        ForwardBetween(wg, inet, ps, p, i, j);
        ForwardBetween(wg, inet, qs, p, i', j');
        SwapMattersIff(wg, inet, ps[i], ps[j], p);
        assert ps[i] in ps && ps[j] in ps;
      }
    }
  }

  lemma ContestedOrder(wg: string, inet: string, ps: seq<Policy>, p: Packet) returns (qs: seq<Policy>)
    requires DistinctServices(ps) && Contested(wg, inet, ps, p)
    ensures Reordered(ps, qs) && Eval(NftForward(wg, inet, ps), p) != Eval(NftForward(wg, inet, qs), p)
  {
    var from, to :| from in ps && to in ps && from.serviceIp == Ip(p.src) && to.serviceIp == Ip(p.dst)
                    && p.src != p.dst && Clash(wg, inet, from, to, p);
    var i :| 0 <= i < |ps| && ps[i] == from;
    var j :| 0 <= j < |ps| && ps[j] == to;
    qs := Exchanged(ps, i, j);
    ReorderedStaysDistinct(ps, qs);
    ForwardBetween(wg, inet, ps, p, i, j);
    ForwardBetween(wg, inet, qs, p, j, i);
    SwapMattersIff(wg, inet, from, to, p);
  }

  // Some reordering of the policies changes the verdict on a packet exactly when the packet is contested.
  lemma OrderMattersIff(wg: string, inet: string, ps: seq<Policy>, p: Packet)
    requires DistinctServices(ps)
    ensures (exists qs :: Reordered(ps, qs) && Eval(NftForward(wg, inet, ps), p) != Eval(NftForward(wg, inet, qs), p))
       <==> Contested(wg, inet, ps, p)
  {
    if Contested(wg, inet, ps, p) {
      var qs := ContestedOrder(wg, inet, ps, p);
    } else {
      forall qs | Reordered(ps, qs) ensures Eval(NftForward(wg, inet, ps), p) == Eval(NftForward(wg, inet, qs), p) {
        ReorderedStaysDistinct(ps, qs);
        UncontestedOrder(wg, inet, ps, qs, p);
      }
    }
  }

  // Between two services the order does matter: one policy's egress drop races the other's port accept.
  lemma OrderMattersBetweenServices()
    ensures exists wg, inet, a: Policy, b: Policy, p: Packet ::
              && DistinctServices([a, b]) && DistinctServices([b, a])
              && Eval(NftForward(wg, inet, [a, b]), p) != Eval(NftForward(wg, inet, [b, a]), p)
  {
    var a := Policy(Ip(1), 80, 22, false, [], false, false);
    var b := Policy(Ip(2), 80, 22, false, [], true, false);
    var p := Packet("eth1", "eth0", 1, 2, true, 5000, 80, false);
    assert DistinctServices([a, b]) && DistinctServices([b, a]);
    ForwardBetween("wg0", "eth0", [a, b], p, 0, 1);
    ForwardBetween("wg0", "eth0", [b, a], p, 1, 0);
    SwapMattersIff("wg0", "eth0", a, b, p);
  }

  lemma OutputServiceDecides(q: Policy, ip: nat, p: Packet)
    ensures Eval(NftServiceRules("", Output, q, ip), p)
         == if q.servicePort > 0 && p.dst == ip && Tcp(p, q.servicePort) then Accept else Pass
  {
  }

  // One policy's part of the output chain.
  lemma OutputRulesDecide(inet: string, q: Policy, p: Packet)
    ensures Eval(StageRules(NftOpen("", inet, Output), q), p)
         == if q.networkClosed || q.serviceIp != Ip(p.dst) then Pass
            else if (q.servicePort > 0 && Tcp(p, q.servicePort)) || SshAllowed(q, p) then Accept
            else if q.sshPort > 0 && Tcp(p, q.sshPort) then Drop
            else Pass
  {
    if q.serviceIp.Ip? {
      var ip := q.serviceIp.value;
      OutputServiceDecides(q, ip, p);
      NftSshDecides("", Output, q, ip, p);
      EvalConcat(NftServiceRules("", Output, q, ip), NftSshRules("", Output, q, ip), p);
      assert NftAdmitRules("", Output, q, ip) == NftServiceRules("", Output, q, ip) + NftSshRules("", Output, q, ip);
      assert NftOpenRules("", inet, Output, q) == if q.networkClosed then [] else NftAdmitRules("", Output, q, ip);
    }
  }

  // The whole output chain on a packet from the host to a service, as a table of that service's policy.
  lemma OutputToService(inet: string, ps: seq<Policy>, i: nat, p: Packet)
    requires DistinctServices(ps) && i < |ps| && ps[i].serviceIp == Ip(p.dst)
    ensures Eval(NftOutput(inet, ps), p)
         == if p.established then Accept
            else if ps[i].networkClosed then Pass
            else if ps[i].servicePort > 0 && p.tcp && p.dport == ps[i].servicePort then Accept
            else if ps[i].sshUnlocked && p.tcp && p.dport == ps[i].sshPort && Ip(p.src) in ps[i].peers then Accept
            else if ps[i].sshPort > 0 && p.tcp && p.dport == ps[i].sshPort then Drop
            else Pass
  {
    var open := NftOpen("", inet, Output);
    forall j | 0 <= j < |ps| ensures j != i ==> Eval(StageRules(open, ps[j]), p) == Pass {
      OutputRulesDecide(inet, ps[j], p);
      assert j != i ==> ps[j].serviceIp != Ip(p.dst);
    }
    OutputRulesDecide(inet, ps[i], p);
    StageDecidedByOne(open, ps, p, i);
    EvalConcat([ESTABLISHED], Compile(open, ps), p);
  }

  // On any other packet it only recognises established connections.
  lemma OutputElsewhere(inet: string, ps: seq<Policy>, p: Packet)
    requires !IsService(ps, p.dst)
    ensures Eval(NftOutput(inet, ps), p) == if p.established then Accept else Pass
  {
    var open := NftOpen("", inet, Output);
    forall q | q in ps ensures Eval(StageRules(open, q), p) == Pass {
      OutputRulesDecide(inet, q, p);
    }
    StagePasses(open, ps, p);
    EvalConcat([ESTABLISHED], Compile(open, ps), p);
  }

  // The output chain drops nothing but SSH to open services, duplicates included.
  lemma OutputDropsOnlySsh(inet: string, ps: seq<Policy>, p: Packet)
    requires Eval(NftOutput(inet, ps), p) == Drop
    ensures exists q :: q in ps && !q.networkClosed && q.serviceIp == Ip(p.dst)
                        && Tcp(p, q.sshPort) && !SshAllowed(q, p)
  {
    var open := NftOpen("", inet, Output);
    EvalConcat([ESTABLISHED], Compile(open, ps), p);
    if forall q :: q in ps ==> Eval(StageRules(open, q), p) != Drop {
      StageNeverDrops(open, ps, p);
    } else {
      var q :| q in ps && Eval(StageRules(open, q), p) == Drop;
      OutputRulesDecide(inet, q, p);
    }
  }

  lemma {:induction false} StageNeverDrops(stage: Stage, ps: seq<Policy>, p: Packet)
    requires forall q :: q in ps ==> Eval(StageRules(stage, q), p) != Drop
    ensures Eval(Compile(stage, ps), p) != Drop
  {
    if ps != [] {
      StageNeverDrops(stage, ps[..|ps| - 1], p);
      EvalConcat(Compile(stage, ps[..|ps| - 1]), StageRules(stage, ps[|ps| - 1]), p);
    }
  }

  predicate PortsSet(q: Policy) {
    q.serviceIp.Ip? && !q.networkClosed ==> q.servicePort > 0 && q.sshPort > 0
  }

  lemma ClosedRulesAgree(wg: string, q: Policy, p: Packet)
    requires wg != ""
    ensures Eval(StageRules(IptClosed(wg), q), p) == Eval(StageRules(NftClosed(wg), q), p)
  {
    NftClosedDecides(wg, q, p);
    IptClosedDecides(wg, q, p);
  }

  lemma OpenRulesAgree(wg: string, inet: string, q: Policy, p: Packet)
    requires wg != "" && PortsSet(q)
    ensures Eval(StageRules(IptOpen(wg, inet), q), p) == Eval(StageRules(NftOpen(wg, inet, Forward), q), p)
  {
    NftOpenDecides(wg, inet, q, p);
    IptOpenDecides(wg, inet, q, p);
  }

  // Same verdict for every packet and every policy list, duplicates included.
  lemma BackendsAgree(wg: string, inet: string, ps: seq<Policy>, p: Packet)
    requires wg != ""
    requires forall q :: q in ps ==> PortsSet(q)
    ensures Eval(IptablesChain(wg, inet, ps), p) == Eval(NftForward(wg, inet, ps), p)
  {
    forall q | q in ps
      ensures Eval(StageRules(IptClosed(wg), q), p) == Eval(StageRules(NftClosed(wg), q), p)
      ensures Eval(StageRules(IptOpen(wg, inet), q), p) == Eval(StageRules(NftOpen(wg, inet, Forward), q), p)
    {
      ClosedRulesAgree(wg, q, p);
      OpenRulesAgree(wg, inet, q, p);
    }
    StagesAgree(IptClosed(wg), NftClosed(wg), ps, p);
    StagesAgree(IptOpen(wg, inet), NftOpen(wg, inet, Forward), ps, p);
    ChainVerdict(Compile(IptClosed(wg), ps), Compile(IptOpen(wg, inet), ps), p);
    ChainVerdict(Compile(NftClosed(wg), ps), Compile(NftOpen(wg, inet, Forward), ps), p);
  }

  function Above(ps: seq<Policy>, peers: seq<Address>): (next: nat)
    ensures !IsService(ps, next) && Ip(next) !in peers
    ensures forall addr: nat :: IsService(ps, addr) || Ip(addr) in peers ==> addr < next
  {
    if ps != [] then
      var rest := Above(ps[1..], peers);
      assert ps == [ps[0]] + ps[1..];
      if ps[0].serviceIp.Ip? && ps[0].serviceIp.value >= rest then ps[0].serviceIp.value + 1 else rest
    else if peers != [] then
      var rest := Above(ps, peers[1..]);
      assert peers == [peers[0]] + peers[1..];
      if peers[0].Ip? && peers[0].value >= rest then peers[0].value + 1 else rest
    else 0
  }

  lemma IptablesIngress(wg: string, inet: string, ps: seq<Policy>, i: nat, p: Packet)
    requires wg != "" && DistinctServices(ps) && i < |ps|
    requires ps[i].serviceIp == Ip(p.dst) && !IsService(ps, p.src)
    ensures Eval(IptablesChain(wg, inet, ps), p)
         == Then(ClosedVerdict(wg, ps[i], p), if p.established then Accept else OpenVerdict(wg, inet, false, ps[i], p))
  {
    var closed, open := IptClosed(wg), IptOpen(wg, inet);
    forall j | 0 <= j < |ps|
      ensures Eval(StageRules(closed, ps[j]), p) == ClosedVerdict(wg, ps[j], p)
      ensures Eval(StageRules(open, ps[j]), p) == OpenVerdict(wg, inet, false, ps[j], p)
      ensures j != i ==> ps[j].serviceIp != Ip(p.dst)
      ensures ps[j].serviceIp != Ip(p.src)
    {
      IptClosedDecides(wg, ps[j], p);
      IptOpenDecides(wg, inet, ps[j], p);
    }
    StageDecidedByOne(closed, ps, p, i);
    StageDecidedByOne(open, ps, p, i);
    ChainVerdict(Compile(closed, ps), Compile(open, ps), p);
  }

  // With a zero port the renderers differ: iptables emits the port-0 rules that nftables leaves out.
  lemma ZeroPortSeparates(wg: string, inet: string, ps: seq<Policy>, i: nat) returns (p: Packet)
    requires wg != "" && DistinctServices(ps) && i < |ps| && !PortsSet(ps[i])
    ensures Eval(IptablesChain(wg, inet, ps), p) != Eval(NftForward(wg, inet, ps), p)
  {
    var q := ps[i];
    p := Packet(wg + "x", "", Above(ps, q.peers), q.serviceIp.value, true, 1, 0, false);
    assert |p.iif| == |wg| + 1;
    NoPeerAbove(ps, q);
    ForwardIngress(wg, inet, ps, i, p);
    IptablesIngress(wg, inet, ps, i, p);
    ZeroPortTables(wg, inet, q, p);
  }

  lemma NoPeerAbove(ps: seq<Policy>, q: Policy)
    ensures !IsPeer(q, Above(ps, q.peers)) && !IsService(ps, Above(ps, q.peers))
  {
  }

  // A new connection to port 0 from a stranger, not by WireGuard.
  lemma ZeroPortTables(wg: string, inet: string, q: Policy, p: Packet)
    requires wg != "" && !PortsSet(q) && q.serviceIp == Ip(p.dst) != Ip(p.src) && !IsPeer(q, p.src)
    requires p.iif != wg && p.oif == "" && Tcp(p, 0) && !p.established
    ensures Then(ClosedVerdict(wg, q, p), OpenVerdict(wg, inet, false, q, p)) != IngressMeaning(wg, q, p)
  {
  }

  lemma BackendsAgreeIff(wg: string, inet: string, ps: seq<Policy>)
    requires wg != "" && DistinctServices(ps)
    ensures (forall p :: Eval(IptablesChain(wg, inet, ps), p) == Eval(NftForward(wg, inet, ps), p))
       <==> (forall q :: q in ps ==> PortsSet(q))
  {
    if forall q :: q in ps ==> PortsSet(q) {
      forall p ensures Eval(IptablesChain(wg, inet, ps), p) == Eval(NftForward(wg, inet, ps), p) {
        BackendsAgree(wg, inet, ps, p);
      }
    } else {
      var i :| 0 <= i < |ps| && !PortsSet(ps[i]);
      var p := ZeroPortSeparates(wg, inet, ps, i);
    }
  }
}
