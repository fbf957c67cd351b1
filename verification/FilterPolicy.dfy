/** The filter chains that the initialisation builds (src/fw_iptables.c:222-304, 544-668) and the
    access policy they implement. */
module FilterPolicy {
  import opened Iptables
  import opened Configuration

  // ---------------------------------------------------------------- compilation

  function Match1(o: Option<Match>): (r: seq<Match>) {
    if o.Some? then [o.value] else []
  }

  function CompileTarget(t: UserTarget): (r: Target) {
    match t
    case TargetReject => Reject
    case TargetDrop => Drop
    case TargetAccept => Accept
    case TargetLog => Log
    case TargetUlog => Ulog
  }

  function CompileMatches(r: UserRule): (ms: seq<Match>) {
    Match1(if r.mask.Some? then Some(DstNet(r.mask.value)) else None)
    + Match1(if r.protocol.Some? then Some(Protocol(r.protocol.value)) else None)
    + Match1(if r.port.Some? then Some(DestPort(r.port.value)) else None)
    + Match1(if r.ipset.Some? then Some(InSet(r.ipset.value)) else None)
  }

  /** `_iptables_compile`. */
  function Compile(r: UserRule): (rule: Rule) {
    Rule(CompileMatches(r), CompileTarget(r.target))
  }

  /** `_iptables_append_ruleset`. */
  function CompileAll(rs: seq<UserRule>): (r: seq<Rule>)
    ensures |r| == |rs|
    ensures forall i :: 0 <= i < |r| ==> !r[i].target.Jump?
  {
    if rs == [] then [] else [Compile(rs[0])] + CompileAll(rs[1..])
  }

  function PolicyTarget(p: Policy): (t: Target) {
    match p
    case PolicyAccept => Accept
    case PolicyReject => Reject
    case PolicyReturn => Return
  }

  function MarkRule(cfg: Config, m: Mark, t: Target): (r: Rule) {
    Rule([MarkIs(m, MarkMask(cfg))], t)
  }

  const RejectAll := Rule([], Reject)

  /** Packets with mark `m`: the policy of an empty rule set, or a jump to the chain of the set. */
  function ClassRule(cfg: Config, m: Mark, set_: RuleSet, to: Chain): (r: Rule) {
    MarkRule(cfg, m, if set_.rules == [] then PolicyTarget(set_.empty) else Jump(to))
  }

  /** The chain of a rule set. */
  function ClassChain(set_: RuleSet): (r: seq<Rule>) {
    if set_.rules == [] then []
    else [Rule([CtEstablished], Accept)] + CompileAll(set_.rules) + [RejectAll]
  }

  const TCP := "tcp"

  function MssRules(cfg: Config): (r: seq<Rule>) {
    if cfg.setMss then [Rule([Protocol(TCP), SynOnly], TcpMss(if cfg.mssValue > 0 then cfg.mssValue else 0))] else []
  }

  /** ndsNET. */
  function NetChain(cfg: Config): (r: seq<Rule>) {
    var pre := cfg.preauthenticatedUsers;
    [MarkRule(cfg, cfg.blockedMark, Drop), Rule([CtInvalid], Drop)]
    + MssRules(cfg)
    + [ClassRule(cfg, cfg.trustedMark, cfg.trustedUsers, NdsTRU),
       ClassRule(cfg, cfg.authMark, cfg.authenticatedUsers, NdsAUT)]
    + (if pre.rules == [] then [Rule([], PolicyTarget(pre.empty))] else CompileAll(pre.rules))
    + [RejectAll]
  }

  /** ndsRTR. */
  function RtrChain(cfg: Config): (r: seq<Rule>) {
    var users := cfg.usersToRouter;
    [MarkRule(cfg, cfg.blockedMark, Drop), Rule([CtInvalid], Drop), Rule([CtEstablished], Accept),
     Rule([Protocol(TCP), SynWithoutMss], Drop), Rule([Protocol(TCP), DestPort(cfg.port)], Accept),
     ClassRule(cfg, cfg.trustedMark, cfg.trustedUsersToRouter, NdsTRT)]
    + (if users.rules == [] then [Rule([], PolicyTarget(users.empty))] else CompileAll(users.rules) + [RejectAll])
  }

  // ---------------------------------------------------------------- reference

  datatype Class = Blocked | Trusted | Authenticated | Preauthenticated

  /** What the mark says about the packet. */
  function ClassOf(cfg: Config, p: Packet): (c: Class) {
    if Seen(cfg, p) == cfg.trustedMark then Trusted
    else if Seen(cfg, p) == cfg.authMark then Authenticated
    else if Seen(cfg, p) == cfg.blockedMark then Blocked
    else Preauthenticated
  }

  /** The bits of the mark that the rules look at. */
  function Seen(cfg: Config, p: Packet): (m: Mark) {
    And(p.mark, MarkMask(cfg))
  }

  /** The packet satisfies everything the rule asks for. */
  predicate Applies(r: UserRule, p: Packet) {
    && (r.mask.Some? ==> p.env(DstNet(r.mask.value)))
    && (r.protocol.Some? ==> p.env(Protocol(r.protocol.value)))
    && (r.port.Some? ==> p.env(DestPort(r.port.value)))
    && (r.ipset.Some? ==> p.env(InSet(r.ipset.value)))
  }

  predicate Decides(r: UserRule) {
    !r.target.TargetLog? && !r.target.TargetUlog?
  }

  /** The first rule, in file order, that applies and decides. */
  function FirstRule(rs: seq<UserRule>, p: Packet): (r: Option<UserRule>)
    ensures r.Some? ==> r.value in rs && Applies(r.value, p) && Decides(r.value)
    ensures r.None? ==> forall i :: 0 <= i < |rs| ==> !(Applies(rs[i], p) && Decides(rs[i]))
  {
    if rs == [] then None
    else if Applies(rs[0], p) && Decides(rs[0]) then Some(rs[0])
    else
      assert forall i :: 0 < i < |rs| ==> rs[i] == rs[1..][i - 1];
      FirstRule(rs[1..], p)
  }

  /** The decision of a rule: allow, drop or block. */
  function ByTarget(t: UserTarget, p: Packet): (v: Verdict) {
    if t.TargetAccept? then Decided(Accept, p.mark)
    else if t.TargetDrop? then Decided(Drop, p.mark)
    else Decided(Reject, p.mark)
  }

  /** The decision of a rule set whose default is to reject. */
  function ByRules(rs: seq<UserRule>, p: Packet): (v: Verdict) {
    var r := FirstRule(rs, p);
    if r.Some? then ByTarget(r.value.target, p) else Decided(Reject, p.mark)
  }

  function ByPolicy(pol: Policy, p: Packet): (v: Verdict) {
    match pol
    case PolicyAccept => Decided(Accept, p.mark)
    case PolicyReject => Decided(Reject, p.mark)
    case PolicyReturn => Returned(p.mark)
  }

  /** A class with its own rule set: established connections pass, then the rules, else reject. */
  function ByClass(set_: RuleSet, p: Packet): (v: Verdict) {
    if set_.rules == [] then ByPolicy(set_.empty, p)
    else if p.env(CtEstablished) then Decided(Accept, p.mark)
    else ByRules(set_.rules, p)
  }

  /** Access of a class of clients to the Internet. */
  function NetAccess(cfg: Config, c: Class, p: Packet): (v: Verdict) {
    if c == Blocked || p.env(CtInvalid) then Decided(Drop, p.mark)
    else match c
      case Trusted => ByClass(cfg.trustedUsers, p)
      case Authenticated => ByClass(cfg.authenticatedUsers, p)
      case _ =>
        var pre := cfg.preauthenticatedUsers;
        if pre.rules == [] then ByPolicy(pre.empty, p) else ByRules(pre.rules, p)
  }

  /** Access of a class of clients to the router itself. */
  function RtrAccess(cfg: Config, c: Class, p: Packet): (v: Verdict) {
    if c == Blocked || p.env(CtInvalid) then Decided(Drop, p.mark)
    else if p.env(CtEstablished) then Decided(Accept, p.mark)
    else if p.env(Protocol(TCP)) && p.env(SynWithoutMss) then Decided(Drop, p.mark)
    else if p.env(Protocol(TCP)) && p.env(DestPort(cfg.port)) then Decided(Accept, p.mark)
    else if c == Trusted then ByClass(cfg.trustedUsersToRouter, p)
    else if cfg.usersToRouter.rules == [] then ByPolicy(cfg.usersToRouter.empty, p)
    else ByRules(cfg.usersToRouter.rules, p)
  }

  /** Access to the Internet and to the router, by the mark of the packet. */
  function NetPolicy(cfg: Config, p: Packet): (v: Verdict) {
    NetAccess(cfg, ClassOf(cfg, p), p)
  }

  function RtrPolicy(cfg: Config, p: Packet): (v: Verdict) {
    RtrAccess(cfg, ClassOf(cfg, p), p)
  }

  // ---------------------------------------------------------------- proofs

  lemma {:induction false} CompiledMatches(r: UserRule, p: Packet)
    ensures Matches(Compile(r), p) <==> Applies(r, p)
  {
    hide Holds;
    var t := CompileTarget(r.target);
    var a := Match1(if r.mask.Some? then Some(DstNet(r.mask.value)) else None);
    var b := Match1(if r.protocol.Some? then Some(Protocol(r.protocol.value)) else None);
    var c := Match1(if r.port.Some? then Some(DestPort(r.port.value)) else None);
    var d := Match1(if r.ipset.Some? then Some(InSet(r.ipset.value)) else None);
    MatchesConcat(a + b + c, d, t, p);
    MatchesConcat(a + b, c, t, p);
    MatchesConcat(a, b, t, p);
    hide Matches;
    if r.mask.Some? { MatchesEnv(DstNet(r.mask.value), t, p); } else { MatchesNone(t, p); }
    if r.protocol.Some? { MatchesEnv(Protocol(r.protocol.value), t, p); } else { MatchesNone(t, p); }
    if r.port.Some? { MatchesEnv(DestPort(r.port.value), t, p); } else { MatchesNone(t, p); }
    if r.ipset.Some? { MatchesEnv(InSet(r.ipset.value), t, p); } else { MatchesNone(t, p); }
  }

  lemma {:induction false} MatchesConcat(a: seq<Match>, b: seq<Match>, t: Target, p: Packet)
    ensures Matches(Rule(a + b, t), p) <==> Matches(Rule(a, t), p) && Matches(Rule(b, t), p)
  {
    hide Holds;
    var c := a + b;
    assert forall i :: 0 <= i < |a| ==> c[i] == a[i];
    assert forall i :: 0 <= i < |b| ==> c[|a| + i] == b[i];
  }

  lemma {:induction false} MatchesEnv(m: Match, t: Target, p: Packet)
    requires m.DstNet? || m.Protocol? || m.DestPort? || m.InSet?
    ensures Matches(Rule([m], t), p) <==> p.env(m)
  {
    assert Rule([m], t).matches[0] == m;
  }

  lemma {:induction false} MatchesNone(t: Target, p: Packet)
    ensures Matches(Rule([], t), p)
  {
  }

  /** A compiled rule set decides by the first rule that applies and decides. */
  lemma {:induction false} CompiledEval(fw: Tables, rs: seq<UserRule>, p: Packet, depth: nat)
    ensures Eval(fw, Filter, CompileAll(rs), p, depth) ==
            var r := FirstRule(rs, p);
            if r.Some? then ByTarget(r.value.target, p) else Through(p.mark)
    decreases |rs|
  {
    if rs != [] {
      var rule := Compile(rs[0]);
      CompiledMatches(rs[0], p);
      assert CompileAll(rs)[0] == rule && CompileAll(rs)[1..] == CompileAll(rs[1..]);
      assert p.(mark := p.mark) == p;
      hide Matches, Applies, CompileMatches;
      if !(Applies(rs[0], p) && Decides(rs[0])) {
        assert Apply(fw, Filter, rule, p, depth) == Next(p.mark);
        CompiledEval(fw, rs[1..], p, depth);
      }
    }
  }

  /** One rule in front of a chain. */
  lemma {:induction false} EvalCons(fw: Tables, r: Rule, rest: seq<Rule>, p: Packet, depth: nat)
    ensures var e := Apply(fw, Filter, r, p, depth);
            Eval(fw, Filter, [r] + rest, p, depth)
            == if e.Stop? then e.v else Eval(fw, Filter, rest, p.(mark := e.mark), depth)
  {
    hide Apply;
    assert ([r] + rest)[0] == r && ([r] + rest)[1..] == rest;
  }

  /** A rule with one match and a target that is not a jump. */
  lemma {:induction false} ApplyOne(fw: Tables, m: Match, t: Target, p: Packet, depth: nat)
    requires t.Accept? || t.Drop? || t.Reject? || t.Return?
    ensures Apply(fw, Filter, Rule([m], t), p, depth) ==
            if !Holds(m, p) then Next(p.mark)
            else if t.Return? then Stop(Returned(p.mark)) else Stop(Decided(t, p.mark))
  {
    hide Holds;
    assert Rule([m], t).matches[0] == m;
    assert Matches(Rule([m], t), p) <==> Holds(m, p);
  }

  lemma {:induction false} ApplyTwo(fw: Tables, m: Match, n: Match, t: Target, p: Packet, depth: nat)
    requires t.Accept? || t.Drop? || t.TcpMss?
    ensures Apply(fw, Filter, Rule([m, n], t), p, depth) ==
            if t.TcpMss? || !(Holds(m, p) && Holds(n, p)) then Next(p.mark) else Stop(Decided(t, p.mark))
  {
    hide Holds;
    var r := Rule([m, n], t);
    assert r.matches[0] == m && r.matches[1] == n;
    assert Matches(r, p) <==> Holds(m, p) && Holds(n, p);
  }

  lemma {:induction false} ApplyAll(fw: Tables, t: Target, p: Packet, depth: nat)
    requires t.Accept? || t.Reject? || t.Return?
    ensures Apply(fw, Filter, Rule([], t), p, depth) ==
            if t.Return? then Stop(Returned(p.mark)) else Stop(Decided(t, p.mark))
  {
    assert Matches(Rule([], t), p);
  }

  /** Rules, then reject. */
  lemma {:induction false} RulesThenReject(fw: Tables, rs: seq<UserRule>, p: Packet, depth: nat)
    ensures Eval(fw, Filter, CompileAll(rs) + [RejectAll], p, depth) == ByRules(rs, p)
  {
    CompiledEval(fw, rs, p, depth);
    EvalConcat(fw, Filter, CompileAll(rs), [RejectAll], p, depth);
    ApplyAll(fw, Reject, p, depth);
    EvalCons(fw, RejectAll, [], p, depth);
    hide Eval, CompileAll, FirstRule, Apply;
    assert p.(mark := p.mark) == p;
    assert [RejectAll] + [] == [RejectAll];
  }

  /** Rule `i` applies and decides, and none before it does. */
  predicate Rules(rs: seq<UserRule>, p: Packet, i: nat) {
    && i < |rs| && Applies(rs[i], p) && Decides(rs[i])
    && forall j :: 0 <= j < i ==> !(Applies(rs[j], p) && Decides(rs[j]))
  }

  lemma {:induction false} FirstRuleIs(rs: seq<UserRule>, p: Packet)
    ensures FirstRule(rs, p).Some? ==> exists i: nat :: Rules(rs, p, i) && rs[i] == FirstRule(rs, p).value
    ensures forall i: nat :: Rules(rs, p, i) ==> FirstRule(rs, p) == Some(rs[i])
  {
    hide Applies, Decides;
    if rs != [] {
      var rest := rs[1..];
      FirstRuleIs(rest, p);
      assert forall i :: 0 <= i < |rest| ==> rest[i] == rs[i + 1];
      if Applies(rs[0], p) && Decides(rs[0]) {
        assert Rules(rs, p, 0);
      } else {
        forall i: nat | Rules(rs, p, i) ensures FirstRule(rs, p) == Some(rs[i]) {
          assert i > 0 && Rules(rest, p, i - 1);
        }
        if FirstRule(rest, p).Some? {
          var i: nat :| Rules(rest, p, i) && rest[i] == FirstRule(rest, p).value;
          assert Rules(rs, p, i + 1);
        }
      }
    }
  }

  /** A rule set lets a packet in, drops it or rejects it exactly as the first rule in file order that
      applies and decides says, and rejects it when there is none. */
  lemma {:induction false} RulesExactly(fw: Tables, rs: seq<UserRule>, p: Packet, depth: nat)
    ensures var v := Eval(fw, Filter, CompileAll(rs) + [RejectAll], p, depth);
            && (v == Decided(Accept, p.mark) <==> exists i: nat :: Rules(rs, p, i) && rs[i].target == TargetAccept)
            && (v == Decided(Drop, p.mark) <==> exists i: nat :: Rules(rs, p, i) && rs[i].target == TargetDrop)
            && (v == Decided(Reject, p.mark) <==>
                 (exists i: nat :: Rules(rs, p, i) && rs[i].target == TargetReject) || (forall i: nat :: !Rules(rs, p, i)))
  {
    hide Eval, CompileAll, FirstRule, Applies;
    RulesThenReject(fw, rs, p, depth);
    FirstRuleIs(rs, p);
    if FirstRule(rs, p).Some? {
      var i: nat :| Rules(rs, p, i) && rs[i] == FirstRule(rs, p).value;
      assert Decides(rs[i]);
    }
  }

  /** Every configured rule becomes one rule, in its place, that matches the packets it applies to;
      logging rules too. */
  lemma {:induction false} CompiledRule(rs: seq<UserRule>, p: Packet, i: nat)
    requires i < |rs|
    ensures |CompileAll(rs)| == |rs| && (Matches(CompileAll(rs)[i], p) <==> Applies(rs[i], p))
    ensures CompileAll(rs)[i].target.Log? <==> rs[i].target.TargetLog?
    ensures CompileAll(rs)[i].target.Ulog? <==> rs[i].target.TargetUlog?
  {
    if i == 0 {
      CompiledMatches(rs[0], p);
      hide Matches, Applies, CompileMatches;
    } else {
      hide Matches, Applies, CompileMatches;
      CompiledRule(rs[1..], p, i - 1);
    }
  }

  lemma {:induction false} MaskedBits(m: Mark, x: Mark, k: Mark)
    requires And(x, k) == 0
    ensures And(Or(m, x), k) == And(m, k) && And(m, 0xFFFF_FFFF) == m
  {
  }

  /** Where the kernel can mask, bits that are in none of the three marks change nothing about the class of
      a packet; where it cannot, a packet is of a class exactly if its mark is that of the class. */
  lemma {:induction false} ForeignBits(cfg: Config, p: Packet, x: Mark)
    requires ValidMarks(cfg)
    ensures cfg.masking && And(x, Or(Or(cfg.blockedMark, cfg.trustedMark), cfg.authMark)) == 0 ==>
              ClassOf(cfg, p.(mark := Or(p.mark, x))) == ClassOf(cfg, p)
    ensures !cfg.masking ==>
              && (ClassOf(cfg, p) == Trusted <==> p.mark == cfg.trustedMark)
              && (ClassOf(cfg, p) == Authenticated <==> p.mark == cfg.authMark)
              && (ClassOf(cfg, p) == Blocked <==> p.mark == cfg.blockedMark)
  {
    if cfg.masking {
      var k := Or(Or(cfg.blockedMark, cfg.trustedMark), cfg.authMark);
      if And(x, k) == 0 { MaskedBits(p.mark, x, k); }
    } else {
      MaskedBits(p.mark, 0, 0);
    }
    hide And, Or;
  }

  /** ndsNET changes the maximum segment size of new connections exactly if configured, to the
      configured value, or 0 for the path's own, and before it decides about packets of any class
      but blocked ones. */
  lemma {:induction false} MssExactly(cfg: Config)
    ensures cfg.setMss <==> |NetChain(cfg)| > 2 && NetChain(cfg)[2].target.TcpMss?
    ensures var v := if cfg.mssValue > 0 then cfg.mssValue else 0;
            cfg.setMss ==> NetChain(cfg)[2] == Rule([Protocol(TCP), SynOnly], TcpMss(v))
  {
    hide CompileAll;
  }

  /** The last rule of a chain, when it takes every packet. */
  lemma {:induction false} Last(fw: Tables, t: Target, rest: seq<Rule>, p: Packet, depth: nat)
    requires t.Accept? || t.Reject? || t.Return?
    ensures Eval(fw, Filter, [Rule([], t)] + rest, p, depth)
            == if t.Return? then Returned(p.mark) else Decided(t, p.mark)
  {
    ApplyAll(fw, t, p, depth);
    EvalCons(fw, Rule([], t), rest, p, depth);
    hide Eval, Apply;
  }

  lemma {:induction false} ClassChainEval(fw: Tables, set_: RuleSet, p: Packet, depth: nat)
    requires set_.rules != []
    ensures Eval(fw, Filter, ClassChain(set_), p, depth) == ByClass(set_, p)
  {
    RulesThenReject(fw, set_.rules, p, depth);
    ApplyOne(fw, CtEstablished, Accept, p, depth);
    var rest := CompileAll(set_.rules) + [RejectAll];
    EvalCons(fw, Rule([CtEstablished], Accept), rest, p, depth);
    hide Eval, Apply, CompileAll, ByRules;
    assert ClassChain(set_) == [Rule([CtEstablished], Accept)] + rest;
    assert p.(mark := p.mark) == p;
  }

  /** The rule for the packets of a class decides them, and lets all others pass on. */
  lemma {:induction false} ClassRuleApply(cfg: Config, fw: Tables, m: Mark, set_: RuleSet, to: Chain, p: Packet, depth: nat)
    requires depth > 0 && ChainId(Filter, to) in fw && fw[ChainId(Filter, to)] == ClassChain(set_)
    ensures Apply(fw, Filter, ClassRule(cfg, m, set_, to), p, depth) ==
            if And(p.mark, MarkMask(cfg)) == m then Stop(ByClass(set_, p)) else Next(p.mark)
  {
    var k := MarkIs(m, MarkMask(cfg));
    hide And, MarkMask;
    if set_.rules == [] {
      ApplyOne(fw, k, PolicyTarget(set_.empty), p, depth);
      hide Apply;
    } else {
      ClassChainEval(fw, set_, p, depth - 1);
      var r := Rule([k], Jump(to));
      assert r.matches[0] == k;
      assert Matches(r, p) <==> Holds(k, p);
      hide Eval, Matches;
    }
  }

  /** The tables hold the chains of the rule sets. */
  predicate HasClassChains(cfg: Config, fw: Tables) {
    && ChainId(Filter, NdsTRU) in fw && fw[ChainId(Filter, NdsTRU)] == ClassChain(cfg.trustedUsers)
    && ChainId(Filter, NdsAUT) in fw && fw[ChainId(Filter, NdsAUT)] == ClassChain(cfg.authenticatedUsers)
    && ChainId(Filter, NdsTRT) in fw && fw[ChainId(Filter, NdsTRT)] == ClassChain(cfg.trustedUsersToRouter)
  }

  /** The end of ndsNET, for packets without a class of their own. */
  lemma {:induction false} PreauthenticatedEval(cfg: Config, fw: Tables, p: Packet, depth: nat)
    ensures var pre := cfg.preauthenticatedUsers;
            Eval(fw, Filter,
                 (if pre.rules == [] then [Rule([], PolicyTarget(pre.empty))] else CompileAll(pre.rules)) + [RejectAll],
                 p, depth)
            == if pre.rules == [] then ByPolicy(pre.empty, p) else ByRules(pre.rules, p)
  {
    var pre := cfg.preauthenticatedUsers;
    if pre.rules == [] {
      Last(fw, PolicyTarget(pre.empty), [RejectAll], p, depth);
    } else {
      RulesThenReject(fw, pre.rules, p, depth);
    }
    hide Eval, CompileAll, ByRules;
  }

  /** The class rules of ndsNET and what follows them. */
  lemma {:induction false} ClassesEval(cfg: Config, fw: Tables, p: Packet, depth: nat)
    requires HasClassChains(cfg, fw) && depth > 0 && ValidMarks(cfg) && ClassOf(cfg, p) != Blocked
    ensures var pre := cfg.preauthenticatedUsers;
            var end := (if pre.rules == [] then [Rule([], PolicyTarget(pre.empty))] else CompileAll(pre.rules)) + [RejectAll];
            Eval(fw, Filter,
                 [ClassRule(cfg, cfg.trustedMark, cfg.trustedUsers, NdsTRU)]
                 + ([ClassRule(cfg, cfg.authMark, cfg.authenticatedUsers, NdsAUT)] + end), p, depth)
            == match ClassOf(cfg, p)
               case Trusted => ByClass(cfg.trustedUsers, p)
               case Authenticated => ByClass(cfg.authenticatedUsers, p)
               case _ => if pre.rules == [] then ByPolicy(pre.empty, p) else ByRules(pre.rules, p)
  {
    var pre := cfg.preauthenticatedUsers;
    var end := (if pre.rules == [] then [Rule([], PolicyTarget(pre.empty))] else CompileAll(pre.rules)) + [RejectAll];
    var rt := ClassRule(cfg, cfg.trustedMark, cfg.trustedUsers, NdsTRU);
    var ra := ClassRule(cfg, cfg.authMark, cfg.authenticatedUsers, NdsAUT);
    PreauthenticatedEval(cfg, fw, p, depth);
    ClassRuleApply(cfg, fw, cfg.trustedMark, cfg.trustedUsers, NdsTRU, p, depth);
    ClassRuleApply(cfg, fw, cfg.authMark, cfg.authenticatedUsers, NdsAUT, p, depth);
    EvalCons(fw, rt, [ra] + end, p, depth);
    EvalCons(fw, ra, end, p, depth);
    hide Eval, Apply, CompileAll, ByRules, ByClass, ClassRule, And, MarkMask;
    assert p.(mark := p.mark) == p;
  }

  /** For every configuration and every packet, ndsNET gives the access policy to the Internet. */
  lemma {:induction false} NetCompiles(cfg: Config, fw: Tables, p: Packet, depth: nat)
    requires HasClassChains(cfg, fw) && depth > 0 && ValidMarks(cfg)
    ensures Eval(fw, Filter, NetChain(cfg), p, depth) == NetPolicy(cfg, p)
  {
    hide Eval, Apply, CompileAll, ByRules, ByClass, ByPolicy, ClassRule, And, MarkMask, MssRules, HasClassChains;
    var pre := cfg.preauthenticatedUsers;
    var end := (if pre.rules == [] then [Rule([], PolicyTarget(pre.empty))] else CompileAll(pre.rules)) + [RejectAll];
    var rt := ClassRule(cfg, cfg.trustedMark, cfg.trustedUsers, NdsTRU);
    var ra := ClassRule(cfg, cfg.authMark, cfg.authenticatedUsers, NdsAUT);
    var rb, ri := MarkRule(cfg, cfg.blockedMark, Drop), Rule([CtInvalid], Drop);
    var classes := [rt] + ([ra] + end);
    ApplyOne(fw, MarkIs(cfg.blockedMark, MarkMask(cfg)), Drop, p, depth);
    ApplyOne(fw, CtInvalid, Drop, p, depth);
    MssPasses(cfg, fw, classes, p, depth);
    if ClassOf(cfg, p) != Blocked {
      ClassesEval(cfg, fw, p, depth);
    }
    EvalCons(fw, rb, [ri] + (MssRules(cfg) + classes), p, depth);
    EvalCons(fw, ri, MssRules(cfg) + classes, p, depth);
    assert p.(mark := p.mark) == p;
    assert NetChain(cfg) == [rb] + ([ri] + (MssRules(cfg) + classes));
  }

  lemma {:induction false} MssPasses(cfg: Config, fw: Tables, rest: seq<Rule>, p: Packet, depth: nat)
    ensures Eval(fw, Filter, MssRules(cfg) + rest, p, depth) == Eval(fw, Filter, rest, p, depth)
  {
    assert p.(mark := p.mark) == p;
    if cfg.setMss {
      var r := MssRules(cfg)[0];
      ApplyTwo(fw, Protocol(TCP), SynOnly, r.target, p, depth);
      EvalCons(fw, r, rest, p, depth);
      assert MssRules(cfg) == [r];
    } else {
      assert MssRules(cfg) + rest == rest;
    }
  }

  /** The part of ndsRTR for packets that are neither blocked, invalid nor established. */
  lemma {:induction false} RtrRest(cfg: Config, fw: Tables, end: seq<Rule>, p: Packet, depth: nat)
    requires HasClassChains(cfg, fw) && depth > 0 && ValidMarks(cfg)
    requires ClassOf(cfg, p) != Blocked && !p.env(CtInvalid) && !p.env(CtEstablished)
    requires var users := cfg.usersToRouter;
             end == if users.rules == [] then [Rule([], PolicyTarget(users.empty))] else CompileAll(users.rules) + [RejectAll]
    ensures Eval(fw, Filter,
                 [Rule([Protocol(TCP), SynWithoutMss], Drop)]
                 + ([Rule([Protocol(TCP), DestPort(cfg.port)], Accept)]
                    + ([ClassRule(cfg, cfg.trustedMark, cfg.trustedUsersToRouter, NdsTRT)] + end)), p, depth)
            == RtrPolicy(cfg, p)
  {
    hide Eval, Apply, CompileAll, ByRules, ByClass, ByPolicy, ClassRule, And, MarkMask;
    var rs, rp := Rule([Protocol(TCP), SynWithoutMss], Drop), Rule([Protocol(TCP), DestPort(cfg.port)], Accept);
    var rt := ClassRule(cfg, cfg.trustedMark, cfg.trustedUsersToRouter, NdsTRT);
    ApplyTwo(fw, Protocol(TCP), SynWithoutMss, Drop, p, depth);
    ApplyTwo(fw, Protocol(TCP), DestPort(cfg.port), Accept, p, depth);
    ClassRuleApply(cfg, fw, cfg.trustedMark, cfg.trustedUsersToRouter, NdsTRT, p, depth);
    RtrEnd(cfg, fw, end, p, depth);
    EvalCons(fw, rs, [rp] + ([rt] + end), p, depth);
    EvalCons(fw, rp, [rt] + end, p, depth);
    EvalCons(fw, rt, end, p, depth);
    assert p.(mark := p.mark) == p;
  }

  /** For every configuration and every packet, ndsRTR gives the access policy to the router. */
  lemma {:induction false} RtrCompiles(cfg: Config, fw: Tables, p: Packet, depth: nat)
    requires HasClassChains(cfg, fw) && depth > 0 && ValidMarks(cfg)
    ensures Eval(fw, Filter, RtrChain(cfg), p, depth) == RtrPolicy(cfg, p)
  {
    hide Eval, Apply, CompileAll, ByRules, ByClass, ByPolicy, ClassRule, And, MarkMask, HasClassChains;
    var users := cfg.usersToRouter;
    var end := if users.rules == [] then [Rule([], PolicyTarget(users.empty))] else CompileAll(users.rules) + [RejectAll];
    var rb, ri, re := MarkRule(cfg, cfg.blockedMark, Drop), Rule([CtInvalid], Drop), Rule([CtEstablished], Accept);
    var rest := [Rule([Protocol(TCP), SynWithoutMss], Drop)]
      + ([Rule([Protocol(TCP), DestPort(cfg.port)], Accept)]
         + ([ClassRule(cfg, cfg.trustedMark, cfg.trustedUsersToRouter, NdsTRT)] + end));
    ApplyOne(fw, MarkIs(cfg.blockedMark, MarkMask(cfg)), Drop, p, depth);
    ApplyOne(fw, CtInvalid, Drop, p, depth);
    ApplyOne(fw, CtEstablished, Accept, p, depth);
    if ClassOf(cfg, p) != Blocked && !p.env(CtInvalid) && !p.env(CtEstablished) {
      RtrRest(cfg, fw, end, p, depth);
    }
    EvalCons(fw, rb, [ri] + ([re] + rest), p, depth);
    EvalCons(fw, ri, [re] + rest, p, depth);
    EvalCons(fw, re, rest, p, depth);
    assert p.(mark := p.mark) == p;
    assert RtrChain(cfg) == [rb] + ([ri] + ([re] + rest));
  }

  lemma {:induction false} RtrEnd(cfg: Config, fw: Tables, end: seq<Rule>, p: Packet, depth: nat)
    requires var users := cfg.usersToRouter;
             end == if users.rules == [] then [Rule([], PolicyTarget(users.empty))] else CompileAll(users.rules) + [RejectAll]
    ensures Eval(fw, Filter, end, p, depth)
            == if cfg.usersToRouter.rules == [] then ByPolicy(cfg.usersToRouter.empty, p) else ByRules(cfg.usersToRouter.rules, p)
  {
    var users := cfg.usersToRouter;
    if users.rules == [] {
      Last(fw, PolicyTarget(users.empty), [], p, depth);
      assert end + [] == end;
    } else {
      RulesThenReject(fw, users.rules, p, depth);
    }
    hide Eval, CompileAll, ByRules;
  }
}
