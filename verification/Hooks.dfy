/** What the built-in chains do to a packet, in every state of every run: the daemon's chains for packets
    of the client network, and the rules that were there before for all others. */
module Hooks {
  import opened Iptables
  import opened Configuration
  import opened Session
  import opened Balance
  import opened Mirror
  import opened StateFile
  import opened Marking
  import opened FilterPolicy
  import opened Runs
  import opened Lifecycle

  // ---------------------------------------------------------------- what clients receive

  /** An authenticated record has the destination address. */
  predicate IsDownload(cfg: Config, s: State, p: Packet) {
    exists i :: 0 <= i < |s.clients| && s.clients[i].state == cfg.authMark && s.clients[i].ip == p.dst
  }

  predicate ToClientNetwork(cfg: Config, p: Packet) {
    p.env(OutIface(cfg.iface)) && p.env(DstNet(cfg.ipRange))
  }

  predicate IsIncRule(cfg: Config, r: Rule) {
    && |r.matches| == 1 && r.matches[0].DstIp?
    && (r == MarkTo(cfg, r.matches[0].ip) || r == CountTo(r.matches[0].ip))
  }

  lemma {:induction false} IncRuleMatches(cfg: Config, r: Rule, p: Packet)
    requires IsIncRule(cfg, r)
    ensures Matches(r, p) <==> r == MarkTo(cfg, p.dst) || r == CountTo(p.dst)
  {
    assert Matches(r, p) <==> r.matches[0].ip == p.dst;
    assert MarkTo(cfg, p.dst).matches[0].ip == p.dst && CountTo(p.dst).matches[0].ip == p.dst;
  }

  /** The rules before the one that accepts what goes to the address only mark it. */
  lemma {:induction false} BeforeAccept(cfg: Config, fw: Tables, rules: seq<Rule>, p: Packet, depth: nat)
    requires forall i :: 0 <= i < |rules| ==> IsIncRule(cfg, rules[i]) && rules[i] != CountTo(p.dst)
    ensures Eval(fw, Mangle, rules, p, depth) == Through(Marked(cfg, MarkTo(cfg, p.dst) in rules, p.mark, cfg.authMark))
    decreases |rules|
  {
    hide Or, IsIncRule;
    if rules != [] {
      var r := rules[0];
      IncRuleMatches(cfg, r, p);
      hide Matches;
      var e := Apply(fw, Mangle, r, p, depth);
      var q := p.(mark := e.mark);
      BeforeAccept(cfg, fw, rules[1..], q, depth);
      OrAgain(p.mark, cfg.authMark);
      assert MarkTo(cfg, p.dst) in rules <==> r == MarkTo(cfg, p.dst) || MarkTo(cfg, p.dst) in rules[1..];
    }
  }

  lemma {:induction false} AcceptIn(cfg: Config, fw: Tables, rules: seq<Rule>, p: Packet, depth: nat)
    requires Paired(cfg, rules) && (forall i :: 0 <= i < |rules| ==> IsIncRule(cfg, rules[i])) && CountTo(p.dst) in rules
    ensures Eval(fw, Mangle, rules, p, depth) == Decided(Accept, Marked(cfg, true, p.mark, cfg.authMark))
  {
    hide Eval, Or, IsIncRule, Paired, IndexOf, MarkTo, CountTo;
    var m, c, b := MarkTo(cfg, p.dst), CountTo(p.dst), IndexOf(rules, CountTo(p.dst));
    MarkedBefore(cfg, rules, p.dst);
    var front, back := rules[..b], rules[b..];
    assert forall i :: 0 <= i < b ==> front[i] == rules[i];
    BeforeAccept(cfg, fw, front, p, depth);
    assert rules == front + back;
    EvalConcat(fw, Mangle, front, back, p, depth);
    AcceptFirst(cfg, fw, back, p.(mark := Marked(cfg, true, p.mark, cfg.authMark)), depth);
  }

  /** The first rule that accepts for an address has one that marks for it before it. */
  lemma {:induction false} MarkedBefore(cfg: Config, rules: seq<Rule>, ip: string)
    requires Paired(cfg, rules) && CountTo(ip) in rules
    ensures var b := IndexOf(rules, CountTo(ip));
            MarkTo(cfg, ip) in rules[..b] && forall i :: 0 <= i < b ==> rules[i] != CountTo(ip)
  {
    var m, c := MarkTo(cfg, ip), CountTo(ip);
    assert Ahead(rules, m, c);
    RulesApart(cfg, ip, ip);
    hide Ahead, Paired, IndexOf, MarkTo, CountTo;
    FirstAhead(rules, m, c);
    var a, b := IndexOf(rules, m), IndexOf(rules, c);
    assert rules[..b][a] == m;
    forall i | 0 <= i < b ensures rules[i] != c { NotBefore(rules, c, i); }
  }

  lemma {:induction false} AcceptFirst(cfg: Config, fw: Tables, rules: seq<Rule>, p: Packet, depth: nat)
    requires rules != [] && rules[0] == CountTo(p.dst)
    ensures Eval(fw, Mangle, rules, p, depth) == Decided(Accept, p.mark)
  {
    assert Matches(CountTo(p.dst), p);
  }

  /** ndsINC holds rules of this kind only, and accepts what goes to an address exactly for the
      addresses of authenticated records. */
  lemma {:induction false} IncContents(cfg: Config, s: State, p: Packet)
    requires ClientsMirrored(cfg, s)
    ensures forall i :: 0 <= i < |s.fw[INC]| ==> IsIncRule(cfg, s.fw[INC][i])
    ensures CountTo(p.dst) in s.fw[INC] <==> IsDownload(cfg, s, p)
    ensures MarkTo(cfg, p.dst) in s.fw[INC] ==> IsDownload(cfg, s, p)
  {
    hide SameBags, Paired, MarkTo, CountTo, IsIncRule, IsDownload;
    var rules := s.fw[INC];
    forall i | 0 <= i < |rules| ensures IsIncRule(cfg, rules[i]) {
      assert rules[i] in rules;
      IncFrom(cfg, s, rules[i]);
    }
    if CountTo(p.dst) in rules {
      IncFrom(cfg, s, CountTo(p.dst));
      SameAddress(cfg, s, p, CountTo(p.dst));
    }
    if MarkTo(cfg, p.dst) in rules {
      IncFrom(cfg, s, MarkTo(cfg, p.dst));
      SameAddress(cfg, s, p, MarkTo(cfg, p.dst));
    }
    if IsDownload(cfg, s, p) { DownloadThere(cfg, s, p); }
  }

  lemma {:induction false} DownloadThere(cfg: Config, s: State, p: Packet)
    requires ClientsMirrored(cfg, s) && IsDownload(cfg, s, p)
    ensures CountTo(p.dst) in s.fw[INC]
  {
    hide ClientsMirrored, MarkTo, CountTo;
    var i :| 0 <= i < |s.clients| && s.clients[i].state == cfg.authMark && s.clients[i].ip == p.dst;
    RulesThere(cfg, s, i);
    IncRulesOf(cfg, s.clients[i]);
  }

  /** A rule of ndsINC belongs to an authenticated record. */
  lemma {:induction false} IncFrom(cfg: Config, s: State, r: Rule)
    requires ClientsMirrored(cfg, s) && r in s.fw[INC]
    ensures exists i :: 0 <= i < |s.clients| && s.clients[i].state == cfg.authMark
                        && (r == MarkTo(cfg, s.clients[i].ip) || r == CountTo(s.clients[i].ip))
    ensures IsIncRule(cfg, r)
  {
    hide Bag, Paired, IncOf, OutOf, MarkTo, CountTo, IsIncRule;
    assert r in multiset(s.fw[INC]);
    BagHas(s.clients, IncOf(cfg), r);
    var i :| 0 <= i < |s.clients| && r in IncOf(cfg)(s.clients[i]);
    IncMember(cfg, s.clients[i], r);
  }

  lemma {:induction false} IncMember(cfg: Config, c: Client, r: Rule)
    requires r in IncOf(cfg)(c)
    ensures c.state == cfg.authMark && (r == MarkTo(cfg, c.ip) || r == CountTo(c.ip)) && IsIncRule(cfg, r)
  {
    IncRulesOf(cfg, c);
  }

  lemma {:induction false} SameAddress(cfg: Config, s: State, p: Packet, r: Rule)
    requires r == MarkTo(cfg, p.dst) || r == CountTo(p.dst)
    requires exists i :: 0 <= i < |s.clients| && s.clients[i].state == cfg.authMark
                         && (r == MarkTo(cfg, s.clients[i].ip) || r == CountTo(s.clients[i].ip))
    ensures IsDownload(cfg, s, p)
  {
    var i :| 0 <= i < |s.clients| && s.clients[i].state == cfg.authMark
             && (r == MarkTo(cfg, s.clients[i].ip) || r == CountTo(s.clients[i].ip));
    assert r.matches[0] == DstIp(p.dst) && r.matches[0] == DstIp(s.clients[i].ip);
  }

  /** ndsINC accepts, and so counts, exactly what goes to an authenticated client, with its mark. */
  lemma {:induction false} IncEval(cfg: Config, s: State, p: Packet, depth: nat)
    requires ClientsMirrored(cfg, s)
    ensures Eval(s.fw, Mangle, s.fw[INC], p, depth) ==
            if IsDownload(cfg, s, p) then Decided(Accept, Marked(cfg, true, p.mark, cfg.authMark)) else Through(p.mark)
  {
    hide Eval, IsIncRule, Paired, SameBags, Or, IsDownload, MarkTo, CountTo;
    IncContents(cfg, s, p);
    if IsDownload(cfg, s, p) {
      AcceptIn(cfg, s.fw, s.fw[INC], p, depth);
    } else {
      forall i | 0 <= i < |s.fw[INC]| ensures s.fw[INC][i] != CountTo(p.dst) {
        assert s.fw[INC][i] in s.fw[INC];
      }
      BeforeAccept(cfg, s.fw, s.fw[INC], p, depth);
    }
  }

  // ---------------------------------------------------------------- the rules that were there before

  /** No rule jumps to a chain of the daemon, and, as the kernel demands, none to a built-in chain. */
  ghost predicate Tidy(prior: Tables) {
    forall id, r :: id in prior && r in prior[id] && r.target.Jump? ==>
      !IsOwn(ChainId(id.table, r.target.to)) && !BuiltIn(r.target.to)
  }

  ghost predicate TidyRules(table: Table, rules: seq<Rule>) {
    forall r :: r in rules && r.target.Jump? ==> !IsOwn(ChainId(table, r.target.to)) && !BuiltIn(r.target.to)
  }

  lemma {:induction false} HooksBuiltIn(id: ChainId)
    ensures IsHook(id) ==> BuiltIn(id.chain)
  {
  }

  /** Rules from before the daemon do what they did. */
  lemma {:induction false} EvalPrior(prior: Tables, fw: Tables, table: Table, rules: seq<Rule>, p: Packet, depth: nat)
    requires Around(prior, fw) && Tidy(prior) && TidyRules(table, rules)
    ensures Eval(fw, table, rules, p, depth) == Eval(prior, table, rules, p, depth)
    decreases depth, 1 + |rules|
  {
    if rules != [] {
      assert rules[0] in rules;
      ApplyPrior(prior, fw, table, rules[0], p, depth);
      var e := Apply(fw, table, rules[0], p, depth);
      if e.Next? {
        assert forall r :: r in rules[1..] ==> r in rules;
        EvalPrior(prior, fw, table, rules[1..], p.(mark := e.mark), depth);
      }
    }
  }

  lemma {:induction false} ApplyPrior(prior: Tables, fw: Tables, table: Table, r: Rule, p: Packet, depth: nat)
    requires Around(prior, fw) && Tidy(prior)
    requires r.target.Jump? ==> !IsOwn(ChainId(table, r.target.to)) && !BuiltIn(r.target.to)
    ensures Apply(fw, table, r, p, depth) == Apply(prior, table, r, p, depth)
    decreases depth, 0
  {
    hide Matches, IsOwn, BuiltIn, IsHook, Or;
    if r.target.Jump? && depth > 0 {
      var id := ChainId(table, r.target.to);
      HooksBuiltIn(id);
      if id in prior {
        assert fw[id] == prior[id];
        assert TidyRules(table, prior[id]);
        EvalPrior(prior, fw, table, prior[id], p, depth - 1);
      }
    }
  }

  // ---------------------------------------------------------------- a jump at the head of a hook

  /** A rule with two matches that do not look at addresses or marks, and a jump. */
  lemma {:induction false} JumpRule(fw: Tables, table: Table, a: Match, b: Match, to: Chain, rest: seq<Rule>, p: Packet, depth: nat)
    requires depth > 0 && ChainId(table, to) in fw
    requires (a.InIface? || a.OutIface?) && (b.SrcNet? || b.DstNet?)
    ensures var v := Eval(fw, table, fw[ChainId(table, to)], p, depth - 1);
            Eval(fw, table, [Rule([a, b], Jump(to))] + rest, p, depth) ==
            if !(p.env(a) && p.env(b)) then Eval(fw, table, rest, p, depth)
            else if v.Decided? then v
            else Eval(fw, table, rest, p.(mark := v.mark), depth)
  {
    var r := Rule([a, b], Jump(to));
    assert r.matches[0] == a && r.matches[1] == b;
    assert Matches(r, p) <==> p.env(a) && p.env(b);
    assert ([r] + rest)[0] == r && ([r] + rest)[1..] == rest;
    assert p.(mark := p.mark) == p;
    hide Matches;
  }

  lemma {:induction false} HookRuleIs(cfg: Config, to: Chain)
    ensures HookRule(cfg, to) == Rule([InIface(cfg.iface), SrcNet(cfg.ipRange)], Jump(to))
    ensures PostRule(cfg) == Rule([OutIface(cfg.iface), DstNet(cfg.ipRange)], Jump(NdsINC))
  {
  }

  // ---------------------------------------------------------------- the nat table

  /** Rules without a jump do the same in every table. */
  lemma {:induction false} AnyTable(fw: Tables, rules: seq<Rule>, p: Packet, depth: nat)
    requires forall i :: 0 <= i < |rules| ==> !rules[i].target.Jump?
    ensures Eval(fw, Nat, rules, p, depth) == Eval(fw, Filter, rules, p, depth)
    decreases |rules|
  {
    hide Matches, Or;
    if rules != [] {
      var e := Apply(fw, Nat, rules[0], p, depth);
      assert e == Apply(fw, Filter, rules[0], p, depth);
      if e.Next? { AnyTable(fw, rules[1..], p.(mark := e.mark), depth); }
    }
  }

  /** What ndsOUT of the nat table decides: nothing for trusted and authenticated clients; for the
      others the preauthenticated rules, then the gateway instead of any web server, else nothing
      more. */
  function NatPolicy(cfg: Config, p: Packet): (v: Verdict) {
    var c := ClassOf(cfg, p);
    var r := FirstRule(cfg.preauthenticatedUsers.rules, p);
    if c == Trusted || c == Authenticated then Returned(p.mark)
    else if r.Some? then ByTarget(r.value.target, p)
    else if p.env(Protocol(TCP)) && p.env(DestPort("80")) then Decided(Dnat(cfg.address), p.mark)
    else Decided(Accept, p.mark)
  }

  lemma {:induction false} NatEnd(cfg: Config, fw: Tables, p: Packet, depth: nat)
    ensures Eval(fw, Filter, [Rule([Protocol(TCP), DestPort(HTTP_PORT)], Dnat(cfg.address)), Rule([], Accept)], p, depth) ==
            if p.env(Protocol(TCP)) && p.env(DestPort("80")) then Decided(Dnat(cfg.address), p.mark) else Decided(Accept, p.mark)
  {
    var r, rest := Rule([Protocol(TCP), DestPort(HTTP_PORT)], Dnat(cfg.address)), [Rule([], Accept)];
    assert r.matches[0] == Protocol(TCP) && r.matches[1] == DestPort(HTTP_PORT);
    assert Matches(r, p) <==> p.env(Protocol(TCP)) && p.env(DestPort("80"));
    ApplyAll(fw, Accept, p, depth);
    EvalCons(fw, r, rest, p, depth);
    EvalCons(fw, Rule([], Accept), [], p, depth);
    assert [Rule([], Accept)] + [] == rest && [r] + rest == [r, Rule([], Accept)];
    assert p.(mark := p.mark) == p;
    hide Eval, Matches;
  }

  lemma {:induction false} NatCompiles(cfg: Config, fw: Tables, p: Packet, depth: nat)
    requires ValidMarks(cfg)
    ensures Eval(fw, Nat, NatChain(cfg), p, depth) == NatPolicy(cfg, p)
  {
    hide CompileAll, MarkMask, And, Eval, Apply, FirstRule;
    var rs := cfg.preauthenticatedUsers.rules;
    var rt, ra := MarkRule(cfg, cfg.trustedMark, Return), MarkRule(cfg, cfg.authMark, Return);
    var end := [Rule([Protocol(TCP), DestPort(HTTP_PORT)], Dnat(cfg.address)), Rule([], Accept)];
    AnyTable(fw, NatChain(cfg), p, depth);
    NatTail(cfg, fw, p, depth);
    ApplyOne(fw, MarkIs(cfg.trustedMark, MarkMask(cfg)), Return, p, depth);
    ApplyOne(fw, MarkIs(cfg.authMark, MarkMask(cfg)), Return, p, depth);
    EvalCons(fw, rt, [ra] + (CompileAll(rs) + end), p, depth);
    EvalCons(fw, ra, CompileAll(rs) + end, p, depth);
    assert p.(mark := p.mark) == p;
    assert NatChain(cfg) == [rt] + ([ra] + (CompileAll(rs) + end));
  }

  lemma {:induction false} NatTail(cfg: Config, fw: Tables, p: Packet, depth: nat)
    ensures var rs := cfg.preauthenticatedUsers.rules;
            var end := [Rule([Protocol(TCP), DestPort(HTTP_PORT)], Dnat(cfg.address)), Rule([], Accept)];
            var r := FirstRule(rs, p);
            Eval(fw, Filter, CompileAll(rs) + end, p, depth) ==
            if r.Some? then ByTarget(r.value.target, p)
            else if p.env(Protocol(TCP)) && p.env(DestPort("80")) then Decided(Dnat(cfg.address), p.mark)
            else Decided(Accept, p.mark)
  {
    hide CompileAll, Eval, FirstRule;
    var rs := cfg.preauthenticatedUsers.rules;
    var end := [Rule([Protocol(TCP), DestPort(HTTP_PORT)], Dnat(cfg.address)), Rule([], Accept)];
    CompiledEval(fw, rs, p, depth);
    EvalConcat(fw, Filter, CompileAll(rs), end, p, depth);
    NatEnd(cfg, fw, p, depth);
    assert p.(mark := p.mark) == p;
  }

  // ---------------------------------------------------------------- the hooks

  /** The daemon is up: set up over `prior`, and in a state that a run can reach. */
  ghost predicate Live(cfg: Config, prior: Tables, trusted: seq<string>, blocked: seq<string>, allowed: seq<string>,
                       fw0: Tables, s: State) {
    && Prepared(prior) && Tidy(prior) && ValidMarks(cfg)
    && Done(cfg, prior, trusted, blocked, allowed, fw0) && Inv(cfg, fw0, s)
  }

  lemma {:induction false} LiveHooks(cfg: Config, prior: Tables, trusted: seq<string>, blocked: seq<string>, allowed: seq<string>,
                                     fw0: Tables, s: State)
    requires Live(cfg, prior, trusted, blocked, allowed, fw0, s)
    ensures Around(prior, s.fw) && Tidy(prior) && ValidMarks(cfg)
    ensures PRE in prior && POST in prior && NATPRE in prior && IN in prior && FWD in prior
    ensures PRE in s.fw && s.fw[PRE] == HookRules(cfg) + prior[PRE]
    ensures POST in s.fw && s.fw[POST] == [PostRule(cfg)] + prior[POST]
    ensures NATPRE in s.fw && s.fw[NATPRE] == [HookRule(cfg, NdsOUT)] + prior[NATPRE]
    ensures IN in s.fw && s.fw[IN] == [HookRule(cfg, NdsRTR)] + prior[IN]
    ensures FWD in s.fw && s.fw[FWD] == [HookRule(cfg, NdsNET)] + prior[FWD]
    ensures NATOUT in s.fw && s.fw[NATOUT] == NatChain(cfg)
  {
    hide ClientsMirrored, MacsMirrored, DistinctPairs, ClientsSane, NetChain, RtrChain, NatChain, ClassChain, HookRules, PostRule, HookRule, Tidy;
    assert IsOwn(NATOUT);
    DoneOver(cfg, prior, trusted, blocked, allowed, fw0);
    RunOver(cfg, prior, fw0, s);
  }

  lemma {:induction false} PriorTidy(prior: Tables, id: ChainId)
    requires Tidy(prior) && id in prior
    ensures TidyRules(id.table, prior[id])
  {
  }

  /** Where a verdict is none, the rules from before go on. */
  function Onward(prior: Tables, id: ChainId, v: Verdict, p: Packet, depth: nat): (r: Verdict)
    requires id in prior
  {
    if v.Decided? then v else Eval(prior, id.table, prior[id], p.(mark := v.mark), depth)
  }

  lemma {:induction false} FilterHook(cfg: Config, prior: Tables, fw: Tables, id: ChainId, to: Chain, p: Packet, depth: nat)
    requires Around(prior, fw) && Tidy(prior) && id in prior && depth > 0 && ChainId(id.table, to) in fw
    ensures Eval(fw, id.table, [HookRule(cfg, to)] + prior[id], p, depth) ==
            if !FromClientNetwork(cfg, p) then Eval(prior, id.table, prior[id], p, depth)
            else Onward(prior, id, Eval(fw, id.table, fw[ChainId(id.table, to)], p, depth - 1), p, depth)
  {
    hide Eval, Around, Tidy, TidyRules, HookRule;
    HookRuleIs(cfg, to);
    PriorTidy(prior, id);
    JumpRule(fw, id.table, InIface(cfg.iface), SrcNet(cfg.ipRange), to, prior[id], p, depth);
    EvalPrior(prior, fw, id.table, prior[id], p, depth);
    var v := Eval(fw, id.table, fw[ChainId(id.table, to)], p, depth - 1);
    EvalPrior(prior, fw, id.table, prior[id], p.(mark := v.mark), depth);
  }

  /** FORWARD and INPUT of the filter table, and PREROUTING of the nat table: for packets from the client
      network the access to the Internet, to the router, and the redirection to the gateway, and where
      these decide nothing the rules from before; for all others only those. */
  lemma {:induction false} HooksDecide(cfg: Config, prior: Tables, trusted: seq<string>, blocked: seq<string>, allowed: seq<string>,
                                       fw0: Tables, s: State, p: Packet, depth: nat)
    requires Live(cfg, prior, trusted, blocked, allowed, fw0, s) && depth > 1
    ensures FWD in prior && FWD in s.fw && IN in prior && IN in s.fw && NATPRE in prior && NATPRE in s.fw
    ensures Eval(s.fw, Filter, s.fw[FWD], p, depth) ==
            if FromClientNetwork(cfg, p) then Onward(prior, FWD, NetPolicy(cfg, p), p, depth)
            else Eval(prior, Filter, prior[FWD], p, depth)
    ensures Eval(s.fw, Filter, s.fw[IN], p, depth) ==
            if FromClientNetwork(cfg, p) then Onward(prior, IN, RtrPolicy(cfg, p), p, depth)
            else Eval(prior, Filter, prior[IN], p, depth)
    ensures Eval(s.fw, Nat, s.fw[NATPRE], p, depth) ==
            if FromClientNetwork(cfg, p) then Onward(prior, NATPRE, NatPolicy(cfg, p), p, depth)
            else Eval(prior, Nat, prior[NATPRE], p, depth)
  {
    LiveHooks(cfg, prior, trusted, blocked, allowed, fw0, s);
    LiveChains(cfg, prior, trusted, blocked, allowed, fw0, s);
    hide Eval, Live, Around, Tidy, HookRule, FromClientNetwork, NetPolicy, RtrPolicy, NatPolicy, Onward, NetChain, RtrChain, NatChain, HasClassChains, ValidMarks;
    NetCompiles(cfg, s.fw, p, depth - 1);
    RtrCompiles(cfg, s.fw, p, depth - 1);
    NatCompiles(cfg, s.fw, p, depth - 1);
    FilterHook(cfg, prior, s.fw, FWD, NdsNET, p, depth);
    FilterHook(cfg, prior, s.fw, IN, NdsRTR, p, depth);
    FilterHook(cfg, prior, s.fw, NATPRE, NdsOUT, p, depth);
  }

  lemma {:induction false} LiveChains(cfg: Config, prior: Tables, trusted: seq<string>, blocked: seq<string>, allowed: seq<string>,
                                      fw0: Tables, s: State)
    requires Live(cfg, prior, trusted, blocked, allowed, fw0, s)
    ensures HasClassChains(cfg, s.fw) && NET in s.fw && RTR in s.fw && s.fw[NET] == NetChain(cfg) && s.fw[RTR] == RtrChain(cfg)
    ensures ClientsMirrored(cfg, s) && INC in s.fw
  {
    hide Prepared, Done, HasClassChains, NetChain, RtrChain, HookRules, MacsMirrored, DistinctPairs, ClientsSane, SameBags, Paired;
    ChainsStay(cfg, prior, trusted, blocked, allowed, fw0, s);
  }

  /** PREROUTING of the mangle table: packets from the client network get the mark that their record and
      the MAC lists call for, and then the rules from before; all others only those. */
  lemma {:induction false} PreroutingMarks(cfg: Config, prior: Tables, trusted: seq<string>, blocked: seq<string>, allowed: seq<string>,
                                           fw0: Tables, s: State, p: Packet, depth: nat)
    requires Live(cfg, prior, trusted, blocked, allowed, fw0, s) && depth > 0
    ensures PRE in prior && PRE in s.fw
    ensures Eval(s.fw, Mangle, s.fw[PRE], p, depth) ==
            Eval(prior, Mangle, prior[PRE],
                 if FromClientNetwork(cfg, p) then p.(mark := FinalMark(cfg, s, p)) else p, depth)
  {
    LiveHooks(cfg, prior, trusted, blocked, allowed, fw0, s);
    assert Inv(cfg, fw0, s);
    hide Eval, Live, Inv, Around, Tidy, TidyRules, HookRules, FromClientNetwork, FinalMark;
    PriorTidy(prior, PRE);
    EvalConcat(s.fw, Mangle, HookRules(cfg), prior[PRE], p, depth);
    if FromClientNetwork(cfg, p) {
      PacketMark(cfg, fw0, s, p, depth);
      EvalPrior(prior, s.fw, Mangle, prior[PRE], p.(mark := FinalMark(cfg, s, p)), depth);
    } else {
      NotOurs(cfg, s.fw, p, depth);
      assert p.(mark := p.mark) == p;
      EvalPrior(prior, s.fw, Mangle, prior[PRE], p, depth);
    }
  }

  /** The three marking hooks let packets from elsewhere pass. */
  lemma {:induction false} NotOurs(cfg: Config, fw: Tables, p: Packet, depth: nat)
    requires !FromClientNetwork(cfg, p)
    ensures Eval(fw, Mangle, HookRules(cfg), p, depth) == Through(p.mark)
  {
    var a, b, c := HookRule(cfg, NdsOUT), HookRule(cfg, NdsBLK), HookRule(cfg, NdsTRU);
    Passes(cfg, fw, NdsOUT, [b, c], p, depth);
    Passes(cfg, fw, NdsBLK, [c], p, depth);
    Passes(cfg, fw, NdsTRU, [], p, depth);
    EvalNothing(fw, p, depth);
    hide Eval, HookRule;
    assert [a] + [b, c] == HookRules(cfg) && [b] + [c] == [b, c] && [c] + [] == [c];
  }

  lemma {:induction false} Passes(cfg: Config, fw: Tables, to: Chain, rest: seq<Rule>, p: Packet, depth: nat)
    requires !FromClientNetwork(cfg, p)
    ensures Eval(fw, Mangle, [HookRule(cfg, to)] + rest, p, depth) == Eval(fw, Mangle, rest, p, depth)
  {
    var r := HookRule(cfg, to);
    assert r.matches[0] == InIface(cfg.iface) && r.matches[1] == SrcNet(cfg.ipRange);
    assert !Matches(r, p);
    assert ([r] + rest)[0] == r && ([r] + rest)[1..] == rest;
    assert p.(mark := p.mark) == p;
  }

  /** POSTROUTING of the mangle table: what goes to an authenticated client over the client network is
      marked, accepted and so counted; for everything else the rules from before. */
  lemma {:induction false} PostroutingCounts(cfg: Config, prior: Tables, trusted: seq<string>, blocked: seq<string>, allowed: seq<string>,
                                             fw0: Tables, s: State, p: Packet, depth: nat)
    requires Live(cfg, prior, trusted, blocked, allowed, fw0, s) && depth > 0
    ensures POST in prior && POST in s.fw
    ensures Eval(s.fw, Mangle, s.fw[POST], p, depth) ==
            if ToClientNetwork(cfg, p) && IsDownload(cfg, s, p)
            then Decided(Accept, if cfg.orMark then Or(p.mark, cfg.authMark) else cfg.authMark)
            else Eval(prior, Mangle, prior[POST], p, depth)
  {
    hide Eval, Live, Around, Tidy, ClientsMirrored, IsDownload, Or, PostRule, NetChain, RtrChain, NatChain, HookRules, HookRule,
         HasClassChains, ToClientNetwork, ValidMarks;
    LiveHooks(cfg, prior, trusted, blocked, allowed, fw0, s);
    LiveChains(cfg, prior, trusted, blocked, allowed, fw0, s);
    PostHook(cfg, prior, s.fw, p, depth);
    IncEval(cfg, s, p, depth - 1);
    assert p.(mark := p.mark) == p;
  }

  lemma {:induction false} PostHook(cfg: Config, prior: Tables, fw: Tables, p: Packet, depth: nat)
    requires Around(prior, fw) && Tidy(prior) && POST in prior && depth > 0 && INC in fw
    ensures Eval(fw, Mangle, [PostRule(cfg)] + prior[POST], p, depth) ==
            if !ToClientNetwork(cfg, p) then Eval(prior, Mangle, prior[POST], p, depth)
            else Onward(prior, POST, Eval(fw, Mangle, fw[INC], p, depth - 1), p, depth)
  {
    hide Eval, Around, Tidy, TidyRules, PostRule;
    HookRuleIs(cfg, NdsINC);
    PriorTidy(prior, POST);
    JumpRule(fw, Mangle, OutIface(cfg.iface), DstNet(cfg.ipRange), NdsINC, prior[POST], p, depth);
    EvalPrior(prior, fw, Mangle, prior[POST], p, depth);
    var v := Eval(fw, Mangle, fw[INC], p, depth - 1);
    EvalPrior(prior, fw, Mangle, prior[POST], p.(mark := v.mark), depth);
  }

  /** Every state of every run is one of these. */
  lemma {:induction false} EveryRunLive(cfg: Config, prior: Tables, trusted: seq<string>, blocked: seq<string>, allowed: seq<string>,
                                        fw0: Tables, steps: seq<Step>)
    requires Prepared(prior) && Tidy(prior) && ValidMarks(cfg) && Done(cfg, prior, trusted, blocked, allowed, fw0)
    requires NoDuplicates(trusted) && NoDuplicates(blocked) && NoDuplicates(allowed)
    ensures Live(cfg, prior, trusted, blocked, allowed, fw0, Run(cfg, Initial(fw0, trusted, blocked, allowed), steps))
  {
    hide Prepared, Done, Tidy, Run, Initialised, Inv;
    DoneInitialises(cfg, prior, trusted, blocked, allowed, fw0);
    EveryRunAgrees(cfg, fw0, trusted, blocked, allowed, steps);
  }
}
