/** Setting the firewall up and taking it down (src/fw_iptables.c:361-813). */
module Lifecycle {
  import opened Iptables
  import opened Configuration
  import opened Session
  import opened Mirror
  import opened StateFile
  import opened Marking
  import opened FilterPolicy
  import opened Runs

  // ---------------------------------------------------------------- chains

  const ALW := ChainId(Mangle, NdsALW)
  const NATOUT := ChainId(Nat, NdsOUT)
  const NET := ChainId(Filter, NdsNET)
  const RTR := ChainId(Filter, NdsRTR)
  const AUT := ChainId(Filter, NdsAUT)
  const FTRU := ChainId(Filter, NdsTRU)
  const TRT := ChainId(Filter, NdsTRT)

  /** The chains that belong to the daemon. */
  predicate IsOwn(id: ChainId) {
    || id == TRU || id == BLK || id == ALW || id == INC || id == OUT
    || id == NATOUT
    || id == NET || id == RTR || id == AUT || id == FTRU || id == TRT
  }

  const PRE := ChainId(Mangle, PREROUTING)
  const POST := ChainId(Mangle, POSTROUTING)
  const NATPRE := ChainId(Nat, PREROUTING)
  const IN := ChainId(Filter, INPUT)
  const FWD := ChainId(Filter, FORWARD)

  predicate IsHook(id: ChainId) {
    id == PRE || id == POST || id == NATPRE || id == IN || id == FWD
  }

  /** The chains whose mention the destruction looks for in a hook. */
  predicate Sought(id: ChainId, c: Chain) {
    if id == PRE then c.NdsTRU? || c.NdsBLK? || c.NdsALW? || c.NdsOUT?
    else if id == POST then c.NdsINC?
    else if id == NATPRE then c.NdsOUT?
    else if id == IN then c.NdsRTR?
    else id == FWD && c.NdsNET?
  }

  /** The same as a list, in the order of the search. */
  function SoughtIn(id: ChainId): (cs: seq<Chain>)
    ensures forall c :: Sought(id, c) <==> c in cs
  {
    if id == PRE then [NdsTRU, NdsBLK, NdsALW, NdsOUT]
    else if id == POST then [NdsINC]
    else if id == NATPRE then [NdsOUT]
    else if id == IN then [NdsRTR]
    else if id == FWD then [NdsNET]
    else []
  }

  // ---------------------------------------------------------------- what the tables become

  function PostRule(cfg: Config): (r: Rule) {
    Rule([OutIface(cfg.iface), DstNet(cfg.ipRange)], Jump(NdsINC))
  }

  /** The rules put at the head of a hook. */
  function HookHead(cfg: Config, id: ChainId): (r: seq<Rule>) {
    if id == PRE then HookRules(cfg)
    else if id == POST then [PostRule(cfg)]
    else if id == NATPRE then [HookRule(cfg, NdsOUT)]
    else if id == IN then [HookRule(cfg, NdsRTR)]
    else if id == FWD then [HookRule(cfg, NdsNET)]
    else []
  }

  const HTTP_PORT := "80"

  /** ndsOUT of the nat table. */
  function NatChain(cfg: Config): (r: seq<Rule>) {
    [MarkRule(cfg, cfg.trustedMark, Return), MarkRule(cfg, cfg.authMark, Return)]
    + CompileAll(cfg.preauthenticatedUsers.rules)
    + [Rule([Protocol(TCP), DestPort(HTTP_PORT)], Dnat(cfg.address)), Rule([], Accept)]
  }

  /** The contents of the daemon's chains after initialisation. */
  function OwnContents(cfg: Config, trusted: seq<string>, blocked: seq<string>, allowed: seq<string>, id: ChainId): (r: seq<Rule>)
    requires IsOwn(id)
  {
    if id == TRU then InitialTru(cfg, trusted)
    else if id == BLK then InitialBlk(cfg, blocked, allowed)
    else if id == NATOUT then NatChain(cfg)
    else if id == NET then NetChain(cfg)
    else if id == RTR then RtrChain(cfg)
    else if id == AUT then ClassChain(cfg.authenticatedUsers)
    else if id == FTRU then ClassChain(cfg.trustedUsers)
    else if id == TRT then ClassChain(cfg.trustedUsersToRouter)
    else []
  }

  /** `fw` is what the initialisation makes of `prior`. */
  ghost predicate Done(cfg: Config, prior: Tables, trusted: seq<string>, blocked: seq<string>, allowed: seq<string>, fw: Tables) {
    && (forall id :: id in fw <==> id in prior || IsOwn(id))
    && (forall id :: id in prior ==> fw[id] == HookHead(cfg, id) + prior[id])
    && (forall id :: IsOwn(id) ==> id in fw && fw[id] == OwnContents(cfg, trusted, blocked, allowed, id))
  }

  /** The hooks exist, and none of the daemon's chains does. */
  predicate Prepared(prior: Tables) {
    && PRE in prior && POST in prior && NATPRE in prior && IN in prior && FWD in prior
    && forall id :: id in prior ==> !IsOwn(id)
  }

  // ---------------------------------------------------------------- the commands of the set-up

  function ExecAll(fw: Tables, cs: seq<Command>): (r: Tables)
    decreases |cs|
  {
    if cs == [] then fw else ExecAll(Exec(fw, cs[0]), cs[1..])
  }

  function NewChains(ids: seq<ChainId>): (cs: seq<Command>) {
    seq(|ids|, i requires 0 <= i < |ids| => NewChain(ids[i]))
  }

  function Appends(id: ChainId, rules: seq<Rule>): (cs: seq<Command>) {
    seq(|rules|, i requires 0 <= i < |rules| => Append(id, rules[i]))
  }

  /** The rule that tests whether the kernel supports --or-mark, and the one for a mask on --mark. */
  function OrTest(cfg: Config): (r: Rule) { Rule([], OrMark(cfg.blockedMark)) }
  function MaskTest(cfg: Config): (r: Rule) { MarkRule(cfg, cfg.blockedMark, Reject) }

  /** `_iptables_check_mark_masking`: what the kernel accepts of it. */
  function ProbeCommands(cfg: Config): (cs: seq<Command>) {
    (if cfg.orMark then [Insert(PRE, 1, OrTest(cfg)), DeleteAt(PRE, 1)] else [])
    + (if cfg.masking then [Insert(FWD, 1, MaskTest(cfg)), DeleteAt(FWD, 1)] else [])
  }

  function HookCommands(cfg: Config): (cs: seq<Command>) {
    [Insert(PRE, 1, HookRule(cfg, NdsOUT)), Insert(PRE, 2, HookRule(cfg, NdsBLK)), Insert(PRE, 3, HookRule(cfg, NdsTRU))]
  }

  function AllowCommands(cfg: Config, macs: seq<string>): (cs: seq<Command>) {
    seq(|macs|, i requires 0 <= i < |macs| => Insert(BLK, 1, MacRule(cfg, AllowedList, macs[i])))
  }

  function MacCommands(cfg: Config, trusted: seq<string>, blocked: seq<string>, allowed: seq<string>): (cs: seq<Command>) {
    Appends(TRU, MacRules(cfg, TrustedList, trusted))
    + if cfg.mechanism == MacBlock then Appends(BLK, MacRules(cfg, BlockedList, blocked))
      else Appends(BLK, [CatchAll(cfg)]) + AllowCommands(cfg, allowed)
  }

  function MangleCommands(cfg: Config, trusted: seq<string>, blocked: seq<string>, allowed: seq<string>): (cs: seq<Command>) {
    NewChains([TRU, BLK, ALW, INC, OUT]) + HookCommands(cfg) + [Insert(POST, 1, PostRule(cfg))]
    + MacCommands(cfg, trusted, blocked, allowed)
  }

  function NatCommands(cfg: Config): (cs: seq<Command>) {
    NewChains([NATOUT]) + [Insert(NATPRE, 1, HookRule(cfg, NdsOUT))] + Appends(NATOUT, NatChain(cfg))
  }

  function InputCommands(cfg: Config): (cs: seq<Command>) {
    [Insert(IN, 1, HookRule(cfg, NdsRTR))] + Appends(RTR, RtrChain(cfg)) + Appends(TRT, ClassChain(cfg.trustedUsersToRouter))
  }

  function ForwardCommands(cfg: Config): (cs: seq<Command>) {
    [Insert(FWD, 1, HookRule(cfg, NdsNET))] + Appends(NET, NetChain(cfg))
    + Appends(FTRU, ClassChain(cfg.trustedUsers)) + Appends(AUT, ClassChain(cfg.authenticatedUsers))
  }

  function FilterCommands(cfg: Config): (cs: seq<Command>) {
    NewChains([NET, RTR, AUT, FTRU, TRT]) + InputCommands(cfg) + ForwardCommands(cfg)
  }

  function BuildCommands(cfg: Config, trusted: seq<string>, blocked: seq<string>, allowed: seq<string>): (cs: seq<Command>) {
    MangleCommands(cfg, trusted, blocked, allowed) + NatCommands(cfg) + FilterCommands(cfg)
  }

  /** All commands of `iptables_fw_init`, in order, chain by chain. */
  function SetUpCommands(cfg: Config, trusted: seq<string>, blocked: seq<string>, allowed: seq<string>): (cs: seq<Command>) {
    ProbeCommands(cfg) + BuildCommands(cfg, trusted, blocked, allowed)
  }

  /** From the tables `f` and the log `l` the commands `cs` led to `g` and `m`. */
  predicate Issued(f: Tables, l: seq<Command>, cs: seq<Command>, g: Tables, m: seq<Command>) {
    m == l + cs && g == ExecAll(f, cs)
  }

  lemma {:induction false} ExecConcat(fw: Tables, a: seq<Command>, b: seq<Command>)
    ensures ExecAll(fw, a + b) == ExecAll(ExecAll(fw, a), b)
    decreases |a|
  {
    hide Exec;
    if a == [] {
      assert a + b == b;
    } else {
      assert (a + b)[0] == a[0] && (a + b)[1..] == a[1..] + b;
      ExecConcat(Exec(fw, a[0]), a[1..], b);
    }
  }

  lemma {:induction false} Then(f: Tables, l: seq<Command>, a: seq<Command>, g: Tables, m: seq<Command>, b: seq<Command>,
                                h: Tables, n: seq<Command>)
    requires Issued(f, l, a, g, m) && Issued(g, m, b, h, n)
    ensures Issued(f, l, a + b, h, n)
  {
    hide ExecAll;
    ExecConcat(f, a, b);
    assert n == (l + a) + b;
    assert (l + a) + b == l + (a + b);
  }

  lemma {:induction false} NothingYet(f: Tables, l: seq<Command>)
    ensures Issued(f, l, [], f, l)
  {
    assert l + [] == l;
  }

  lemma {:induction false} Single(f: Tables, l: seq<Command>, c: Command)
    ensures Issued(f, l, [c], Exec(f, c), l + [c])
  {
    hide Exec;
    assert [c][1..] == [];
    assert ExecAll(Exec(f, c), []) == Exec(f, c);
  }

  // ---------------------------------------------------------------- the commands

  class Firewall {
    var fw: Tables
    ghost var log: seq<Command>      // every command so far

    method Do(c: Command) returns (rc: int)
      modifies this
      ensures fw == Exec(old(fw), c) && (rc == 0 <==> Accepted(old(fw), c))
      ensures Issued(old(fw), old(log), [c], fw, log)
    {
      Single(fw, log, c);
      rc := if Accepted(fw, c) then 0 else -1;
      fw := Exec(fw, c);
      log := log + [c];
    }

    /** -N. */
    method New(id: ChainId) returns (ok: bool)
      requires id !in fw && !BuiltIn(id.chain)
      modifies this
      ensures ok && fw == old(fw)[id := []]
      ensures Issued(old(fw), old(log), NewChains([id]), fw, log)
    {
      assert NewChains([id]) == [NewChain(id)];
      hide Issued;
      var rc := Do(NewChain(id));
      ok := rc == 0;
    }

    /** Consecutive -A commands on one chain. */
    method AppendAll(id: ChainId, rules: seq<Rule>) returns (ok: bool)
      requires id in fw
      requires forall i :: 0 <= i < |rules| ==> TargetExists(fw, id, rules[i])
      modifies this
      ensures ok && fw == old(fw)[id := old(fw)[id] + rules]
      ensures Issued(old(fw), old(log), Appends(id, rules), fw, log)
    {
      hide Issued;
      ok := true;
      var i := 0;
      assert old(fw)[id] + rules[..0] == old(fw)[id];
      NothingYet(fw, log);
      assert Appends(id, rules[..0]) == [];
      while i < |rules|
        invariant i <= |rules| && ok
        invariant fw == old(fw)[id := old(fw)[id] + rules[..i]]
        invariant Issued(old(fw), old(log), Appends(id, rules[..i]), fw, log)
      {
        ghost var f, l := fw, log;
        assert Appends(id, rules[..i + 1]) == Appends(id, rules[..i]) + [Append(id, rules[i])];
        assert old(fw)[id] + rules[..i] + [rules[i]] == old(fw)[id] + rules[..i + 1];
        assert TargetExists(fw, id, rules[i]);
        var rc := Do(Append(id, rules[i]));
        Then(old(fw), old(log), Appends(id, rules[..i]), f, l, [Append(id, rules[i])], fw, log);
        ok := ok && rc == 0;
        i := i + 1;
      }
      assert rules[..i] == rules;
    }

    /** -I at the head of a chain, for the rules from the last to the first. */
    method Push(id: ChainId, r: Rule) returns (ok: bool)
      requires id in fw && TargetExists(fw, id, r)
      modifies this
      ensures ok && fw == old(fw)[id := [r] + old(fw)[id]]
      ensures Issued(old(fw), old(log), [Insert(id, 1, r)], fw, log)
    {
      hide Issued;
      var rc := Do(Insert(id, 1, r));
      ok := rc == 0;
      assert old(fw)[id][..0] + [r] + old(fw)[id][0..] == [r] + old(fw)[id];
    }

    /** `iptables_allow_mac` for every entry of a list. */
    method AllowAll(cfg: Config, macs: seq<string>) returns (ok: bool)
      requires BLK in fw
      modifies this
      ensures ok && fw == old(fw)[BLK := Reversed(MacRules(cfg, AllowedList, macs)) + old(fw)[BLK]]
      ensures Issued(old(fw), old(log), AllowCommands(cfg, macs), fw, log)
    {
      hide MacRule, MacRules, Reversed, Issued;
      ok := true;
      var i := 0;
      assert macs[..0] == [];
      NoRules(cfg, AllowedList);
      assert [] + old(fw)[BLK] == old(fw)[BLK];
      NothingYet(fw, log);
      assert AllowCommands(cfg, macs[..0]) == [];
      while i < |macs|
        invariant i <= |macs| && ok
        invariant fw == old(fw)[BLK := Reversed(MacRules(cfg, AllowedList, macs[..i])) + old(fw)[BLK]]
        invariant Issued(old(fw), old(log), AllowCommands(cfg, macs[..i]), fw, log)
      {
        ghost var f, l := fw, log;
        var r := MacRule(cfg, AllowedList, macs[i]);
        assert AllowCommands(cfg, macs[..i + 1]) == AllowCommands(cfg, macs[..i]) + [Insert(BLK, 1, r)];
        NotJump(cfg, AllowedList, macs[i]);
        var rc := Push(BLK, r);
        Then(old(fw), old(log), AllowCommands(cfg, macs[..i]), f, l, [Insert(BLK, 1, r)], fw, log);
        ok := ok && rc;
        assert macs[..i + 1] == macs[..i] + [macs[i]];
        OneMore(cfg, AllowedList, macs[..i], macs[i]);
        ghost var rev := Reversed(MacRules(cfg, AllowedList, macs[..i]));
        assert [r] + (rev + old(fw)[BLK]) == [r] + rev + old(fw)[BLK];
        i := i + 1;
      }
      assert macs[..i] == macs;
    }

    // -------------------------------------------------------------- initialisation

    /** `_iptables_check_mark_masking`: the test rules go again. */
    method ProbeMarks(cfg: Config)
      requires PRE in fw && FWD in fw
      modifies this
      ensures fw == old(fw)
      ensures Issued(old(fw), old(log), ProbeCommands(cfg), fw, log)
    {
      assert !OrTest(cfg).target.Jump? && !MaskTest(cfg).target.Jump?;
      hide Issued, MaskTest, OrTest;
      NothingYet(fw, log);
      if cfg.orMark {
        Test(PRE, OrTest(cfg));
      }
      ghost var f, l := fw, log;
      NothingYet(fw, log);
      if cfg.masking {
        Test(FWD, MaskTest(cfg));
      }
      Then(old(fw), old(log), if cfg.orMark then [Insert(PRE, 1, OrTest(cfg)), DeleteAt(PRE, 1)] else [], f, l,
           if cfg.masking then [Insert(FWD, 1, MaskTest(cfg)), DeleteAt(FWD, 1)] else [], fw, log);
    }

    /** Puts a test rule at the head of a chain and takes it away again. */
    method Test(id: ChainId, r: Rule)
      requires id in fw && !r.target.Jump?
      modifies this
      ensures fw == old(fw)
      ensures Issued(old(fw), old(log), [Insert(id, 1, r), DeleteAt(id, 1)], fw, log)
    {
      hide Issued;
      var rc := Do(Insert(id, 1, r));
      ghost var f, l := fw, log;
      rc := Do(DeleteAt(id, 1));
      assert fw[id] == old(fw)[id];
      Then(old(fw), old(log), [Insert(id, 1, r)], f, l, [DeleteAt(id, 1)], fw, log);
      assert [Insert(id, 1, r)] + [DeleteAt(id, 1)] == [Insert(id, 1, r), DeleteAt(id, 1)];
    }

    /** The three jumps at the head of mangle PREROUTING, inserted at positions 1, 2 and 3. */
    method HookPrerouting(cfg: Config) returns (ok: bool)
      requires PRE in fw && OUT in fw && BLK in fw && TRU in fw
      modifies this
      ensures ok && fw == old(fw)[PRE := HookRules(cfg) + old(fw)[PRE]]
      ensures Issued(old(fw), old(log), HookCommands(cfg), fw, log)
    {
      ghost var was := fw[PRE];
      var a, b, c := HookRule(cfg, NdsOUT), HookRule(cfg, NdsBLK), HookRule(cfg, NdsTRU);
      assert was[..0] + [a] + was[0..] == [a] + was;
      assert ([a] + was)[..1] + [b] + ([a] + was)[1..] == [a, b] + was;
      assert ([a, b] + was)[..2] + [c] + ([a, b] + was)[2..] == [a, b, c] + was;
      hide HookRule, Issued;
      var rc1 := Do(Insert(PRE, 1, a));
      ghost var f, l := fw, log;
      var rc2 := Do(Insert(PRE, 2, b));
      Then(old(fw), old(log), [Insert(PRE, 1, a)], f, l, [Insert(PRE, 2, b)], fw, log);
      f, l := fw, log;
      var rc3 := Do(Insert(PRE, 3, c));
      Then(old(fw), old(log), [Insert(PRE, 1, a)] + [Insert(PRE, 2, b)], f, l, [Insert(PRE, 3, c)], fw, log);
      assert [Insert(PRE, 1, a)] + [Insert(PRE, 2, b)] + [Insert(PRE, 3, c)] == HookCommands(cfg);
      ok := rc1 == 0 && rc2 == 0 && rc3 == 0;
    }

    /** The chains of the MAC lists. */
    method MacChains(cfg: Config, trusted: seq<string>, blocked: seq<string>, allowed: seq<string>) returns (ok: bool)
      requires TRU in fw && BLK in fw && fw[TRU] == [] && fw[BLK] == []
      modifies this
      ensures ok && fw == old(fw)[TRU := InitialTru(cfg, trusted)][BLK := InitialBlk(cfg, blocked, allowed)]
      ensures Issued(old(fw), old(log), MacCommands(cfg, trusted, blocked, allowed), fw, log)
    {
      hide MacRules, Reversed, Exec, Accepted, Issued, Appends, AllowCommands;
      NeverJumps(cfg, TrustedList, trusted);
      ok := AppendAll(TRU, MacRules(cfg, TrustedList, trusted));
      ghost var f, l := fw, log;
      assert [] + MacRules(cfg, TrustedList, trusted) == MacRules(cfg, TrustedList, trusted);
      var more: bool;
      if cfg.mechanism == MacBlock {
        NeverJumps(cfg, BlockedList, blocked);
        more := AppendAll(BLK, MacRules(cfg, BlockedList, blocked));
        assert [] + MacRules(cfg, BlockedList, blocked) == MacRules(cfg, BlockedList, blocked);
      } else {
        var rc := AppendAll(BLK, [CatchAll(cfg)]);
        ghost var g, m := fw, log;
        assert [] + [CatchAll(cfg)] == [CatchAll(cfg)];
        more := AllowAll(cfg, allowed);
        Then(f, l, Appends(BLK, [CatchAll(cfg)]), g, m, AllowCommands(cfg, allowed), fw, log);
        more := more && rc;
      }
      Then(old(fw), old(log), Appends(TRU, MacRules(cfg, TrustedList, trusted)), f, l,
           if cfg.mechanism == MacBlock then Appends(BLK, MacRules(cfg, BlockedList, blocked))
           else Appends(BLK, [CatchAll(cfg)]) + AllowCommands(cfg, allowed), fw, log);
      ok := ok && more;
    }

    method NewMangleChains() returns (ok: bool)
      requires TRU !in fw && BLK !in fw && ALW !in fw && INC !in fw && OUT !in fw
      modifies this
      ensures ok && fw == old(fw)[TRU := []][BLK := []][ALW := []][INC := []][OUT := []]
      ensures Issued(old(fw), old(log), NewChains([TRU, BLK, ALW, INC, OUT]), fw, log)
    {
      hide Exec, Accepted, Issued;
      var r1 := New(TRU);
      ghost var f1, l1 := fw, log;
      var r2 := New(BLK);
      Then(old(fw), old(log), NewChains([TRU]), f1, l1, NewChains([BLK]), fw, log);
      assert NewChains([TRU]) + NewChains([BLK]) == NewChains([TRU, BLK]);
      ghost var f2, l2 := fw, log;
      var r3 := New(ALW);
      Then(old(fw), old(log), NewChains([TRU, BLK]), f2, l2, NewChains([ALW]), fw, log);
      assert NewChains([TRU, BLK]) + NewChains([ALW]) == NewChains([TRU, BLK, ALW]);
      ghost var f3, l3 := fw, log;
      var r4 := New(INC);
      Then(old(fw), old(log), NewChains([TRU, BLK, ALW]), f3, l3, NewChains([INC]), fw, log);
      assert NewChains([TRU, BLK, ALW]) + NewChains([INC]) == NewChains([TRU, BLK, ALW, INC]);
      ghost var f4, l4 := fw, log;
      var r5 := New(OUT);
      Then(old(fw), old(log), NewChains([TRU, BLK, ALW, INC]), f4, l4, NewChains([OUT]), fw, log);
      assert NewChains([TRU, BLK, ALW, INC]) + NewChains([OUT]) == NewChains([TRU, BLK, ALW, INC, OUT]);
      ok := r1 && r2 && r3 && r4 && r5;
    }

    method InitMangle(cfg: Config, trusted: seq<string>, blocked: seq<string>, allowed: seq<string>) returns (ok: bool)
      requires PRE in fw && POST in fw && TRU !in fw && BLK !in fw && ALW !in fw && INC !in fw && OUT !in fw
      modifies this
      ensures ok && fw == MangleTables(cfg, old(fw), trusted, blocked, allowed)
      ensures Issued(old(fw), old(log), MangleCommands(cfg, trusted, blocked, allowed), fw, log)
    {
      hide HookRules, InitialTru, InitialBlk, PostRule, TargetExists, Issued, NewChains, HookCommands, MacCommands, MangleTables;
      MangleEqual(cfg, fw, trusted, blocked, allowed);
      ghost var a, b := NewChains([TRU, BLK, ALW, INC, OUT]), HookCommands(cfg);
      var r1 := NewMangleChains();
      ghost var f, l := fw, log;
      var r2 := HookPrerouting(cfg);
      Then(old(fw), old(log), a, f, l, b, fw, log);
      f, l := fw, log;
      PostTarget(cfg, fw);
      var r3 := Push(POST, PostRule(cfg));
      Then(old(fw), old(log), a + b, f, l, [Insert(POST, 1, PostRule(cfg))], fw, log);
      f, l := fw, log;
      var r4 := MacChains(cfg, trusted, blocked, allowed);
      Then(old(fw), old(log), a + b + [Insert(POST, 1, PostRule(cfg))], f, l, MacCommands(cfg, trusted, blocked, allowed), fw, log);
      ok := r1 && r2 && r3 && r4;
    }

    method InitNat(cfg: Config) returns (ok: bool)
      requires NATPRE in fw && NATOUT !in fw
      modifies this
      ensures ok && fw == NatTables(cfg, old(fw))
      ensures Issued(old(fw), old(log), NatCommands(cfg), fw, log)
    {
      hide Exec, Accepted, CompileAll, Issued, NewChains, Appends;
      var r1 := New(NATOUT);
      ghost var f, l := fw, log;
      var r2 := Push(NATPRE, HookRule(cfg, NdsOUT));
      Then(old(fw), old(log), NewChains([NATOUT]), f, l, [Insert(NATPRE, 1, HookRule(cfg, NdsOUT))], fw, log);
      f, l := fw, log;
      assert forall i :: 0 <= i < |NatChain(cfg)| ==> TargetExists(fw, NATOUT, NatChain(cfg)[i]);
      var r3 := FillChain(NATOUT, NatChain(cfg));
      Then(old(fw), old(log), NewChains([NATOUT]) + [Insert(NATPRE, 1, HookRule(cfg, NdsOUT))], f, l,
           Appends(NATOUT, NatChain(cfg)), fw, log);
      ok := r1 && r2 && r3;
    }

    method NewFilterChains() returns (ok: bool)
      requires NET !in fw && RTR !in fw && AUT !in fw && FTRU !in fw && TRT !in fw
      modifies this
      ensures ok && fw == old(fw)[NET := []][RTR := []][AUT := []][FTRU := []][TRT := []]
      ensures Issued(old(fw), old(log), NewChains([NET, RTR, AUT, FTRU, TRT]), fw, log)
    {
      hide Exec, Accepted, Issued;
      var r1 := New(NET);
      ghost var f1, l1 := fw, log;
      var r2 := New(RTR);
      Then(old(fw), old(log), NewChains([NET]), f1, l1, NewChains([RTR]), fw, log);
      assert NewChains([NET]) + NewChains([RTR]) == NewChains([NET, RTR]);
      ghost var f2, l2 := fw, log;
      var r3 := New(AUT);
      Then(old(fw), old(log), NewChains([NET, RTR]), f2, l2, NewChains([AUT]), fw, log);
      assert NewChains([NET, RTR]) + NewChains([AUT]) == NewChains([NET, RTR, AUT]);
      ghost var f3, l3 := fw, log;
      var r4 := New(FTRU);
      Then(old(fw), old(log), NewChains([NET, RTR, AUT]), f3, l3, NewChains([FTRU]), fw, log);
      assert NewChains([NET, RTR, AUT]) + NewChains([FTRU]) == NewChains([NET, RTR, AUT, FTRU]);
      ghost var f4, l4 := fw, log;
      var r5 := New(TRT);
      Then(old(fw), old(log), NewChains([NET, RTR, AUT, FTRU]), f4, l4, NewChains([TRT]), fw, log);
      assert NewChains([NET, RTR, AUT, FTRU]) + NewChains([TRT]) == NewChains([NET, RTR, AUT, FTRU, TRT]);
      ok := r1 && r2 && r3 && r4 && r5;
    }

    method InitInput(cfg: Config) returns (ok: bool)
      requires IN in fw && FilterReady(fw)
      modifies this
      ensures ok && fw == old(fw)[RTR := RtrChain(cfg)][TRT := ClassChain(cfg.trustedUsersToRouter)]
                            [IN := [HookRule(cfg, NdsRTR)] + old(fw)[IN]]
      ensures Issued(old(fw), old(log), InputCommands(cfg), fw, log)
    {
      hide Exec, Accepted, NetChain, RtrChain, ClassChain, HookRule, TargetExists, Issued, Appends;
      ghost var a, b := [Insert(IN, 1, HookRule(cfg, NdsRTR))], Appends(RTR, RtrChain(cfg));
      ChainTargets(cfg, fw);
      var r1 := Push(IN, HookRule(cfg, NdsRTR));
      ghost var f, l := fw, log;
      ChainTargets(cfg, fw);
      var r2 := FillChain(RTR, RtrChain(cfg));
      Then(old(fw), old(log), a, f, l, b, fw, log);
      f, l := fw, log;
      ChainTargets(cfg, fw);
      var r3 := FillChain(TRT, ClassChain(cfg.trustedUsersToRouter));
      Then(old(fw), old(log), a + b, f, l, Appends(TRT, ClassChain(cfg.trustedUsersToRouter)), fw, log);
      ok := r1 && r2 && r3;
    }

    method InitForward(cfg: Config) returns (ok: bool)
      requires FWD in fw && NET in fw && RTR in fw && TRT in fw && AUT in fw && FTRU in fw
      requires fw[NET] == [] && fw[AUT] == [] && fw[FTRU] == []
      modifies this
      ensures ok && fw == old(fw)[NET := NetChain(cfg)][FTRU := ClassChain(cfg.trustedUsers)]
                            [AUT := ClassChain(cfg.authenticatedUsers)]
                            [FWD := [HookRule(cfg, NdsNET)] + old(fw)[FWD]]
      ensures Issued(old(fw), old(log), ForwardCommands(cfg), fw, log)
    {
      hide Exec, Accepted, NetChain, RtrChain, ClassChain, HookRule, TargetExists, Issued, Appends;
      ghost var a, b := [Insert(FWD, 1, HookRule(cfg, NdsNET))], Appends(NET, NetChain(cfg));
      ghost var c := Appends(FTRU, ClassChain(cfg.trustedUsers));
      ChainTargets(cfg, fw);
      var r1 := Push(FWD, HookRule(cfg, NdsNET));
      ghost var f, l := fw, log;
      ChainTargets(cfg, fw);
      var r2 := FillChain(NET, NetChain(cfg));
      Then(old(fw), old(log), a, f, l, b, fw, log);
      f, l := fw, log;
      ChainTargets(cfg, fw);
      var r3 := FillChain(FTRU, ClassChain(cfg.trustedUsers));
      Then(old(fw), old(log), a + b, f, l, c, fw, log);
      f, l := fw, log;
      ChainTargets(cfg, fw);
      var r4 := FillChain(AUT, ClassChain(cfg.authenticatedUsers));
      Then(old(fw), old(log), a + b + c, f, l, Appends(AUT, ClassChain(cfg.authenticatedUsers)), fw, log);
      ok := r1 && r2 && r3 && r4;
    }

    method InitFilter(cfg: Config) returns (ok: bool)
      requires IN in fw && FWD in fw && NET !in fw && RTR !in fw && AUT !in fw && FTRU !in fw && TRT !in fw
      modifies this
      ensures ok && fw == FilterTables(cfg, old(fw))
      ensures Issued(old(fw), old(log), FilterCommands(cfg), fw, log)
    {
      hide NetChain, RtrChain, ClassChain, HookRule, Issued, NewChains, InputCommands, ForwardCommands;
      ghost var a := NewChains([NET, RTR, AUT, FTRU, TRT]);
      var r1 := NewFilterChains();
      ghost var f, l := fw, log;
      var r2 := InitInput(cfg);
      Then(old(fw), old(log), a, f, l, InputCommands(cfg), fw, log);
      f, l := fw, log;
      var r3 := InitForward(cfg);
      Then(old(fw), old(log), a + InputCommands(cfg), f, l, ForwardCommands(cfg), fw, log);
      ok := r1 && r2 && r3;
    }

    /** The -A commands that fill an empty chain. */
    method FillChain(id: ChainId, rules: seq<Rule>) returns (ok: bool)
      requires id in fw && fw[id] == [] && forall i :: 0 <= i < |rules| ==> TargetExists(fw, id, rules[i])
      modifies this
      ensures ok && fw == old(fw)[id := rules]
      ensures Issued(old(fw), old(log), Appends(id, rules), fw, log)
    {
      hide Issued;
      ok := AppendAll(id, rules);
      assert [] + rules == rules;
    }

    /** `iptables_fw_init`: the result is 0 exactly when the marks are distinct and nonzero, and then the
        tables are as intended. Whatever the marks, the commands are those of the set-up, in order, and
        the destruction can undo them. */
    method Init(cfg: Config, trusted: seq<string>, blocked: seq<string>, allowed: seq<string>) returns (rc: int)
      requires Prepared(fw)
      modifies this
      ensures ValidMarks(cfg) ==> Done(cfg, old(fw), trusted, blocked, allowed, fw)
      ensures rc == 0 <==> ValidMarks(cfg)
      ensures Over(old(fw), fw)
      ensures Issued(old(fw), old(log), SetUpCommands(cfg, trusted, blocked, allowed), fw, log)
    {
      hide Done, MangleTables, NatTables, FilterTables, ValidMarks, Over, Issued, ProbeCommands, BuildCommands;
      rc := if ValidMarks(cfg) then 0 else -1;
      ProbeMarks(cfg);
      ghost var f, l := fw, log;
      var ok := InitTables(cfg, trusted, blocked, allowed);
      Then(old(fw), old(log), ProbeCommands(cfg), f, l, BuildCommands(cfg, trusted, blocked, allowed), fw, log);
      AllDone(cfg, old(fw), trusted, blocked, allowed);
      DoneOver(cfg, old(fw), trusted, blocked, allowed, fw);
      if !ok {
        rc := -1;
      }
    }

    /** The three tables, one after the other. */
    method InitTables(cfg: Config, trusted: seq<string>, blocked: seq<string>, allowed: seq<string>) returns (ok: bool)
      requires Prepared(fw)
      modifies this
      ensures ok && fw == FilterTables(cfg, NatTables(cfg, MangleTables(cfg, old(fw), trusted, blocked, allowed)))
      ensures Issued(old(fw), old(log), BuildCommands(cfg, trusted, blocked, allowed), fw, log)
    {
      TablesReady(cfg, fw, trusted, blocked, allowed);
      hide Prepared, MangleTables, NatTables, FilterTables, Issued, MangleCommands, NatCommands, FilterCommands;
      ghost var a := MangleCommands(cfg, trusted, blocked, allowed);
      var r1 := InitMangle(cfg, trusted, blocked, allowed);
      ghost var f, l := fw, log;
      var r2 := InitNat(cfg);
      Then(old(fw), old(log), a, f, l, NatCommands(cfg), fw, log);
      f, l := fw, log;
      var r3 := InitFilter(cfg);
      Then(old(fw), old(log), a + NatCommands(cfg), f, l, FilterCommands(cfg), fw, log);
      ok := r1 && r2 && r3;
    }

    // -------------------------------------------------------------- destruction

    /** The first rule whose listing mentions the word, or the number of rules. */
    method FindMention(listed: (Rule, Chain) -> bool, rules: seq<Rule>, mention: Chain) returns (i: nat)
      ensures i <= |rules| && (i < |rules| ==> listed(rules[i], mention))
      ensures i == |rules| ==> Unmentioned(listed, rules, mention) == rules
    {
      i := 0;
      while i < |rules| && !listed(rules[i], mention)
        invariant i <= |rules| && forall r :: r in rules[..i] ==> !listed(r, mention)
      {
        assert rules[..i + 1] == rules[..i] + [rules[i]];
        i := i + 1;
      }
      if i == |rules| {
        assert rules[..i] == rules;
        UnmentionedKeeps(listed, rules, mention);
      }
    }

    /** `iptables_fw_destroy_mention`: delete the first rule of the chain whose listing mentions the
        word, and start over until there is none. */
    method DestroyMention(listed: (Rule, Chain) -> bool, id: ChainId, mention: Chain)
      modifies this
      ensures fw == if id in old(fw) then old(fw)[id := Unmentioned(listed, old(fw)[id], mention)] else old(fw)
      decreases if id in fw then |fw[id]| else 0
    {
      hide Unmentioned, RemoveAt;
      if id in fw {
        var rules := fw[id];
        var i := FindMention(listed, rules, mention);
        if i < |rules| {
          UnmentionedSkip(listed, rules, i, mention);
          var rc := Do(DeleteAt(id, i + 1));
          DestroyMention(listed, id, mention);
        } else {
          assert fw == fw[id := rules];
        }
      }
    }

    /** The destruction of every mention of several chains in one hook. */
    method DestroyMentions(listed: (Rule, Chain) -> bool, id: ChainId, mentions: seq<Chain>)
      requires id in fw
      modifies this
      ensures fw == old(fw)[id := UnmentionedAll(listed, old(fw)[id], mentions)]
    {
      var i := 0;
      assert mentions[0..] == mentions && fw == fw[id := fw[id]];
      while i < |mentions|
        invariant i <= |mentions| && id in fw && fw == old(fw)[id := fw[id]]
        invariant UnmentionedAll(listed, fw[id], mentions[i..]) == UnmentionedAll(listed, old(fw)[id], mentions)
      {
        assert mentions[i..][0] == mentions[i] && mentions[i..][1..] == mentions[i + 1..];
        DestroyMention(listed, id, mentions[i]);
        i := i + 1;
      }
    }

    /** Consecutive -F commands. */
    method FlushAll(ids: seq<ChainId>)
      modifies this
      ensures fw.Keys == old(fw).Keys
      ensures forall id :: id in fw ==> fw[id] == if id in ids then [] else old(fw)[id]
    {
      var i := 0;
      while i < |ids|
        invariant i <= |ids| && fw.Keys == old(fw).Keys
        invariant forall id :: id in fw ==> fw[id] == if id in ids[..i] then [] else old(fw)[id]
      {
        assert ids[..i + 1] == ids[..i] + [ids[i]];
        var rc := Do(Flush(ids[i]));
        i := i + 1;
      }
      assert ids[..i] == ids;
    }

    /** Consecutive -X commands: each hits an empty chain that no rule refers to, or one that does not
        exist. */
    method RemoveAll(ids: seq<ChainId>)
      requires forall i :: 0 <= i < |ids| && ids[i] in fw ==> fw[ids[i]] == [] && !BuiltIn(ids[i].chain)
      requires forall i :: 0 <= i < |ids| ==> !Referenced(fw, ids[i])
      modifies this
      ensures fw == old(fw) - (set id | id in ids)
    {
      var i := 0;
      while i < |ids|
        invariant i <= |ids|
        invariant fw == old(fw) - (set id | id in ids[..i])
      {
        assert ids[..i + 1] == ids[..i] + [ids[i]];
        assert !Referenced(fw, ids[i]);
        var rc := Do(Remove(ids[i]));
        i := i + 1;
      }
      assert ids[..i] == ids;
    }

    /** The hooks of one table lose their mentions of the daemon's chains. */
    method RestoreHooks(listed: (Rule, Chain) -> bool, hooks: seq<(ChainId, seq<Chain>)>,
                        ghost table: Table, ghost after: Tables)
      requires Restorable(listed, after, fw) && HooksOf(table, hooks)
      modifies this
      ensures Restorable(listed, after, fw) && fw.Keys == old(fw).Keys
      ensures forall id :: id in after && id.table == table ==> fw[id] == after[id]
      ensures forall id :: id in fw && (IsOwn(id) || id.table != table) ==> fw[id] == old(fw)[id]
    {
      hide UnmentionedAll, Restorable, HooksOf, IsOwn, IsHook, SoughtIn, Around;
      var i := 0;
      while i < |hooks|
        invariant i <= |hooks| && Restorable(listed, after, fw) && fw.Keys == old(fw).Keys
        invariant forall j :: 0 <= j < i && hooks[j].0 in after ==> hooks[j].0 in fw && fw[hooks[j].0] == after[hooks[j].0]
        invariant forall id :: id in fw && (IsOwn(id) || id.table != table) ==> fw[id] == old(fw)[id]
      {
        var (id, cs) := hooks[i];
        RestorableKeys(listed, after, fw);
        HookAt(table, hooks, i);
        if id in fw {
          HookRestored(listed, after, fw, id);
          ghost var f := fw;
          DestroyMentions(listed, id, cs);
          assert fw == f[id := after[id]];
        }
        i := i + 1;
      }
      OtherChains(listed, after, fw, table, hooks);
    }

    /** -F, then -X, of the daemon's chains of one table. */
    method DropChains(own: seq<ChainId>, ghost table: Table, ghost after: Tables)
      requires Around(after, fw) && Unreferring(after)
      requires forall id :: id in after && id.table == table ==> id in fw && fw[id] == after[id]
      requires forall id :: id in own <==> IsOwn(id) && id.table == table
      modifies this
      ensures fw.Keys == old(fw).Keys - (set id | id in own)
      ensures forall id :: id in fw ==> fw[id] == old(fw)[id]
    {
      hide Unreferring, Around, IsOwn, BuiltIn, Referenced;
      ghost var f := fw;
      FlushAll(own);
      Flushed(own, table, after, f, fw);
      RemoveAll(own);
    }

    /** The part of the destruction for one table. */
    method ClearTable(listed: (Rule, Chain) -> bool, hooks: seq<(ChainId, seq<Chain>)>, own: seq<ChainId>,
                      ghost table: Table, ghost after: Tables)
      requires Restorable(listed, after, fw) && Unreferring(after)
      requires HooksOf(table, hooks) && forall id :: id in own <==> IsOwn(id) && id.table == table
      modifies this
      ensures Restorable(listed, after, fw) && Cleared(after, fw, table)
      ensures forall id: ChainId :: id.table != table ==>
                (id in fw <==> id in old(fw)) && (id in fw ==> fw[id] == old(fw)[id])
    {
      hide Unreferring, Restorable, Around, HooksOf, IsOwn;
      RestoreHooks(listed, hooks, table, after);
      ghost var f := fw;
      RestorableKeys(listed, after, f);
      DropChains(own, table, after);
      RestorableDrop(listed, after, f, fw, own, table);
    }

    /** `iptables_fw_destroy`, on hooks of any contents: the daemon's chains go, and the hooks keep the
        rules whose listing mentions none of them; provided those rules refer to none. */
    method Destroy(listed: (Rule, Chain) -> bool, ghost prior: Tables)
      requires Around(prior, fw) && Unreferring(Destroyed(listed, prior, fw))
      modifies this
      ensures fw == Destroyed(listed, prior, old(fw))
    {
      hide Around, Unreferring, Restorable, Destroyed, Cleared, HooksOf, IsOwn;
      ghost var after := Destroyed(listed, prior, fw);
      DestroyedRestorable(listed, prior, fw);
      MangleHooks();
      NatHooks();
      FilterHooks();
      OwnChains();
      ClearTable(listed, [(PRE, [NdsTRU, NdsBLK, NdsALW, NdsOUT]), (POST, [NdsINC])], [TRU, BLK, ALW, OUT, INC], Mangle, after);
      ghost var f := fw;
      ClearTable(listed, [(NATPRE, [NdsOUT])], [NATOUT], Nat, after);
      ClearedFrame(after, f, fw, Mangle);
      f := fw;
      ClearTable(listed, [(IN, [NdsRTR]), (FWD, [NdsNET])], [RTR, NET, AUT, FTRU, TRT], Filter, after);
      ClearedFrame(after, f, fw, Mangle);
      ClearedFrame(after, f, fw, Nat);
      AllCleared(after, fw);
    }

    /** The life of the daemon: set up, any run, taken down. The tables end as they began. */
    method Lifetime(cfg: Config, listed: (Rule, Chain) -> bool, trusted: seq<string>, blocked: seq<string>, allowed: seq<string>,
                    steps: seq<Step>)
      requires Prepared(fw) && Clean(listed, fw) && ValidMarks(cfg)
      requires NoDuplicates(trusted) && NoDuplicates(blocked) && NoDuplicates(allowed)
      modifies this
      ensures fw == old(fw)
    {
      hide Prepared, Clean, Done, Run, Initialised, Inv, Over, Issued, Around, Unreferring, Destroyed;
      var rc := Init(cfg, trusted, blocked, allowed);
      DoneInitialises(cfg, old(fw), trusted, blocked, allowed, fw);
      ghost var fw0 := fw;
      EveryRunAgrees(cfg, fw0, trusted, blocked, allowed, steps);
      DoneOver(cfg, old(fw), trusted, blocked, allowed, fw0);
      RunOver(cfg, old(fw), fw0, Run(cfg, Initial(fw0, trusted, blocked, allowed), steps));
      fw := Run(cfg, Initial(fw, trusted, blocked, allowed), steps).fw;
      OverDestroyed(listed, old(fw), fw);
      Destroy(listed, old(fw));
    }
  }

  /** The rules left after the mentions of all the chains are gone. */
  function UnmentionedAll(listed: (Rule, Chain) -> bool, rules: seq<Rule>, cs: seq<Chain>): (r: seq<Rule>)
    decreases |cs|
  {
    if cs == [] then rules else UnmentionedAll(listed, Unmentioned(listed, rules, cs[0]), cs[1..])
  }

  /** The rules whose listing does not mention the chain. */
  function Unmentioned(listed: (Rule, Chain) -> bool, rules: seq<Rule>, c: Chain): (r: seq<Rule>) {
    if rules == [] then []
    else (if listed(rules[0], c) then [] else [rules[0]]) + Unmentioned(listed, rules[1..], c)
  }

  lemma {:induction false} NoneUnmentioned(listed: (Rule, Chain) -> bool, rules: seq<Rule>, c: Chain)
    requires rules == []
    ensures Unmentioned(listed, rules, c) == []
  {
  }

  lemma {:induction false} FirstUnmentioned(listed: (Rule, Chain) -> bool, rules: seq<Rule>, c: Chain)
    requires rules != []
    ensures Unmentioned(listed, rules, c) ==
            (if listed(rules[0], c) then [] else [rules[0]]) + Unmentioned(listed, rules[1..], c)
  {
  }

  lemma {:induction false} UnmentionedConcat(listed: (Rule, Chain) -> bool, a: seq<Rule>, b: seq<Rule>, c: Chain)
    ensures Unmentioned(listed, a + b, c) == Unmentioned(listed, a, c) + Unmentioned(listed, b, c)
  {
    hide Unmentioned;
    if a == [] {
      assert a + b == b;
      assert Unmentioned(listed, a, c) == [] by { NoneUnmentioned(listed, a, c); }
    } else {
      var h := if listed(a[0], c) then [] else [a[0]];
      FirstUnmentioned(listed, a, c);
      FirstUnmentioned(listed, a + b, c);
      assert (a + b)[0] == a[0] && (a + b)[1..] == a[1..] + b;
      UnmentionedConcat(listed, a[1..], b, c);
      assert h + (Unmentioned(listed, a[1..], c) + Unmentioned(listed, b, c))
          == (h + Unmentioned(listed, a[1..], c)) + Unmentioned(listed, b, c);
    }
  }

  lemma {:induction false} UnmentionedSkip(listed: (Rule, Chain) -> bool, rules: seq<Rule>, i: nat, c: Chain)
    requires i < |rules| && listed(rules[i], c)
    ensures Unmentioned(listed, RemoveAt(rules, i), c) == Unmentioned(listed, rules, c)
  {
    assert rules == rules[..i] + rules[i..];
    UnmentionedConcat(listed, rules[..i], rules[i..], c);
    UnmentionedConcat(listed, rules[..i], rules[i + 1..], c);
    assert rules[i..][0] == rules[i] && rules[i..][1..] == rules[i + 1..];
  }

  // ---------------------------------------------------------------- restoring the tables

  /** A head of rules that jump to chains sought in the hook. */
  predicate JumpsAway(id: ChainId, head: seq<Rule>) {
    forall i :: 0 <= i < |head| ==> head[i].target.Jump? && Sought(id, head[i].target.to)
  }

  /** `fw` is `prior` with any of the daemon's chains, whatever they hold, and with jumps to them at the
      head of the hooks. */
  ghost predicate Over(prior: Tables, fw: Tables) {
    && (forall id :: id in prior ==> id in fw && !IsOwn(id))
    && (forall id :: id in fw ==> id in prior || IsOwn(id))
    && (forall id :: id in prior && !IsHook(id) ==> fw[id] == prior[id])
    && (forall id :: id in prior && IsHook(id) ==> HookOver(id, prior[id], fw[id]))
  }

  /** `fw` is `prior` with any of the daemon's chains and any rules in the hooks. */
  ghost predicate Around(prior: Tables, fw: Tables) {
    && (forall id :: id in prior ==> id in fw && !IsOwn(id))
    && (forall id :: id in fw ==> id in prior || IsOwn(id))
    && (forall id :: id in prior && !IsHook(id) ==> fw[id] == prior[id])
  }

  /** What the destruction leaves in a hook. */
  function Left(listed: (Rule, Chain) -> bool, id: ChainId, rules: seq<Rule>): (r: seq<Rule>) {
    UnmentionedAll(listed, rules, SoughtIn(id))
  }

  /** What the destruction makes of `fw`. */
  function Destroyed(listed: (Rule, Chain) -> bool, prior: Tables, fw: Tables): (r: Tables) {
    map id | id in prior :: if IsHook(id) && id in fw then Left(listed, id, fw[id]) else prior[id]
  }

  /** No rule refers to a chain of the daemon. */
  ghost predicate Unreferring(fw: Tables) {
    forall id, r :: id in fw && r in fw[id] && r.target.Jump? ==> !IsOwn(ChainId(id.table, r.target.to))
  }

  /** The destruction of the mentions turns the hooks of `fw` into those of `after`. */
  ghost predicate Restorable(listed: (Rule, Chain) -> bool, after: Tables, fw: Tables) {
    Around(after, fw) && forall id :: id in after && IsHook(id) ==> Left(listed, id, fw[id]) == after[id]
  }

  predicate HookOver(id: ChainId, was: seq<Rule>, rules: seq<Rule>) {
    && |was| <= |rules|
    && rules == rules[..|rules| - |was|] + was
    && JumpsAway(id, rules[..|rules| - |was|])
  }

  /** A listing mentions the target of a jump; no rule of `prior` mentions a chain of the daemon. */
  ghost predicate Clean(listed: (Rule, Chain) -> bool, prior: Tables) {
    && (forall r: Rule, c :: r.target == Jump(c) ==> listed(r, c))
    && (forall id, r :: id in prior && r in prior[id] ==>
          (r.target.Jump? ==> !IsOwn(ChainId(id.table, r.target.to)))
          && forall c :: Sought(id, c) ==> !listed(r, c))
  }

  /** The hooks of a table, each with the chains sought in it. */
  ghost predicate HooksOf(table: Table, hooks: seq<(ChainId, seq<Chain>)>) {
    && (forall j :: 0 <= j < |hooks| ==> hooks[j].0.table == table && IsHook(hooks[j].0)
                                         && hooks[j].1 == SoughtIn(hooks[j].0))
    && (forall id :: IsHook(id) && id.table == table ==> exists j :: 0 <= j < |hooks| && hooks[j].0 == id)
  }

  /** Nothing of the daemon is left in the table. */
  ghost predicate Cleared(prior: Tables, fw: Tables, table: Table) {
    && (forall id :: id in fw && id.table == table ==> id in prior)
    && (forall id :: id in prior && id.table == table ==> id in fw && fw[id] == prior[id])
  }

  lemma {:induction false} UnmentionedKeeps(listed: (Rule, Chain) -> bool, rules: seq<Rule>, c: Chain)
    requires forall r :: r in rules ==> !listed(r, c)
    ensures Unmentioned(listed, rules, c) == rules
  {
    if rules != [] {
      UnmentionedKeeps(listed, rules[1..], c);
    }
  }

  lemma {:induction false} UnmentionedGone(listed: (Rule, Chain) -> bool, rules: seq<Rule>, c: Chain)
    ensures forall r :: r in Unmentioned(listed, rules, c) ==> r in rules && !listed(r, c)
  {
    if rules != [] {
      UnmentionedGone(listed, rules[1..], c);
    }
  }

  predicate Covered(listed: (Rule, Chain) -> bool, r: Rule, cs: seq<Chain>) {
    exists i :: 0 <= i < |cs| && listed(r, cs[i])
  }

  lemma {:induction false} UnmentionedAllGone(listed: (Rule, Chain) -> bool, head: seq<Rule>, was: seq<Rule>, cs: seq<Chain>)
    requires forall r, c :: r in was && c in cs ==> !listed(r, c)
    requires forall r :: r in head ==> Covered(listed, r, cs)
    ensures UnmentionedAll(listed, head + was, cs) == was
    decreases |cs|
  {
    hide Unmentioned, Covered;
    if cs == [] {
      NothingCovered(listed, head);
      assert head + was == was;
    } else {
      var c := cs[0];
      UnmentionedConcat(listed, head, was, c);
      UnmentionedKeeps(listed, was, c);
      var head' := Unmentioned(listed, head, c);
      assert forall r :: r in head' ==> Covered(listed, r, cs[1..]) by { CoveredByRest(listed, head, cs); }
      UnmentionedAllGone(listed, head', was, cs[1..]);
    }
  }

  lemma {:induction false} NothingCovered(listed: (Rule, Chain) -> bool, head: seq<Rule>)
    requires forall r :: r in head ==> Covered(listed, r, [])
    ensures head == []
  {
    assert |head| > 0 ==> Covered(listed, head[0], []);
  }

  lemma {:induction false} CoveredByRest(listed: (Rule, Chain) -> bool, head: seq<Rule>, cs: seq<Chain>)
    requires cs != [] && forall r :: r in head ==> Covered(listed, r, cs)
    ensures forall r :: r in Unmentioned(listed, head, cs[0]) ==> Covered(listed, r, cs[1..])
  {
    UnmentionedGone(listed, head, cs[0]);
    hide Unmentioned;
    forall r | r in Unmentioned(listed, head, cs[0]) ensures Covered(listed, r, cs[1..]) {
      var i :| 0 <= i < |cs| && listed(r, cs[i]);
      assert cs[1..][i - 1] == cs[i];
    }
  }

  lemma {:induction false} UnmentionedAllFree(listed: (Rule, Chain) -> bool, rules: seq<Rule>, cs: seq<Chain>)
    ensures forall r, c :: r in UnmentionedAll(listed, rules, cs) && c in cs ==> !listed(r, c)
    ensures forall r :: r in UnmentionedAll(listed, rules, cs) ==> r in rules
    decreases |cs|
  {
    if cs != [] {
      UnmentionedGone(listed, rules, cs[0]);
      UnmentionedAllFree(listed, Unmentioned(listed, rules, cs[0]), cs[1..]);
    }
  }

  /** The destruction does not go on for ever: what it leaves it leaves again. */
  lemma {:induction false} LeftAgain(listed: (Rule, Chain) -> bool, id: ChainId, rules: seq<Rule>)
    ensures Left(listed, id, Left(listed, id, rules)) == Left(listed, id, rules)
  {
    hide UnmentionedAll;
    var left := Left(listed, id, rules);
    UnmentionedAllFree(listed, rules, SoughtIn(id));
    UnmentionedAllGone(listed, [], left, SoughtIn(id));
    assert [] + left == left;
  }

  /** Destroying the mentions in one hook. */
  lemma {:induction false} HookRestored(listed: (Rule, Chain) -> bool, after: Tables, fw: Tables, id: ChainId)
    requires Restorable(listed, after, fw) && id in fw && IsHook(id)
    ensures id in after && Left(listed, id, fw[id]) == after[id]
    ensures Restorable(listed, after, fw[id := after[id]])
  {
    hide Left;
    LeftAgain(listed, id, fw[id]);
  }

  /** A hook with jumps at its head gets its old rules back. */
  lemma {:induction false} HeadGone(listed: (Rule, Chain) -> bool, prior: Tables, fw: Tables, id: ChainId)
    requires Over(prior, fw) && Clean(listed, prior) && id in prior && IsHook(id)
    ensures Left(listed, id, fw[id]) == prior[id]
  {
    var was, cs := prior[id], SoughtIn(id);
    var head := fw[id][..|fw[id]| - |was|];
    forall r | r in head ensures Covered(listed, r, cs) {
      var i :| 0 <= i < |cs| && cs[i] == r.target.to;
      assert listed(r, cs[i]);
    }
    UnmentionedAllGone(listed, head, was, cs);
  }

  /** From jumps at the head of the hooks the destruction restores the old tables. */
  lemma {:induction false} OverDestroyed(listed: (Rule, Chain) -> bool, prior: Tables, fw: Tables)
    requires Over(prior, fw) && Clean(listed, prior)
    ensures Around(prior, fw) && Destroyed(listed, prior, fw) == prior && Unreferring(prior)
  {
    hide HookOver, Left, IsOwn, IsHook, Sought;
    forall id | id in prior && IsHook(id) ensures Left(listed, id, fw[id]) == prior[id] {
      HeadGone(listed, prior, fw, id);
    }
  }

  lemma {:induction false} DestroyedRestorable(listed: (Rule, Chain) -> bool, prior: Tables, fw: Tables)
    requires Around(prior, fw)
    ensures Restorable(listed, Destroyed(listed, prior, fw), fw)
  {
    hide Left, IsOwn, IsHook;
  }

  lemma {:induction false} RestorableKeys(listed: (Rule, Chain) -> bool, after: Tables, fw: Tables)
    requires Restorable(listed, after, fw)
    ensures Around(after, fw)
    ensures forall id :: id in after ==> id in fw && !IsOwn(id)
    ensures forall id :: id in fw ==> id in after || IsOwn(id)
  {
    hide Left, IsOwn, IsHook;
  }

  lemma {:induction false} RestorableDrop(listed: (Rule, Chain) -> bool, after: Tables, f: Tables, fw: Tables, own: seq<ChainId>, table: Table)
    requires Restorable(listed, after, f) && fw.Keys == f.Keys - (set id | id in own)
    requires forall id :: id in fw ==> fw[id] == f[id]
    requires forall id :: id in own <==> IsOwn(id) && id.table == table
    ensures Restorable(listed, after, fw)
  {
    hide Left, IsOwn, IsHook;
  }

  lemma {:induction false} HookAt(table: Table, hooks: seq<(ChainId, seq<Chain>)>, j: nat)
    requires HooksOf(table, hooks) && j < |hooks|
    ensures hooks[j].0.table == table && IsHook(hooks[j].0) && hooks[j].1 == SoughtIn(hooks[j].0) && !IsOwn(hooks[j].0)
  {
  }

  /** Chains of the table that are not hooks were never touched. */
  lemma {:induction false} OtherChains(listed: (Rule, Chain) -> bool, after: Tables, fw: Tables, table: Table, hooks: seq<(ChainId, seq<Chain>)>)
    requires Restorable(listed, after, fw) && HooksOf(table, hooks)
    requires forall j :: 0 <= j < |hooks| && hooks[j].0 in after ==> hooks[j].0 in fw && fw[hooks[j].0] == after[hooks[j].0]
    ensures forall id :: id in after && id.table == table ==> id in fw && fw[id] == after[id]
  {
    hide Left, Sought;
  }

  /** With the hooks restored and the daemon's chains of the table empty, no rule refers to them. */
  lemma {:induction false} NoReference(after: Tables, fw: Tables, id: ChainId)
    requires Unreferring(after) && IsOwn(id)
    requires forall c :: c in fw && c.table == id.table ==> (c in after && fw[c] == after[c]) || fw[c] == []
    ensures !Referenced(fw, id)
  {
    forall c, r | c in fw && c.table == id.table && r in fw[c] ensures r.target != Jump(id.chain) {
      assert r in after[c];
    }
  }

  /** After the flush of the daemon's chains of a table no rule of the table refers to them. */
  lemma {:induction false} Flushed(own: seq<ChainId>, table: Table, after: Tables, f: Tables, fw: Tables)
    requires Around(after, f) && Unreferring(after)
    requires forall id :: id in after && id.table == table ==> id in f && f[id] == after[id]
    requires forall id :: id in own <==> IsOwn(id) && id.table == table
    requires fw.Keys == f.Keys && forall id :: id in fw ==> fw[id] == if id in own then [] else f[id]
    ensures forall id :: id in own ==> !BuiltIn(id.chain) && !Referenced(fw, id)
  {
    hide Unreferring, IsHook, Referenced;
    forall c | c in fw && c.table == table
      ensures (c in after && fw[c] == after[c]) || fw[c] == []
    {
      assert c in f;
    }
    hide Around;
    forall id | id in own
      ensures !Referenced(fw, id) && !BuiltIn(id.chain)
    {
      NoReference(after, fw, id);
    }
  }

  /** The hooks and the chains of each table. */
  lemma {:induction false} MangleHooks()
    ensures HooksOf(Mangle, [(PRE, [NdsTRU, NdsBLK, NdsALW, NdsOUT]), (POST, [NdsINC])])
  {
    var m := [(PRE, [NdsTRU, NdsBLK, NdsALW, NdsOUT]), (POST, [NdsINC])];
    assert m[0] == (PRE, [NdsTRU, NdsBLK, NdsALW, NdsOUT]) && m[1] == (POST, [NdsINC]);
  }

  lemma {:induction false} NatHooks()
    ensures HooksOf(Nat, [(NATPRE, [NdsOUT])])
  {
    var n := [(NATPRE, [NdsOUT])];
    assert n[0] == (NATPRE, [NdsOUT]);
  }

  lemma {:induction false} FilterHooks()
    ensures HooksOf(Filter, [(IN, [NdsRTR]), (FWD, [NdsNET])])
  {
    var f := [(IN, [NdsRTR]), (FWD, [NdsNET])];
    assert f[0] == (IN, [NdsRTR]) && f[1] == (FWD, [NdsNET]);
  }

  lemma {:induction false} OwnChains()
    ensures forall id :: id in [TRU, BLK, ALW, OUT, INC] <==> IsOwn(id) && id.table == Mangle
    ensures forall id :: id in [NATOUT] <==> IsOwn(id) && id.table == Nat
    ensures forall id :: id in [RTR, NET, AUT, FTRU, TRT] <==> IsOwn(id) && id.table == Filter
  {
  }

  lemma {:induction false} ClearedFrame(prior: Tables, f: Tables, fw: Tables, table: Table)
    requires Cleared(prior, f, table)
    requires forall id: ChainId :: id.table == table ==> (id in fw <==> id in f) && (id in fw ==> fw[id] == f[id])
    ensures Cleared(prior, fw, table)
  {
  }

  lemma {:induction false} AllCleared(prior: Tables, fw: Tables)
    requires Cleared(prior, fw, Mangle) && Cleared(prior, fw, Nat) && Cleared(prior, fw, Filter)
    ensures fw == prior
  {
    forall id ensures (id in fw <==> id in prior) && (id in prior ==> fw[id] == prior[id]) {
      assert id.table == Mangle || id.table == Nat || id.table == Filter;
    }
  }

  /** After initialisation the session can begin. */
  lemma {:induction false} DoneInitialises(cfg: Config, prior: Tables, trusted: seq<string>, blocked: seq<string>, allowed: seq<string>, fw: Tables)
    requires Done(cfg, prior, trusted, blocked, allowed, fw)
    requires NoDuplicates(trusted) && NoDuplicates(blocked) && NoDuplicates(allowed)
    ensures Initialised(cfg, fw, trusted, blocked, allowed)
  {
    hide NoDuplicates, InitialTru, InitialBlk, HookHead, NetChain, RtrChain, NatChain, ClassChain;
    assert IsOwn(OUT) && IsOwn(INC) && IsOwn(TRU) && IsOwn(BLK);
  }

  lemma {:induction false} DoneOver(cfg: Config, prior: Tables, trusted: seq<string>, blocked: seq<string>, allowed: seq<string>, fw: Tables)
    requires Prepared(prior) && Done(cfg, prior, trusted, blocked, allowed, fw)
    ensures Over(prior, fw)
  {
    hide OwnContents, HookHead, HookOver, IsHook, IsOwn;
    forall id | id in prior ensures !IsHook(id) ==> fw[id] == prior[id]
                            ensures IsHook(id) ==> HookOver(id, prior[id], fw[id]) {
      HeadOver(cfg, id, prior[id]);
    }
  }

  lemma {:induction false} HeadOver(cfg: Config, id: ChainId, rules: seq<Rule>)
    ensures !IsHook(id) ==> HookHead(cfg, id) + rules == rules
    ensures IsHook(id) ==> HookOver(id, rules, HookHead(cfg, id) + rules)
  {
    var head := HookHead(cfg, id);
    assert (head + rules)[..|head|] == head;
    assert [] + rules == rules;
  }

  /** A run only touches chains of the daemon. */
  lemma {:induction false} RunOver(cfg: Config, prior: Tables, fw0: Tables, s: State)
    requires Over(prior, fw0) && Inv(cfg, fw0, s)
    ensures Over(prior, s.fw)
  {
    hide HookOver, ClientsMirrored, MacsMirrored, DistinctPairs, ClientsSane, IsHook;
    assert IsOwn(OUT) && IsOwn(INC) && IsOwn(TRU) && IsOwn(BLK);
    hide IsOwn;
  }

  /** In every state of every run the filter chains are in place: ndsNET and ndsRTR give the access
      policies, and mangle PREROUTING begins with the three marking chains. */
  lemma {:induction false} ChainsStay(cfg: Config, prior: Tables, trusted: seq<string>, blocked: seq<string>, allowed: seq<string>,
                   fw0: Tables, s: State)
    requires Prepared(prior) && Done(cfg, prior, trusted, blocked, allowed, fw0) && Inv(cfg, fw0, s)
    ensures HasClassChains(cfg, s.fw) && NET in s.fw && RTR in s.fw && PRE in s.fw
    ensures s.fw[NET] == NetChain(cfg) && s.fw[RTR] == RtrChain(cfg) && HookRules(cfg) <= s.fw[PRE]
  {
    hide ClientsMirrored, MacsMirrored, DistinctPairs, ClientsSane, NetChain, RtrChain, NatChain, ClassChain, HookRules;
    assert IsOwn(NET) && IsOwn(RTR) && IsOwn(AUT) && IsOwn(FTRU) && IsOwn(TRT);
    assert fw0[PRE] == HookRules(cfg) + prior[PRE];
  }

  /** The class that the record and the lists give a packet. */
  function ClassFrom(cfg: Config, s: State, p: Packet): (c: Class) {
    if IsTrusted(s, p) then Trusted
    else if IsBlocked(cfg, s, p) then Blocked
    else if IsAuthenticated(cfg, s, p) then Authenticated
    else Preauthenticated
  }

  /** No two of the three marking chains apply. */
  predicate AtMostOne(cfg: Config, s: State, p: Packet) {
    var (a, b, t) := (IsAuthenticated(cfg, s, p), IsBlocked(cfg, s, p), IsTrusted(s, p));
    !(a && b) && !(a && t) && !(b && t)
  }

  lemma {:induction false} MaskKeeps(cfg: Config, m: Mark)
    requires m == 0 || m == cfg.authMark || m == cfg.blockedMark || m == cfg.trustedMark
    ensures And(m, MarkMask(cfg)) == m
  {
  }

  lemma {:induction false} OrNothing(m: Mark)
    ensures Or(0, m) == m
  {
  }

  lemma {:induction false} MarkIsClass(cfg: Config, s: State, p: Packet)
    requires ValidMarks(cfg) && p.mark == 0 && (!cfg.orMark || AtMostOne(cfg, s, p))
    ensures ClassOf(cfg, p.(mark := FinalMark(cfg, s, p))) == ClassFrom(cfg, s, p)
  {
    hide IsAuthenticated, IsBlocked, IsTrusted, ClassOf, FinalMark, ValidMarks;
    MarkValue(cfg, s, p);
    ClassOfMark(cfg, p.(mark := FinalMark(cfg, s, p)));
  }

  lemma {:induction false} MarkValue(cfg: Config, s: State, p: Packet)
    requires p.mark == 0 && (!cfg.orMark || AtMostOne(cfg, s, p))
    ensures FinalMark(cfg, s, p) ==
            match ClassFrom(cfg, s, p)
            case Trusted => cfg.trustedMark
            case Blocked => cfg.blockedMark
            case Authenticated => cfg.authMark
            case Preauthenticated => 0
  {
    hide IsAuthenticated, IsBlocked, IsTrusted, Or;
    OrNothing(cfg.authMark);
    OrNothing(cfg.blockedMark);
    OrNothing(cfg.trustedMark);
  }

  lemma {:induction false} ClassOfMark(cfg: Config, q: Packet)
    requires ValidMarks(cfg)
    ensures q.mark == cfg.trustedMark ==> ClassOf(cfg, q) == Trusted
    ensures q.mark == cfg.blockedMark ==> ClassOf(cfg, q) == Blocked
    ensures q.mark == cfg.authMark ==> ClassOf(cfg, q) == Authenticated
    ensures q.mark == 0 ==> ClassOf(cfg, q) == Preauthenticated
  {
    hide And, MarkMask;
    if q.mark == 0 || q.mark == cfg.authMark || q.mark == cfg.blockedMark || q.mark == cfg.trustedMark {
      MaskKeeps(cfg, q.mark);
    }
  }

  /** From any tables, after the set-up and any run, for every packet from the client network: the
      marking chains give it the mark that the records and the MAC lists call for, and with that mark
      the filter chains decide as the configured policies do. For an unmarked packet, with --set-mark
      or when at most one chain applies, that is the policy for the class of clients that the record
      and the MAC lists give. */
  lemma {:induction false} AccessInEveryRun(cfg: Config, prior: Tables, trusted: seq<string>, blocked: seq<string>, allowed: seq<string>,
                         fw0: Tables, steps: seq<Step>, p: Packet, depth: nat)
    requires Prepared(prior) && Done(cfg, prior, trusted, blocked, allowed, fw0) && ValidMarks(cfg)
    requires NoDuplicates(trusted) && NoDuplicates(blocked) && NoDuplicates(allowed)
    requires FromClientNetwork(cfg, p) && depth > 0
    ensures var s := Run(cfg, Initial(fw0, trusted, blocked, allowed), steps);
            var q := p.(mark := FinalMark(cfg, s, p));
            && PRE in s.fw && NET in s.fw && RTR in s.fw && HookRules(cfg) <= s.fw[PRE]
            && Eval(s.fw, Mangle, HookRules(cfg), p, depth) == Through(q.mark)
            && Eval(s.fw, Filter, s.fw[NET], q, depth) == NetPolicy(cfg, q)
            && Eval(s.fw, Filter, s.fw[RTR], q, depth) == RtrPolicy(cfg, q)
            && (p.mark == 0 && (!cfg.orMark || AtMostOne(cfg, s, p)) ==>
                 && Eval(s.fw, Filter, s.fw[NET], q, depth) == NetAccess(cfg, ClassFrom(cfg, s, p), q)
                 && Eval(s.fw, Filter, s.fw[RTR], q, depth) == RtrAccess(cfg, ClassFrom(cfg, s, p), q))
  {
    hide Prepared, Done, Inv, Initialised, Run, Eval, HasClassChains, FromClientNetwork, HookRules, FinalMark, ValidMarks,
         AtMostOne, ClassFrom, ClassOf, NetAccess, RtrAccess;
    DoneInitialises(cfg, prior, trusted, blocked, allowed, fw0);
    EveryRunAgrees(cfg, fw0, trusted, blocked, allowed, steps);
    var s := Run(cfg, Initial(fw0, trusted, blocked, allowed), steps);
    ChainsStay(cfg, prior, trusted, blocked, allowed, fw0, s);
    PacketMark(cfg, fw0, s, p, depth);
    var q := p.(mark := FinalMark(cfg, s, p));
    NetCompiles(cfg, s.fw, q, depth);
    RtrCompiles(cfg, s.fw, q, depth);
    if p.mark == 0 && (!cfg.orMark || AtMostOne(cfg, s, p)) { MarkIsClass(cfg, s, p); }
  }

  /** Destroying and initialising again comes to emptying the access chains and filling the MAC chains
      from the current lists. */
  lemma {:induction false} Reinitialised(cfg: Config, prior: Tables, trusted: seq<string>, blocked: seq<string>, allowed: seq<string>,
                      fw0: Tables, s: State, fw: Tables)
    requires Prepared(prior) && Done(cfg, prior, trusted, blocked, allowed, fw0) && Inv(cfg, fw0, s)
    requires Done(cfg, prior, s.trusted, s.blocked, s.allowed, fw)
    ensures Reset(cfg, s).fw == fw
  {
    hide ClientsMirrored, MacsMirrored, DistinctPairs, ClientsSane, InitialTru, InitialBlk, NetChain, RtrChain, NatChain, ClassChain, HookHead;
    var r := Reset(cfg, s).fw;
    assert IsOwn(OUT) && IsOwn(INC) && IsOwn(TRU) && IsOwn(BLK);
    forall id ensures (id in r <==> id in fw) && (id in fw ==> r[id] == fw[id]) {
    }
  }

  lemma {:induction false} NeverJumps(cfg: Config, l: MacList, macs: seq<string>)
    ensures forall i :: 0 <= i < |MacRules(cfg, l, macs)| ==> !MacRules(cfg, l, macs)[i].target.Jump?
  {
    if macs != [] {
      NeverJumps(cfg, l, macs[1..]);
      NotJump(cfg, l, macs[0]);
    }
  }

  predicate FilterReady(fw: Tables) {
    && NET in fw && RTR in fw && AUT in fw && FTRU in fw && TRT in fw
    && fw[NET] == [] && fw[RTR] == [] && fw[AUT] == [] && fw[FTRU] == [] && fw[TRT] == []
  }

  lemma {:induction false} PostTarget(cfg: Config, fw: Tables)
    requires INC in fw
    ensures TargetExists(fw, POST, PostRule(cfg))
  {
  }

  /** The filter chains only jump to chains that exist. */
  lemma {:induction false} ChainTargets(cfg: Config, fw: Tables)
    requires NET in fw && RTR in fw && AUT in fw && FTRU in fw && TRT in fw
    ensures TargetExists(fw, IN, HookRule(cfg, NdsRTR)) && TargetExists(fw, FWD, HookRule(cfg, NdsNET))
    ensures forall i :: 0 <= i < |NetChain(cfg)| ==> TargetExists(fw, NET, NetChain(cfg)[i])
    ensures forall i :: 0 <= i < |RtrChain(cfg)| ==> TargetExists(fw, RTR, RtrChain(cfg)[i])
    ensures forall rs: RuleSet, id, i :: 0 <= i < |ClassChain(rs)| ==> TargetExists(fw, id, ClassChain(rs)[i])
  {
    hide CompileAll, MarkMask;
  }

  // ---------------------------------------------------------------- the three tables

  function MangleTables(cfg: Config, fw: Tables, trusted: seq<string>, blocked: seq<string>, allowed: seq<string>): (r: Tables)
    requires PRE in fw && POST in fw
  {
    fw[ALW := []][INC := []][OUT := []]
      [TRU := InitialTru(cfg, trusted)][BLK := InitialBlk(cfg, blocked, allowed)]
      [PRE := HookRules(cfg) + fw[PRE]][POST := [PostRule(cfg)] + fw[POST]]
  }

  /** The order in which the set-up gets there. */
  lemma {:induction false} MangleEqual(cfg: Config, fw: Tables, trusted: seq<string>, blocked: seq<string>, allowed: seq<string>)
    requires PRE in fw && POST in fw
    ensures MangleTables(cfg, fw, trusted, blocked, allowed) ==
            fw[TRU := []][BLK := []][ALW := []][INC := []][OUT := []]
              [PRE := HookRules(cfg) + fw[PRE]][POST := [PostRule(cfg)] + fw[POST]]
              [TRU := InitialTru(cfg, trusted)][BLK := InitialBlk(cfg, blocked, allowed)]
  {
    hide HookRules, InitialTru, InitialBlk, PostRule;
  }

  lemma {:induction false} TablesReady(cfg: Config, fw: Tables, trusted: seq<string>, blocked: seq<string>, allowed: seq<string>)
    requires Prepared(fw)
    ensures PRE in fw && POST in fw && TRU !in fw && BLK !in fw && ALW !in fw && INC !in fw && OUT !in fw
    ensures var f := MangleTables(cfg, fw, trusted, blocked, allowed);
            NATPRE in f && NATOUT !in f
            && var g := NatTables(cfg, f);
               IN in g && FWD in g && NET !in g && RTR !in g && AUT !in g && FTRU !in g && TRT !in g
  {
    hide HookRules, HookRule, InitialTru, InitialBlk, PostRule, NatChain;
  }

  function NatTables(cfg: Config, fw: Tables): (r: Tables)
    requires NATPRE in fw
  {
    fw[NATOUT := NatChain(cfg)][NATPRE := [HookRule(cfg, NdsOUT)] + fw[NATPRE]]
  }

  function FilterTables(cfg: Config, fw: Tables): (r: Tables)
    requires IN in fw && FWD in fw
  {
    fw[NET := NetChain(cfg)][RTR := RtrChain(cfg)]
      [AUT := ClassChain(cfg.authenticatedUsers)][FTRU := ClassChain(cfg.trustedUsers)]
      [TRT := ClassChain(cfg.trustedUsersToRouter)]
      [IN := [HookRule(cfg, NdsRTR)] + fw[IN]][FWD := [HookRule(cfg, NdsNET)] + fw[FWD]]
  }

  /** What one chain is after the three tables have been set up. */
  lemma {:induction false} ChainDone(cfg: Config, prior: Tables, trusted: seq<string>, blocked: seq<string>, allowed: seq<string>, id: ChainId)
    requires Prepared(prior)
    ensures var fw := FilterTables(cfg, NatTables(cfg, MangleTables(cfg, prior, trusted, blocked, allowed)));
            (id in fw <==> id in prior || IsOwn(id))
            && (id in prior ==> fw[id] == HookHead(cfg, id) + prior[id])
            && (IsOwn(id) ==> fw[id] == OwnContents(cfg, trusted, blocked, allowed, id))
  {
    hide HookRule, PostRule, HookRules, InitialTru, InitialBlk, NatChain, NetChain, RtrChain, ClassChain;
    var m := MangleTables(cfg, prior, trusted, blocked, allowed);
    var n := NatTables(cfg, m);
    var f := FilterTables(cfg, n);
    assert id in prior ==> [] + prior[id] == prior[id];
    assert id.table != Mangle ==> (id in m <==> id in prior) && (id in prior ==> m[id] == prior[id]);
    assert id.table != Nat ==> (id in n <==> id in m) && (id in m ==> n[id] == m[id]);
    assert id.table != Filter ==> (id in f <==> id in n) && (id in n ==> f[id] == n[id]);
  }

  lemma {:induction false} AllDone(cfg: Config, prior: Tables, trusted: seq<string>, blocked: seq<string>, allowed: seq<string>)
    requires Prepared(prior)
    ensures Done(cfg, prior, trusted, blocked, allowed,
                 FilterTables(cfg, NatTables(cfg, MangleTables(cfg, prior, trusted, blocked, allowed))))
  {
    hide HookHead, OwnContents, IsOwn;
    var fw := FilterTables(cfg, NatTables(cfg, MangleTables(cfg, prior, trusted, blocked, allowed)));
    hide FilterTables, NatTables, MangleTables;
    forall id
      ensures id in fw <==> id in prior || IsOwn(id)
      ensures id in prior ==> fw[id] == HookHead(cfg, id) + prior[id]
      ensures IsOwn(id) ==> id in fw && fw[id] == OwnContents(cfg, trusted, blocked, allowed, id)
    {
      ChainDone(cfg, prior, trusted, blocked, allowed, id);
    }
  }

  lemma {:induction false} NoRules(cfg: Config, l: MacList)
    ensures MacRules(cfg, l, []) == [] && Reversed([]) == []
  {
  }

  lemma {:induction false} OneMore(cfg: Config, l: MacList, macs: seq<string>, mac: string)
    ensures MacRules(cfg, l, macs + [mac]) == MacRules(cfg, l, macs) + [MacRule(cfg, l, mac)]
    ensures Reversed(MacRules(cfg, l, macs + [mac])) == [MacRule(cfg, l, mac)] + Reversed(MacRules(cfg, l, macs))
  {
    hide MacRule;
    RulesSnoc(cfg, l, macs, mac);
    ReversedSnoc(MacRules(cfg, l, macs), MacRule(cfg, l, mac));
  }

  lemma {:induction false} RulesSnoc(cfg: Config, l: MacList, macs: seq<string>, mac: string)
    ensures MacRules(cfg, l, macs + [mac]) == MacRules(cfg, l, macs) + [MacRule(cfg, l, mac)]
  {
    hide MacRule;
    if macs == [] {
      assert macs + [mac] == [mac] && [mac][1..] == [];
    } else {
      assert (macs + [mac])[1..] == macs[1..] + [mac];
      RulesSnoc(cfg, l, macs[1..], mac);
    }
  }

  lemma {:induction false} ReversedSnoc(rs: seq<Rule>, r: Rule)
    ensures Reversed(rs + [r]) == [r] + Reversed(rs)
  {
    if rs == [] {
      assert rs + [r] == [r] && [r][1..] == [];
    } else {
      assert (rs + [r])[1..] == rs[1..] + [r];
      ReversedSnoc(rs[1..], r);
    }
  }
}
