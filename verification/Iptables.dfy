/** The kernel's packet filter as nodogsplash drives it: tables of chains, each chain a sequence of
    rules, the iptables commands the daemon issues, and the evaluation of a packet. */
module Iptables {

  type Mark = bv32

  function Or(a: Mark, b: Mark): (r: Mark) { a | b }
  function And(a: Mark, b: Mark): (r: Mark) { a & b }

  datatype Table = Mangle | Nat | Filter

  /** The built-in chains the daemon hooks into, its own chains (src/fw_iptables.h:34-43), and all
      the others. */
  datatype Chain =
    | PREROUTING | POSTROUTING | INPUT | FORWARD
    | NdsNET | NdsRTR | NdsTRT | NdsOUT | NdsINC | NdsAUT | NdsBLK | NdsALW | NdsTRU
    | Other(name: string)

  datatype ChainId = ChainId(table: Table, chain: Chain)

  datatype Match =
    | InIface(iface: string)
    | OutIface(iface: string)
    | SrcNet(net: string)
    | DstNet(net: string)
    | SrcIp(ip: string)
    | DstIp(ip: string)
    | SrcMac(mac: string)
    | MarkIs(value: Mark, mask: Mark)
    | Protocol(proto: string)
    | DestPort(port: string)
    | InSet(ipset: string)
    | CtInvalid
    | CtEstablished
    | SynWithoutMss
    | SynOnly

  datatype Target =
    | SetMark(mark: Mark)
    | OrMark(mark: Mark)
    | Accept
    | Drop
    | Reject
    | Return
    | Jump(to: Chain)
    | Log
    | Ulog
    | TcpMss(value: int)
    | Dnat(address: string)

  datatype Rule = Rule(matches: seq<Match>, target: Target)

  type Tables = map<ChainId, seq<Rule>>

  // ---------------------------------------------------------------- commands

  datatype Command =
    | NewChain(id: ChainId)                               // -N
    | Append(id: ChainId, rule: Rule)                     // -A
    | Insert(id: ChainId, pos: nat, rule: Rule)           // -I, position counted from 1
    | Delete(id: ChainId, rule: Rule)                     // -D with a rule: the first match goes
    | DeleteAt(id: ChainId, pos: nat)                     // -D with a number, counted from 1
    | Flush(id: ChainId)                                  // -F
    | Remove(id: ChainId)                                 // -X

  /** Index of the first `x` in `s`, or |s|. */
  function IndexOf<T(==)>(s: seq<T>, x: T): (i: nat)
    ensures i <= |s| && (i < |s| ==> s[i] == x) && (i < |s| <==> x in s)
    ensures x !in s[..i]
  {
    if s == [] || s[0] == x then 0
    else
      assert s == [s[0]] + s[1..];
      1 + IndexOf(s[1..], x)
  }

  function RemoveAt<T>(s: seq<T>, i: nat): (r: seq<T>)
    requires i < |s|
    ensures |r| == |s| - 1
  {
    s[..i] + s[i + 1..]
  }

  lemma {:induction false} RemoveAtBag<T>(s: seq<T>, i: nat)
    requires i < |s|
    ensures multiset(RemoveAt(s, i)) == multiset(s) - multiset{s[i]}
  {
    assert s == s[..i] + [s[i]] + s[i + 1..];
  }

  /** A rule may only jump to a chain of its own table. */
  predicate TargetExists(fw: Tables, id: ChainId, r: Rule) {
    r.target.Jump? ==> ChainId(id.table, r.target.to) in fw
  }

  /** Some chain of the table jumps to `id`. */
  predicate Referenced(fw: Tables, id: ChainId) {
    exists c | c in fw.Keys :: c.table == id.table && exists r | r in fw[c] :: r.target == Jump(id.chain)
  }

  predicate BuiltIn(c: Chain) {
    c.PREROUTING? || c.POSTROUTING? || c.INPUT? || c.FORWARD?
  }

  /** Whether the kernel accepts the command. */
  predicate Accepted(fw: Tables, c: Command) {
    match c
    case NewChain(id) => id !in fw && !BuiltIn(id.chain)
    case Append(id, r) => id in fw && TargetExists(fw, id, r)
    case Insert(id, pos, r) => id in fw && 1 <= pos <= |fw[id]| + 1 && TargetExists(fw, id, r)
    case Delete(id, r) => id in fw && r in fw[id]
    case DeleteAt(id, pos) => id in fw && 1 <= pos <= |fw[id]|
    case Flush(id) => id in fw
    case Remove(id) => id in fw && !BuiltIn(id.chain) && fw[id] == [] && !Referenced(fw, id)
  }

  /** The tables after the command; a command that is not accepted changes nothing. */
  function Exec(fw: Tables, c: Command): (fw': Tables)
    ensures !Accepted(fw, c) ==> fw' == fw
  {
    if !Accepted(fw, c) then fw
    else match c
      case NewChain(id) => fw[id := []]
      case Append(id, r) => fw[id := fw[id] + [r]]
      case Insert(id, pos, r) => fw[id := fw[id][..pos - 1] + [r] + fw[id][pos - 1..]]
      case Delete(id, r) => fw[id := RemoveAt(fw[id], IndexOf(fw[id], r))]
      case DeleteAt(id, pos) => fw[id := RemoveAt(fw[id], pos - 1)]
      case Flush(id) => fw[id := []]
      case Remove(id) => fw - {id}
  }

  // ---------------------------------------------------------------- evaluation

  /** A packet as the rules see it. Addresses, MAC and mark are compared here; `env` answers the
      matches that depend on anything else. */
  datatype Packet = Packet(mark: Mark, src: string, dst: string, mac: string, env: Match -> bool)

  predicate Holds(m: Match, p: Packet) {
    match m
    case MarkIs(v, k) => And(p.mark, k) == v
    case SrcIp(ip) => p.src == ip
    case DstIp(ip) => p.dst == ip
    case SrcMac(mac) => p.mac == mac
    case _ => p.env(m)
  }

  predicate Matches(r: Rule, p: Packet) {
    forall i :: 0 <= i < |r.matches| ==> Holds(r.matches[i], p)
  }

  /** Off the end of the chain, back to the caller by RETURN, or decided. */
  datatype Verdict =
    | Through(mark: Mark)
    | Returned(mark: Mark)
    | Decided(target: Target, mark: Mark)

  /** What one rule does: the packet goes on to the next rule, or the chain is done with it. */
  datatype Effect = Next(mark: Mark) | Stop(v: Verdict)

  /** One rule; `depth` bounds the nesting of jumps, which the kernel keeps finite by refusing loops. */
  function Apply(fw: Tables, table: Table, r: Rule, p: Packet, depth: nat): (e: Effect)
    ensures e.Stop? ==> !e.v.Through?
    decreases depth, 0
  {
    if !Matches(r, p) then Next(p.mark)
    else match r.target
      case SetMark(m) => Next(m)
      case OrMark(m) => Next(Or(p.mark, m))
      case Return => Stop(Returned(p.mark))
      case Jump(c) =>
        if depth == 0 || ChainId(table, c) !in fw then Next(p.mark)
        else
          var v := Eval(fw, table, fw[ChainId(table, c)], p, depth - 1);
          if v.Decided? then Stop(v) else Next(v.mark)
      case Accept => Stop(Decided(Accept, p.mark))
      case Drop => Stop(Decided(Drop, p.mark))
      case Reject => Stop(Decided(Reject, p.mark))
      case Dnat(a) => Stop(Decided(Dnat(a), p.mark))
      case Log => Next(p.mark)
      case Ulog => Next(p.mark)
      case TcpMss(_) => Next(p.mark)
  }

  /** The rules of one chain, in order. */
  function Eval(fw: Tables, table: Table, rules: seq<Rule>, p: Packet, depth: nat): (v: Verdict)
    decreases depth, 1 + |rules|
  {
    if rules == [] then Through(p.mark)
    else
      match Apply(fw, table, rules[0], p, depth)
      case Next(m) => Eval(fw, table, rules[1..], p.(mark := m), depth)
      case Stop(v) => v
  }

  /** Two chains one after the other. */
  lemma {:induction false} EvalConcat(fw: Tables, table: Table, a: seq<Rule>, b: seq<Rule>, p: Packet, depth: nat)
    ensures Eval(fw, table, a + b, p, depth) ==
            match Eval(fw, table, a, p, depth)
            case Through(m) => Eval(fw, table, b, p.(mark := m), depth)
            case v => v
    decreases |a|
  {
    hide Apply;
    if a == [] {
      assert a + b == b;
    } else {
      assert (a + b)[0] == a[0] && (a + b)[1..] == a[1..] + b;
      var e := Apply(fw, table, a[0], p, depth);
      if e.Next? {
        EvalConcat(fw, table, a[1..], b, p.(mark := e.mark), depth);
      }
    }
  }
}
