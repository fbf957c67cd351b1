/** The part of the configuration that the session and firewall code reads. */
module Configuration {
  import opened Iptables

  datatype Option<+T> = None | Some(value: T)

  /** MACMechanism block or allow. */
  datatype Mechanism = MacBlock | MacAllow

  /** The target of a rule in a FirewallRuleSet: block, drop, allow, log or ulog. */
  datatype UserTarget = TargetReject | TargetDrop | TargetAccept | TargetLog | TargetUlog

  datatype UserRule = UserRule(
    target: UserTarget, protocol: Option<string>, port: Option<string>,
    mask: Option<string>, ipset: Option<string>)

  /** EmptyRuleSetPolicy: allow, block or passthrough. */
  datatype Policy = PolicyAccept | PolicyReject | PolicyReturn

  datatype RuleSet = RuleSet(rules: seq<UserRule>, empty: Policy)

  datatype Config = Config(
    authMark: Mark, blockedMark: Mark, trustedMark: Mark,
    orMark: bool,                 // the kernel supports --or-mark
    masking: bool,                // the kernel supports a mask on --mark
    mechanism: Mechanism,
    maxClients: int,
    sessionTimeoutBlock: int, sessionLimitBlock: int,
    preauthIdleTimeout: int, authIdleTimeout: int,
    iface: string, ipRange: string, port: string, address: string,
    setMss: bool, mssValue: int,
    trustedUsers: RuleSet, trustedUsersToRouter: RuleSet, usersToRouter: RuleSet,
    authenticatedUsers: RuleSet, preauthenticatedUsers: RuleSet,
    validMac: string -> bool,     // check_mac_format, decided by the C library
    validIp: string -> bool)      // check_ip_format

  /** FW_MARK_PREAUTHENTICATED. */
  const PREAUTHENTICATED: Mark := 0

  /** What `_iptables_init_marks` demands of the three configured marks. */
  predicate ValidMarks(cfg: Config) {
    && cfg.blockedMark != cfg.trustedMark
    && cfg.trustedMark != cfg.authMark
    && cfg.authMark != cfg.blockedMark
    && cfg.blockedMark != 0 && cfg.trustedMark != 0 && cfg.authMark != 0
  }

  /** FW_MARK_MASK, or all bits when the kernel cannot mask. */
  function MarkMask(cfg: Config): (m: Mark) {
    if cfg.masking then Or(Or(cfg.blockedMark, cfg.trustedMark), cfg.authMark) else 0xFFFF_FFFF
  }

  /** `-j MARK` with the mark operation the kernel supports. */
  function MarkTarget(cfg: Config, m: Mark): (t: Target) {
    if cfg.orMark then OrMark(m) else SetMark(m)
  }

  function LowerChar(c: char): (r: char) {
    if 'A' <= c <= 'Z' then c + 32 as char else c
  }

  /** A MAC address with letters in lower case: equal for two texts exactly when strcasecmp finds
      them equal, and the form in which a rule holds the address. */
  function Fold(s: string): (r: string)
    ensures |r| == |s|
  {
    seq(|s|, i requires 0 <= i < |s| => LowerChar(s[i]))
  }

  predicate SameMac(a: string, b: string) {
    Fold(a) == Fold(b)
  }
}
