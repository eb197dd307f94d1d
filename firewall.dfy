/** The database firewall (internal/firewall/manager.go): an nftables chain to which rules are
    appended that drop a port or accept one source address on it, and from which every rule
    comparing against an address is deleted. Off Linux the manager does nothing. */
module Firewall {
  import opened Wrappers
  import opened Uuids
  import opened Seqs

  const IpProtoTcp: byte := 6

  datatype CmpOp = Eq | Neq
  datatype PayloadBase = NetworkHeader | TransportHeader
  datatype VerdictKind = Accept | Drop

  /** The expressions the manager puts in a rule. */
  datatype Expr =
    | MetaL4Proto
    | Cmp(op: CmpOp, data: seq<byte>)
    | Payload(base: PayloadBase, offset: int, len: int)
    | Verdict(kind: VerdictKind)

  datatype Rule = Rule(exprs: seq<Expr>)

  /** An address as `net.ParseIP` returns it: 4 bytes, or 16 bytes for IPv6 and for IPv4 in
      IPv4-mapped form. */
  datatype IP = IP(addr: seq<byte>)

  /** `net.ParseIP`, left abstract. */
  type IPParser = string -> Option<IP>

  const V4InV6Prefix: seq<byte> := [0, 0, 0, 0, 0, 0, 0, 0, 0, 0, 0xff, 0xff]

  /** `IP.To4`: the four IPv4 bytes, or nil (the empty sequence) for a real IPv6 address. */
  function To4(ip: IP): (a: seq<byte>)
    ensures |a| == 4 || a == []
  {
    if |ip.addr| == 4 then ip.addr
    else if |ip.addr| == 16 && ip.addr[..12] == V4InV6Prefix then ip.addr[12..]
    else []
  }

  /** `binary.BigEndian.PutUint16(b, uint16(port))`. */
  function PortBytes(port: nat): (b: seq<byte>)
    ensures |b| == 2
    ensures b[0] as int * 256 + b[1] as int == port % 65536
  {
    var low16 := port % 65536;
    [(low16 / 256) as byte, (low16 % 256) as byte]
  }

  /** Ports equal modulo 2^16 are encoded alike; distinct 16-bit ports are encoded apart. */
  lemma PortBytesInjective(p: nat, q: nat)
    requires PortBytes(p) == PortBytes(q)
    ensures p % 65536 == q % 65536
  {
  }

  lemma PortBytesOf8080()
    ensures PortBytes(8080) == [0x1f, 0x90]
  {
  }

  /** The prefix shared by both rule kinds: TCP, and destination port equal to `port`. */
  function TcpPortMatch(port: nat): seq<Expr>
  {
    [MetaL4Proto, Cmp(Eq, [IpProtoTcp]), Payload(TransportHeader, 2, 2), Cmp(Eq, PortBytes(port))]
  }

  /** The rule `BlockPortAccess` appends. */
  function DropRule(port: nat): Rule
  {
    Rule(TcpPortMatch(port) + [Verdict(Drop)])
  }

  /** The rule `WhitelistIP` appends: source address (offset 12 of the IPv4 header) equal to `a`. */
  function AcceptRule(port: nat, a: seq<byte>): Rule
  {
    Rule(TcpPortMatch(port) + [Payload(NetworkHeader, 12, 4), Cmp(Eq, a), Verdict(Accept)])
  }

  /** The test `BlacklistIP` applies to each expression of a rule. */
  predicate ComparesAddress(e: Expr, a: seq<byte>)
  {
    e.Cmp? && |e.data| == 4 && e.op == Eq && e.data == a
  }

  predicate Mentions(r: Rule, a: seq<byte>)
  {
    exists i :: 0 <= i < |r.exprs| && ComparesAddress(r.exprs[i], a)
  }

  /** The filter `BlacklistIP` applies: keep the rules that do not mention `a`. */
  function Unmentioning(a: seq<byte>): Rule -> bool
  {
    rule => !Mentions(rule, a)
  }

  /** The chain after `BlacklistIP` for address `a`: every rule mentioning it is gone. */
  function Remaining(rules: seq<Rule>, a: seq<byte>): (r: seq<Rule>)
    ensures forall i :: 0 <= i < |r| ==> !Mentions(r[i], a)
    ensures IsSublist(r, rules)
  {
    FilterIsSublist(rules, Unmentioning(a));
    Filter(rules, Unmentioning(a))
  }

  /** A rule survives blacklisting exactly when it does not mention the address. */
  lemma RemainingMembers(rules: seq<Rule>, a: seq<byte>, rule: Rule)
    ensures rule in Remaining(rules, a) <==> rule in rules && !Mentions(rule, a)
  {
    FilterMembers(rules, Unmentioning(a), rule);
  }

  /** A drop rule compares nothing four bytes long, so it is never blacklisted. */
  lemma DropRuleNeverMentions(port: nat, a: seq<byte>)
    ensures !Mentions(DropRule(port), a)
  {
    var es := DropRule(port).exprs;
    forall i | 0 <= i < |es|
      ensures !ComparesAddress(es[i], a)
    {
      assert es == [MetaL4Proto, Cmp(Eq, [IpProtoTcp]), Payload(TransportHeader, 2, 2), Cmp(Eq, PortBytes(port)), Verdict(Drop)];
    }
  }

  /** The accept rule for an IPv4 address mentions that address. */
  lemma AcceptRuleMentions(port: nat, a: seq<byte>)
    requires |a| == 4
    ensures Mentions(AcceptRule(port, a), a)
  {
    assert AcceptRule(port, a).exprs[5] == Cmp(Eq, a);
  }

  /** The package test's scenario: block a port, accept an IPv4 address on it, blacklist the
      address. The drop rule is still there and no rule mentions the address. */
  lemma WhitelistThenBlacklist(rules: seq<Rule>, port: nat, a: seq<byte>)
    requires |a| == 4
    ensures Remaining(rules + [DropRule(port), AcceptRule(port, a)], a) == Remaining(rules, a) + [DropRule(port)]
  {
    var p := Unmentioning(a);
    DropRuleNeverMentions(port, a);
    AcceptRuleMentions(port, a);
    FilterAppend(rules, [DropRule(port), AcceptRule(port, a)], p);
    assert [DropRule(port), AcceptRule(port, a)][1..] == [AcceptRule(port, a)];
  }

  class Manager {
    /** The rules of the chain, in order. */
    var rules: seq<Rule>
    /** False off Linux, where `NewManager` returns the no-op manager. */
    const enabled: bool
    const parseIp: IPParser

    /** `NewManager`: an empty chain. */
    constructor (enabled: bool, parseIp: IPParser)
      ensures this.enabled == enabled && this.parseIp == parseIp && rules == []
    {
      this.enabled := enabled;
      this.parseIp := parseIp;
      rules := [];
    }

    /** `BlockPortAccess`: append a rule dropping TCP traffic to the port. */
    method BlockPortAccess(port: nat) returns (r: Outcome)
      modifies this
      ensures r == Pass
      ensures rules == if enabled then old(rules) + [DropRule(port)] else old(rules)
    {
      if !enabled {
        return Pass;
      }
      rules := rules + [DropRule(port)];
      return Pass;
    }

    /** `WhitelistIP`: append a rule accepting TCP traffic to the port from the address. */
    method WhitelistIP(ip: string, port: nat) returns (r: Outcome)
      modifies this
      ensures r.Fail? <==> enabled && parseIp(ip).None?
      ensures rules == if enabled && parseIp(ip).Some? then old(rules) + [AcceptRule(port, To4(parseIp(ip).value))] else old(rules)
    {
      if !enabled {
        return Pass;
      }
      var parsed := parseIp(ip);
      if parsed.None? {
        return Fail("invalid IP address: " + ip);
      }
      rules := rules + [AcceptRule(port, To4(parsed.value))];
      return Pass;
    }

    /** `BlacklistIP`: walk the chain and delete every rule with a four-byte equality compare
        against the address, whatever its port. */
    method BlacklistIP(ip: string, port: nat) returns (r: Outcome)
      modifies this
      ensures r.Fail? <==> enabled && parseIp(ip).None?
      ensures rules == if enabled && parseIp(ip).Some? then Remaining(old(rules), To4(parseIp(ip).value)) else old(rules)
    {
      if !enabled {
        return Pass;
      }
      var parsed := parseIp(ip);
      if parsed.None? {
        return Fail("invalid IP address: " + ip);
      }
      var a := To4(parsed.value);
      ghost var p := Unmentioning(a);
      var current := rules;
      var kept: seq<Rule> := [];
      var i := 0;
      while i < |current|
        invariant 0 <= i <= |current|
        invariant kept == Filter(current[..i], p)
      {
        var matched := RuleMentions(current[i], a);
        FilterStep(current, i, p);
        if !matched {
          kept := kept + [current[i]];
        }
        i := i + 1;
      }
      assert current[..i] == current;
      assert kept == Remaining(current, a);
      rules := kept;
      return Pass;
    }
  }

  /** The inner loop of `BlacklistIP` over one rule's expressions. */
  method RuleMentions(rule: Rule, a: seq<byte>) returns (found: bool)
    ensures found <==> Mentions(rule, a)
  {
    for j := 0 to |rule.exprs|
      invariant forall k :: 0 <= k < j ==> !ComparesAddress(rule.exprs[k], a)
    {
      var e := rule.exprs[j];
      if e.Cmp? && |e.data| == 4 && e.op == Eq && e.data == a {
        return true;
      }
    }
    return false;
  }
}
