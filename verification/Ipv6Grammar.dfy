/** The text grammar of IP addresses, and the counting rule it is meant to implement. */
module Ipv6Grammar {
  import opened Common
  import opened Peg

  // ----- the grammar

  const Colon := Text(":")
  const Colons := Text("::")
  const H16 := Repeat(1, 4, HexDigit)
  const Group := Then(H16, Colon)
  const Ipv4 := Then(Octet, Repeat(3, 3, Then(Text("."), Octet)))
  const Ls32 := Or(Then(H16, Then(Colon, H16)), Ipv4)

  const Alternatives: seq<Expr> := [
    Then(Repeat(6, 6, Group), Ls32),
    Then(Colons, Then(Repeat(4, 4, Group), Ls32)),
    Then(Colons, Then(Repeat(3, 3, Group), Ls32)),
    Then(Colons, Then(Repeat(2, 2, Group), Ls32)),
    Then(Colons, Then(H16, Then(Colon, Ls32))),
    Then(Colons, Ls32),
    Then(Colons, H16),
    Colons,
    Then(H16, Then(Colons, Then(Repeat(3, 3, Group), Ls32))),
    Then(Repeat(1, 2, Group), Then(Colon, Then(Repeat(2, 2, Group), Ls32))),
    Then(Repeat(1, 3, Group), Then(Colon, Then(H16, Then(Colon, Ls32)))),
    Then(Repeat(1, 4, Group), Then(Colon, Ls32)),
    Then(Repeat(1, 5, Group), Then(Colon, H16)),
    Then(Repeat(1, 6, Group), Colon)
  ]

  const Ipv6: Expr := FirstOf(Alternatives)

  // ----- the counting rule

  predicate IsGroup(s: string) {
    1 <= |s| <= 4 && forall i :: 0 <= i < |s| ==> IsHex(s[i])
  }

  predicate IsOctet(s: string) {
    s != "" && (forall i :: 0 <= i < |s| ==> IsDigit(s[i])) && DecimalValue(s) <= 255
  }

  predicate Dotted(s: string, a: string, b: string, c: string, d: string) {
    s == a + ("." + (b + ("." + (c + ("." + d)))))
  }

  /** Four octets with a dot between neighbours. */
  ghost predicate IsIpv4(s: string) {
    exists a, b, c, d :: Dotted(s, a, b, c, d) && IsOctet(a) && IsOctet(b) && IsOctet(c) && IsOctet(d)
  }

  predicate Joined(s: string, g: string, t: string) {
    s == g + (":" + t)
  }

  /** `n` groups with a colon between neighbours. */
  ghost predicate IsHead(s: string, n: nat)
    decreases n
  {
    (n == 1 && IsGroup(s)) ||
    (n > 1 && exists g, t :: Joined(s, g, t) && IsGroup(g) && IsHead(t, n - 1))
  }

  /** The same, but an IPv4 address may stand for the last two groups. */
  ghost predicate IsTail(s: string, n: nat)
    decreases n
  {
    (n == 1 && IsGroup(s)) ||
    (n == 2 && IsIpv4(s)) ||
    (n > 1 && exists g, t :: Joined(s, g, t) && IsGroup(g) && IsTail(t, n - 1))
  }

  /** `before` groups, a double colon, `after` groups. */
  ghost predicate IsShort(s: string, h: string, before: nat, t: string, after: nat) {
    && s == h + ("::" + t)
    && (if before == 0 then h == "" else IsHead(h, before))
    && (if after == 0 then t == "" else IsTail(t, after))
  }

  /** Eight groups; or a double colon and at most six. */
  ghost predicate IsIpv6(s: string) {
    IsTail(s, 8) ||
    exists h, before: nat, t, after: nat :: IsShort(s, h, before, t, after) && before + after <= 6
  }
}
