/** IP addresses and CIDR networks (section 3.1 of RFC 4632, section 2.3 of RFC 4291):
    a network holds the addresses of its own family that agree with it on the leading bits. */
module Net {
  import opened Base

  type u32 = n: int | 0 <= n < 0x1_0000_0000
  type u128 = n: int | 0 <= n < 0x1_0000_0000_0000_0000_0000_0000_0000_0000
  type Prefix4 = n: int | 0 <= n <= 32
  type Prefix6 = n: int | 0 <= n <= 128

  datatype IpAddr = V4(bits4: u32) | V6(bits6: u128)

  datatype IpNet = Net4(addr4: u32, prefix4: Prefix4) | Net6(addr6: u128, prefix6: Prefix6)

  function Pow2(n: nat): (r: int)
    ensures r >= 1
  {
    if n == 0 then 1 else 2 * Pow2(n - 1)
  }

  predicate Contains(net: IpNet, ip: IpAddr) {
    match (net, ip)
    case (Net4(a, p), V4(b)) => a / Pow2(32 - p) == b / Pow2(32 - p)
    case (Net6(a, p), V6(b)) => a / Pow2(128 - p) == b / Pow2(128 - p)
    case _ => false
  }

  /** `IpNet::from(ip)`: the network of one address. */
  function HostNet(ip: IpAddr): IpNet {
    match ip
    case V4(b) => Net4(b, 32)
    case V6(b) => Net6(b, 128)
  }

  const ANY4 := Net4(0, 0)
  const ANY6 := Net6(0, 0)

  lemma HostNetIsOneAddress(ip: IpAddr, other: IpAddr)
    ensures Contains(HostNet(ip), other) <==> other == ip
  {
  }

  lemma {:induction false} Pow2Sum(a: nat, b: nat)
    ensures Pow2(a + b) == Pow2(a) * Pow2(b)
  {
    if a > 0 {
      Pow2Sum(a - 1, b);
      assert Pow2(a + b) == 2 * (Pow2(a - 1) * Pow2(b));
    }
  }

  lemma Pow2At32()
    ensures Pow2(32) == 0x1_0000_0000
  {
    assert Pow2(8) == 256 by {
      assert Pow2(4) == 16;
    }
    Pow2Sum(8, 8);
    Pow2Sum(16, 16);
  }

  lemma Pow2At128()
    ensures Pow2(128) == 0x1_0000_0000_0000_0000_0000_0000_0000_0000
  {
    Pow2At32();
    Pow2Sum(32, 32);
    Pow2Sum(64, 64);
  }

  /** The two networks of prefix length zero hold every address between them. */
  lemma AnyNetworkIsEverything(ip: IpAddr)
    ensures Contains(ANY4, ip) || Contains(ANY6, ip)
  {
    match ip {
      case V4(b) =>
        Pow2At32();
      case V6(b) =>
        Pow2At128();
    }
  }

  // --- Leading bits -----------------------------------------------------------

  /** Bit `i` of a number, counted from the least significant one. */
  function Bit(n: nat, i: nat): int {
    n / Pow2(i) % 2
  }

  lemma HalvedAgain(n: nat, i: nat)
    ensures n / Pow2(i) == 2 * (n / Pow2(i + 1)) + Bit(n, i)
  {
    var q, r := n / Pow2(i), n % Pow2(i);
    assert n == Pow2(i) * q + r;
    assert n == Pow2(i + 1) * (q / 2) + (Pow2(i) * (q % 2) + r) by {
      assert q == 2 * (q / 2) + q % 2;
      assert Pow2(i) * q == Pow2(i) * (2 * (q / 2)) + Pow2(i) * (q % 2);
    }
    Quotient(n, Pow2(i + 1), q / 2, Pow2(i) * (q % 2) + r);
  }

  lemma {:induction false} TimesKeepsOrder(d: nat, x: nat, y: nat)
    requires x <= y
    ensures d * x <= d * y
  {
    if x < y {
      TimesKeepsOrder(d, x, y - 1);
    }
  }

  lemma Cancel(d: nat, x: nat, y: nat)
    requires d * x < d * y
    ensures x < y
  {
    if y <= x {
      TimesKeepsOrder(d, y, x);
    }
  }

  lemma Quotient(n: nat, d: nat, q: nat, r: nat)
    requires n == d * q + r && r < d
    ensures n / d == q
  {
    var k := n / d;
    assert d * k <= n < d * (k + 1) && n < d * (q + 1);
    Cancel(d, q, k + 1);
    Cancel(d, k, q + 1);
  }

  lemma {:induction false} LeadingBits(a: nat, b: nat, k: nat, n: nat)
    requires k <= n && a < Pow2(n) && b < Pow2(n)
    ensures a / Pow2(k) == b / Pow2(k) <==> forall i | k <= i < n :: Bit(a, i) == Bit(b, i)
    decreases n - k
  {
    if k == n {
      Quotient(a, Pow2(n), 0, a);
      Quotient(b, Pow2(n), 0, b);
    } else {
      LeadingBits(a, b, k + 1, n);
      HalvedAgain(a, k);
      HalvedAgain(b, k);
    }
  }

  /** A network holds exactly the addresses of its family that have the same leading bits, as many as its
      prefix is long. */
  lemma ContainsMeans(net: IpNet, ip: IpAddr)
    ensures Contains(net, ip) <==>
              match (net, ip)
              case (Net4(a, p), V4(b)) => forall i | 32 - p <= i < 32 :: Bit(a, i) == Bit(b, i)
              case (Net6(a, p), V6(b)) => forall i | 128 - p <= i < 128 :: Bit(a, i) == Bit(b, i)
              case _ => false
  {
    Pow2At32();
    Pow2At128();
    match (net, ip) {
      case (Net4(a, p), V4(b)) => LeadingBits(a, b, 32 - p, 32);
      case (Net6(a, p), V6(b)) => LeadingBits(a, b, 128 - p, 128);
      case _ =>
    }
  }
}
