/**
 Addresses and networks of both families.

 An address is its bits, a network the bits all of its addresses start with. That makes a
 network canonical by construction: host bits written by an operator (`10.0.0.7/24`) are
 cut off when the text is read, as `ipaddress.ip_network(value, strict=False)` does.
 */
module Net {
  import opened Wrappers
  import opened Ordering

  datatype Family = V4 | V6

  type Bits = seq<bool>

  function Width(family: Family): nat {
    match family
    case V4 => 32
    case V6 => 128
  }

  datatype RawAddress = RawAddress(family: Family, bits: Bits)

  type Address = a: RawAddress | |a.bits| == Width(a.family)
    witness RawAddress(V4, seq(32, _ => false))

  datatype RawNetwork = RawNetwork(family: Family, prefix: Bits)

  type Network = n: RawNetwork | |n.prefix| <= Width(n.family)
    witness RawNetwork(V4, [])

  predicate Contains(n: Network, a: Address) {
    n.family == a.family && n.prefix <= a.bits
  }

  /** A default route: the network without a prefix. */
  predicate IsDefault(n: Network) {
    n.prefix == []
  }

  /** `/32` or `/128`: the network holding one address. */
  function HostNetwork(a: Address): (n: Network)
    ensures forall x: Address :: Contains(n, x) <==> x == a
  {
    RawNetwork(a.family, a.bits)
  }

  /** What an operator or a device typed where an address belongs. */
  datatype AddressText = NotAnAddress | AddressText(address: Address)

  /** What an operator typed where a CIDR belongs; `Cidr` keeps the host bits. */
  datatype CidrText = NotACidr | Cidr(address: Address, length: nat)

  function ParseCidr(c: CidrText): (r: Option<Network>)
    ensures r.Some? ==> c.Cidr? && Contains(r.value, c.address)
  {
    match c
    case NotACidr => None
    case Cidr(a, n) => if n <= Width(a.family) then Some(RawNetwork(a.family, a.bits[..n])) else None
  }

  /** A network holds the addresses of its family that agree with the one written on as many bits as the length says. */
  lemma CidrMeans(c: CidrText, a: Address)
    ensures ParseCidr(c).Some? <==> c.Cidr? && c.length <= if c.address.family == V4 then 32 else 128
    ensures ParseCidr(c).Some? ==>
      (Contains(ParseCidr(c).value, a)
       <==> c.address.family == a.family && forall i :: 0 <= i < c.length ==> a.bits[i] == c.address.bits[i])
    ensures ParseCidr(c).Some? ==> (IsDefault(ParseCidr(c).value) <==> c.length == 0)
  {
    if ParseCidr(c).Some? && c.address.family == a.family {
      var p := ParseCidr(c).value.prefix;
      assert |p| == c.length && forall i :: 0 <= i < |p| ==> p[i] == c.address.bits[i];
      assert p <= a.bits <==> forall i :: 0 <= i < |p| ==> p[i] == a.bits[i];
    }
  }

  function BitsKey(b: Bits): Key {
    seq(|b|, i requires 0 <= i < |b| => if b[i] then 1 else 0)
  }

  lemma BitsKeyInjective(a: Bits, b: Bits)
    requires BitsKey(a) == BitsKey(b)
    ensures a == b
  {
    assert |a| == |BitsKey(a)| == |BitsKey(b)| == |b|;
    forall i | 0 <= i < |a|
      ensures a[i] == b[i]
    {
      assert BitsKey(a)[i] == BitsKey(b)[i];
    }
  }

  function Version(family: Family): int {
    match family
    case V4 => 4
    case V6 => 6
  }

  /** Version first, then the number the bits spell. */
  function AddressKey(a: Address): Key {
    [Version(a.family)] + BitsKey(a.bits)
  }

  /** Version, network address, prefix length: the order of the padded prefix, shorter first. */
  function NetworkKey(n: Network): Key {
    [Version(n.family)] + BitsKey(n.prefix)
  }

  lemma KeyParts(v: int, w: int, a: Bits, b: Bits)
    requires [v] + BitsKey(a) == [w] + BitsKey(b)
    ensures v == w && a == b
  {
    assert ([v] + BitsKey(a))[0] == v && ([w] + BitsKey(b))[0] == w;
    assert ([v] + BitsKey(a))[1..] == BitsKey(a) && ([w] + BitsKey(b))[1..] == BitsKey(b);
    BitsKeyInjective(a, b);
  }

  lemma AddressKeyInjective(s: seq<Address>)
    ensures KeyInjectiveOn(s, AddressKey)
  {
    forall x, y | x in s && y in s && AddressKey(x) == AddressKey(y)
      ensures x == y
    {
      KeyParts(Version(x.family), Version(y.family), x.bits, y.bits);
    }
  }

  lemma NetworkKeyInjective(s: seq<Network>)
    ensures KeyInjectiveOn(s, NetworkKey)
  {
    forall x, y | x in s && y in s && NetworkKey(x) == NetworkKey(y)
      ensures x == y
    {
      KeyParts(Version(x.family), Version(y.family), x.prefix, y.prefix);
    }
  }
}
