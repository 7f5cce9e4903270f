/** IPv4 addresses in host order: masks, broadcast addresses and the dotted form. */
module Ipv4 {
  import opened Digits
  import opened Wrappers

  /** The host part: all bits behind the first `prefix` ones. */
  function LowOnes(prefix: bv32): bv32
    requires prefix < 32
  {
    0xffff_ffff >> prefix
  }

  /** An address with its `low` bits cleared, set, and alone. */
  function Cleared(address: bv32, low: bv32): bv32 {
    address & !low
  }

  function Filled(address: bv32, low: bv32): bv32 {
    address | low
  }

  function Rest(address: bv32, low: bv32): bv32 {
    address & low
  }

  /** `get_subnetmask`: shifting by 32 or more has no defined result. */
  function SubnetMask(prefix: bv32): bv32
    requires prefix < 32
  {
    !LowOnes(prefix)
  }

  /** `get_boardaddress`. */
  function Broadcast(address: bv32, prefix: bv32): bv32
    requires prefix < 32
  {
    Filled(address, LowOnes(prefix))
  }

  /** The network address of RFC 4632, section 3.1: the prefix, followed by zeros. */
  function Network(address: bv32, prefix: bv32): bv32
    requires prefix < 32
  {
    address & SubnetMask(prefix)
  }

  predicate SamePrefix(a: bv32, b: bv32, prefix: bv32)
    requires prefix < 32
  {
    Network(a, prefix) == Network(b, prefix)
  }

  predicate SameBroadcast(a: bv32, b: bv32, prefix: bv32)
    requires prefix < 32
  {
    Broadcast(a, prefix) == Broadcast(b, prefix)
  }

  predicate Between(first: bv32, a: bv32, last: bv32) {
    first <= a <= last
  }

  /** `a` is one of the `size + 1` addresses from `first` on. */
  predicate Within(a: bv32, first: bv32, size: bv32) {
    a - first <= size
  }

  /** The broadcast address is the network address plus 2^(32 - prefix) - 1. */
  lemma BroadcastSum(address: bv32, prefix: bv32)
    requires prefix < 32
    ensures Broadcast(address, prefix) == Network(address, prefix) + (((1 as bv32) << (32 - prefix)) - 1)
  {
  }

  /** It is the greatest address with its prefix. */
  lemma BroadcastIsGreatest(address: bv32, prefix: bv32, other: bv32)
    requires prefix < 32
    ensures SamePrefix(Broadcast(address, prefix), address, prefix)
    ensures SamePrefix(other, address, prefix)
            ==> Between(Network(address, prefix), other, Broadcast(address, prefix))
  {
    hide LowOnes, SamePrefix, SameCleared, Network, Cleared, Filled, Between;
    var low := LowOnes(prefix);
    PrefixIsCleared(Filled(address, low), address, prefix);
    PrefixIsCleared(other, address, prefix);
    NetworkIsCleared(address, prefix);
    FilledKeeps(address, low);
    Ends(other, address, low);
  }

  /** It is shared by exactly the addresses with that prefix, and these are exactly the 2^(32 - prefix)
      addresses from the network address on. */
  lemma BroadcastOfPrefix(address: bv32, prefix: bv32, other: bv32)
    requires prefix < 32
    ensures SamePrefix(other, address, prefix) <==> SameBroadcast(other, address, prefix)
    ensures SamePrefix(other, address, prefix)
            <==> Within(other, Network(address, prefix), LowOnes(prefix))
  {
    hide LowOnes, SamePrefix, SameBroadcast, SameCleared, SameFilled, Within, Block, Network, Cleared, Filled;
    LowIsBlock(prefix);
    FilledIffCleared(other, address, LowOnes(prefix));
    BroadcastIsFilled(other, address, prefix);
    PrefixIsCleared(other, address, prefix);
    NetworkIsCleared(address, prefix);
    NearIsSame(other, address, LowOnes(prefix));
  }

  predicate Block(low: bv32) {
    low & (low + 1) == 0
  }

  lemma LowIsBlock(prefix: bv32)
    requires prefix < 32
    ensures Block(LowOnes(prefix))
  {
  }

  lemma NetworkIsCleared(address: bv32, prefix: bv32)
    requires prefix < 32
    ensures Network(address, prefix) == Cleared(address, LowOnes(prefix))
  {
    hide LowOnes;
  }

  predicate SameCleared(a: bv32, b: bv32, low: bv32) {
    Cleared(a, low) == Cleared(b, low)
  }

  predicate SameFilled(a: bv32, b: bv32, low: bv32) {
    Filled(a, low) == Filled(b, low)
  }

  lemma PrefixIsCleared(a: bv32, b: bv32, prefix: bv32)
    requires prefix < 32
    ensures SamePrefix(a, b, prefix) == SameCleared(a, b, LowOnes(prefix))
  {
    hide LowOnes, Cleared, SubnetMask;
    NetworkIsCleared(a, prefix);
    NetworkIsCleared(b, prefix);
  }

  lemma BroadcastIsFilled(a: bv32, b: bv32, prefix: bv32)
    requires prefix < 32
    ensures SameBroadcast(a, b, prefix) == SameFilled(a, b, LowOnes(prefix))
  {
  }

  lemma FilledKeeps(a: bv32, low: bv32)
    ensures SameCleared(Filled(a, low), a, low)
  {
    assert (a | low) & !low == a & !low;
  }

  lemma Ends(a: bv32, b: bv32, low: bv32)
    ensures SameCleared(a, b, low) ==> Between(Cleared(b, low), a, Filled(b, low))
  {
  }

  lemma FilledIffCleared(a: bv32, b: bv32, low: bv32)
    ensures SameCleared(a, b, low) ==> SameFilled(a, b, low)
    ensures SameFilled(a, b, low) ==> SameCleared(a, b, low)
  {
  }

  lemma NearIsSame(a: bv32, b: bv32, low: bv32)
    requires Block(low)
    ensures Within(a, Cleared(b, low), low) ==> SameCleared(a, b, low)
    ensures SameCleared(a, b, low) ==> Within(a, Cleared(b, low), low)
  {
    ClearedIsNear(a, low);
  }

  lemma ClearedIsNear(a: bv32, low: bv32)
    ensures Within(a, Cleared(a, low), low)
  {
    hide Cleared, Rest, Within;
    ClearedAndRest(a, low);
    RestIsNear(Cleared(a, low), Rest(a, low), low);
  }

  lemma ClearedAndRest(a: bv32, low: bv32)
    ensures Cleared(a, low) + Rest(a, low) == a && Rest(a, low) <= low
  {
  }

  lemma RestIsNear(first: bv32, rest: bv32, low: bv32)
    ensures rest <= low ==> Within(first + rest, first, low)
  {
  }

  /** The mask has `prefix` ones and then only zeros. */
  lemma MaskIsPrefix(prefix: bv32, i: bv32)
    requires prefix < 32 && i < 32
    ensures SubnetMask(prefix) & ((0x8000_0000 as bv32) >> i) != 0 <==> i < prefix
  {
  }

  /* ---------- the dotted form ---------- */

  function Byte(address: bv32, i: nat): bv32
    requires i < 4
  {
    (address >> Shift(i)) & 0xff
  }

  function Shift(i: nat): (s: bv6)
    requires i < 4
    ensures s <= 32
  {
    (8 * (3 - i)) as bv6
  }

  /** A machine word holding `n`. */
  function Word(n: nat): bv32
    requires n < 256
  {
    n as bv32
  }

  function Dotted(address: bv32, n: nat): string
    requires n <= 4
  {
    if n == 0 then ""
    else Dotted(address, n - 1) + Show(Byte(address, n - 1) as nat, 10) + (if n != 4 then "." else "")
  }

  /** `ipv4_address::print`. */
  method Print(address: bv32, port: nat) returns (stream: string)
    ensures stream == Line(Dotted(address, 4), port)
  {
    hide Show, Line, Shift;
    stream := "[";
    var i := 0;
    while i < 4
      invariant 0 <= i <= 4
      invariant stream == "[" + Dotted(address, i)
    {
      var temp := (address >> Shift(i)) & 0xff;
      assert temp == Byte(address, i);
      stream := stream + Show(temp as nat, 10);
      if i != 3 {
        stream := stream + ".";
      }
      i := i + 1;
    }
    assert stream == "[" + Dotted(address, 4);
    stream := stream + "]";
    LineParts(Dotted(address, 4), port);
    stream := stream + ":" + Show(port, 10) + "\n";
  }

  function Octet(address: bv32, i: nat): string
    requires i < 4
  {
    Show(Byte(address, i) as nat, 10)
  }

  predicate IsOctet(s: string) {
    Numeral(s, 10) && Read(s, 10) < 256
  }

  /** Reads a dotted address: four decimal numbers below 256. */
  function ReadDotted(s: string): Option<bv32> {
    ReadOctets(Split(s, '.'))
  }

  function ReadOctets(p: seq<string>): Option<bv32> {
    if |p| == 4 && IsOctet(p[0]) && IsOctet(p[1]) && IsOctet(p[2]) && IsOctet(p[3]) then
      Some(Join(Word(Read(p[0], 10)), Word(Read(p[1], 10)), Word(Read(p[2], 10)), Word(Read(p[3], 10))))
    else None
  }

  function Join(a: bv32, b: bv32, c: bv32, d: bv32): bv32 {
    (a << 24) | (b << 16) | (c << 8) | d
  }

  /** The printed line determines the address and the port. */
  lemma DottedRoundTrip(address: bv32, port: nat)
    ensures ReadDotted(Dotted(address, 4)) == Some(address)
    ensures Unline(Line(Dotted(address, 4), port)) == Some((Dotted(address, 4), port))
  {
    hide Byte, Word, IsOctet, Octet, Read, Split, Unline, Line, Join, Dotted, ReadOctets;
    OctetRead(address, 0);
    OctetRead(address, 1);
    OctetRead(address, 2);
    OctetRead(address, 3);
    DottedText(address);
    FourParts(Octet(address, 0), Octet(address, 1), Octet(address, 2), Octet(address, 3));
    ReadFour(Octet(address, 0), Octet(address, 1), Octet(address, 2), Octet(address, 3));
    Joined(address);
    LineRead(Dotted(address, 4), port);
  }

  predicate Clean(s: string) {
    '.' !in s && ']' !in s
  }

  lemma FourParts(a: string, b: string, c: string, d: string)
    requires Clean(a) && Clean(b) && Clean(c) && Clean(d)
    ensures ']' !in a + "." + b + "." + c + "." + d
    ensures Split(a + "." + b + "." + c + "." + d, '.') == [a, b, c, d]
  {
    hide Split;
    SplitAt(a, '.', b + ['.'] + (c + ['.'] + d));
    SplitAt(b, '.', c + ['.'] + d);
    SplitAt(c, '.', d);
    SplitNone(d, '.');
    assert a + "." + b + "." + c + "." + d == a + ['.'] + (b + ['.'] + (c + ['.'] + d));
  }

  lemma ReadFour(a: string, b: string, c: string, d: string)
    requires IsOctet(a) && IsOctet(b) && IsOctet(c) && IsOctet(d)
    ensures ReadOctets([a, b, c, d])
            == Some(Join(Word(Read(a, 10)), Word(Read(b, 10)), Word(Read(c, 10)), Word(Read(d, 10))))
  {
  }

  lemma DottedText(address: bv32)
    ensures Dotted(address, 4) == Octet(address, 0) + "." + Octet(address, 1) + "." + Octet(address, 2) + "."
                                  + Octet(address, 3)
  {
    hide Byte, Show;
    assert Dotted(address, 1) == Octet(address, 0) + ".";
    assert Dotted(address, 2) == Dotted(address, 1) + Octet(address, 1) + ".";
    assert Dotted(address, 3) == Dotted(address, 2) + Octet(address, 2) + ".";
    assert Dotted(address, 4) == Dotted(address, 3) + Octet(address, 3) + "";
  }

  lemma OctetRead(address: bv32, i: nat)
    requires i < 4
    ensures IsOctet(Octet(address, i)) && Read(Octet(address, i), 10) == Byte(address, i) as nat
    ensures Word(Byte(address, i) as nat) == Byte(address, i)
    ensures Clean(Octet(address, i))
  {
    hide Read, Show, Numeral;
    ReadShow(Byte(address, i) as nat, 10);
    ByteRange(address, i);
    NoOther(Octet(address, i), 10, '.');
    NoOther(Octet(address, i), 10, ']');
  }

  lemma ByteRange(address: bv32, i: nat)
    requires i < 4
    ensures Byte(address, i) as nat < 256
    ensures Word(Byte(address, i) as nat) == Byte(address, i)
  {
  }

  lemma Joined(address: bv32)
    ensures Join(Byte(address, 0), Byte(address, 1), Byte(address, 2), Byte(address, 3)) == address
  {
    Bytes(address);
    hide Byte, Join;
    JoinBytes(address);
  }

  lemma Bytes(address: bv32)
    ensures Byte(address, 0) == (address >> 24) & 0xff
    ensures Byte(address, 1) == (address >> 16) & 0xff
    ensures Byte(address, 2) == (address >> 8) & 0xff
    ensures Byte(address, 3) == address & 0xff
  {
    Shifts();
    hide Shift;
    assert address >> 0 == address;
  }

  lemma Shifts()
    ensures Shift(0) == 24 && Shift(1) == 16 && Shift(2) == 8 && Shift(3) == 0
  {
  }

  lemma JoinBytes(address: bv32)
    ensures Join((address >> 24) & 0xff, (address >> 16) & 0xff, (address >> 8) & 0xff, address & 0xff) == address
  {
  }
}
