/** The routing key: 12 hex digits of a gateway's IPv4 address and port, which open every uniqId it assigns. */
module Address {
  import opened Collections
  import opened Framing

  const DIGITS := "0123456789abcdef"

  function HexEncode(bs: seq<byte>): (s: string)
    ensures |s| == 2 * |bs|
  {
    if bs == [] then "" else [DIGITS[bs[0] / 16], DIGITS[bs[0] % 16]] + HexEncode(bs[1..])
  }

  /** The value of a hex digit, from its character; -1 for any other character. */
  function DigitValue(c: char): int {
    if '0' <= c <= '9' then c as int - '0' as int
    else if 'a' <= c <= 'f' then c as int - 'a' as int + 10
    else -1
  }

  /** The two digits from `i` on are the byte `b`, high digit first. */
  predicate Spells(s: string, i: nat, b: int) {
    && i + 1 < |s| && 0 <= DigitValue(s[i]) && 0 <= DigitValue(s[i + 1])
    && b == 16 * DigitValue(s[i]) + DigitValue(s[i + 1])
  }

  lemma DigitIs(d: nat)
    requires d < 16
    ensures DigitValue(DIGITS[d]) == d
  {
  }

  /** The printed text, character by character. */
  lemma {:induction false} HexSpells(bs: seq<byte>, i: nat)
    requires i < |bs|
    ensures Spells(HexEncode(bs), 2 * i, bs[i])
    decreases |bs|
  {
    if i == 0 {
      DigitIs(bs[0] / 16);
      DigitIs(bs[0] % 16);
    } else {
      HexSpells(bs[1..], i - 1);
      SpellsLater([DIGITS[bs[0] / 16], DIGITS[bs[0] % 16]], HexEncode(bs[1..]), 2 * i - 2, bs[i]);
    }
  }

  lemma SpellsLater(front: string, s: string, i: nat, b: int)
    requires Spells(s, i, b) && |front| == 2
    ensures Spells(front + s, i + 2, b)
  {
  }

  type IPv4 = ip: seq<byte> | |ip| == 4 witness [0, 0, 0, 0]

  /** Where a gateway's task server listens. */
  datatype Endpoint = Endpoint(ip: IPv4, port: int)
  {
    function Key(): string {
      AddrKey(ip, port)
    }
  }

  /** What the gateway at `ip`, `port` is registered under. */
  function AddrKey(ip: seq<byte>, port: int): string {
    HexEncode(ip + BigEndian(port % 0x1_0000, 2))
  }

  /** The address is written into a six-byte buffer, the port after its conversion to 16 bits, and the
      buffer is printed: twelve hex digits, for the four bytes of the address and the two of the port. */
  method AddrConvertToHex(ip: seq<byte>, port: int) returns (s: string)
    requires |ip| == 4
    ensures s == AddrKey(ip, port)
    ensures |s| == 12 && forall i :: 0 <= i < 4 ==> Spells(s, 2 * i, ip[i])
    ensures Spells(s, 8, port % 0x1_0000 / 256) && Spells(s, 10, port % 256)
  {
    var template := new byte[6];
    PutBytes(template, 0, BigEndian(FromBigEndian(ip), 4));
    PutBytes(template, 4, BigEndian(port % 0x1_0000, 2));
    FromBigEndianInverse(ip);
    assert template[0..4] == ip;
    assert template[..] == ip + BigEndian(port % 0x1_0000, 2);
    s := HexEncode(template[..]);
    KeySpells(ip, port);
  }

  method PutBytes(a: array<byte>, at: nat, b: seq<byte>)
    requires at + |b| <= a.Length
    modifies a
    ensures a[at..at + |b|] == b
    ensures forall i :: 0 <= i < a.Length && !(at <= i < at + |b|) ==> a[i] == old(a[i])
  {
    var i := 0;
    while i < |b|
      invariant i <= |b|
      invariant forall j :: 0 <= j < i ==> a[at + j] == b[j]
      invariant forall j :: 0 <= j < a.Length && !(at <= j < at + |b|) ==> a[j] == old(a[j])
    {
      a[at + i] := b[i];
      i := i + 1;
    }
  }

  /** The key of the gateway that assigned a uniqId; the empty string for one that is not 28 digits long. */
  function UniqIdConvertToAddrAsHex(uniqId: string): string {
    if |uniqId| != 28 then "" else uniqId[0..12]
  }

  /** A uniqId as gateways assign it: address, port, timestamp and counter in hex. */
  function UniqId(ip: seq<byte>, port: int, timestamp: nat, counter: nat): string {
    HexEncode(ip + BigEndian(port % 0x1_0000, 2) + BigEndian(timestamp, 4) + BigEndian(counter, 4))
  }

  lemma DigitsDiffer(i: nat, j: nat)
    requires i < 16 && j < 16 && DIGITS[i] == DIGITS[j]
    ensures i == j
  {
  }

  lemma {:induction false} HexInjective(a: seq<byte>, b: seq<byte>)
    requires HexEncode(a) == HexEncode(b)
    ensures a == b
    decreases |a|
  {
    if a != [] {
      var x, y := HexEncode(a), HexEncode(b);
      assert x[0] == y[0] && x[1] == y[1] && x[2..] == y[2..];
      DigitsDiffer(a[0] / 16, b[0] / 16);
      DigitsDiffer(a[0] % 16, b[0] % 16);
      assert x[2..] == HexEncode(a[1..]) && y[2..] == HexEncode(b[1..]);
      HexInjective(a[1..], b[1..]);
      assert a == [a[0]] + a[1..] && b == [b[0]] + b[1..];
    }
  }

  lemma {:induction false} HexConcat(a: seq<byte>, b: seq<byte>)
    ensures HexEncode(a + b) == HexEncode(a) + HexEncode(b)
    decreases |a|
  {
    if a == [] {
      assert a + b == b;
    } else {
      HexConcat(a[1..], b);
      assert (a + b)[1..] == a[1..] + b;
      Regroup([DIGITS[a[0] / 16], DIGITS[a[0] % 16]], HexEncode(a[1..]), HexEncode(b));
    }
  }

  lemma U16RoundTrip(n: nat)
    requires n < 0x1_0000
    ensures FromBigEndian(BigEndian(n, 2)) == n
  {
    BigEndianStep(n, 2);
    BigEndianStep(n / 256, 1);
    assert FromBigEndian(BigEndian(n / 256 / 256, 0)) == 0;
  }

  lemma KeySpells(ip: seq<byte>, port: int)
    requires |ip| == 4
    ensures forall i :: 0 <= i < 4 ==> Spells(AddrKey(ip, port), 2 * i, ip[i])
    ensures Spells(AddrKey(ip, port), 8, port % 0x1_0000 / 256) && Spells(AddrKey(ip, port), 10, port % 256)
  {
    var p := port % 0x1_0000;
    var bs := ip + BigEndian(p, 2);
    assert BigEndian(p, 2) == BigEndian(p / 256, 1) + [p % 256];
    assert BigEndian(p / 256, 1) == BigEndian(p / 256 / 256, 0) + [p / 256 % 256];
    assert bs[4] == p / 256 && bs[5] == p % 256;
    forall i | 0 <= i < 4 ensures Spells(AddrKey(ip, port), 2 * i, ip[i]) {
      HexSpells(bs, i);
      assert bs[i] == ip[i];
    }
    HexSpells(bs, 4);
    HexSpells(bs, 5);
  }

  /** Two gateways share a key exactly when they have the same address and the same 16-bit port, so
      distinct gateways never share a pool. */
  lemma KeyIsExact(ip: seq<byte>, port: int, ip': seq<byte>, port': int)
    requires |ip| == |ip'| == 4
    ensures AddrKey(ip, port) == AddrKey(ip', port') <==> ip == ip' && port % 0x1_0000 == port' % 0x1_0000
  {
    var p, p' := port % 0x1_0000, port' % 0x1_0000;
    if AddrKey(ip, port) == AddrKey(ip', port') {
      HexInjective(ip + BigEndian(p, 2), ip' + BigEndian(p', 2));
      assert ip == (ip + BigEndian(p, 2))[..4] == (ip' + BigEndian(p', 2))[..4] == ip';
      assert BigEndian(p, 2) == (ip + BigEndian(p, 2))[4..] == (ip' + BigEndian(p', 2))[4..] == BigEndian(p', 2);
      U16RoundTrip(p);
      U16RoundTrip(p');
    }
  }

  /** An id assigned by a gateway is routed to the key under which that gateway is registered, and to no
      other gateway's; an id of another length is routed to no gateway at all. */
  lemma RoutedHome(ip: seq<byte>, port: int, timestamp: nat, counter: nat, ip': seq<byte>, port': int, other: string)
    requires |ip| == |ip'| == 4
    ensures UniqIdConvertToAddrAsHex(UniqId(ip, port, timestamp, counter)) == AddrKey(ip, port)
    ensures UniqIdConvertToAddrAsHex(UniqId(ip, port, timestamp, counter)) == AddrKey(ip', port')
            <==> ip == ip' && port % 0x1_0000 == port' % 0x1_0000
    ensures |other| != 28 ==> UniqIdConvertToAddrAsHex(other) != AddrKey(ip', port')
  {
    var home := ip + BigEndian(port % 0x1_0000, 2);
    var tail := BigEndian(timestamp, 4) + BigEndian(counter, 4);
    assert ip + BigEndian(port % 0x1_0000, 2) + BigEndian(timestamp, 4) + BigEndian(counter, 4) == home + tail;
    HexConcat(home, tail);
    KeyIsExact(ip, port, ip', port');
  }
}
