/**
 * Hardware addresses and their textual form, which the daemon uses as map keys.
 * An address is absent (Go's nil) or exactly six bytes long.
 */
module Mac {
  import opened Basics

  newtype byte = b: int | 0 <= b < 256

  type Mac = m: seq<byte> | |m| == 6 witness [0, 0, 0, 0, 0, 0]

  type Address = Option<Mac>

  const BROADCAST: Mac := [0xff, 0xff, 0xff, 0xff, 0xff, 0xff]

  const HEX: string := "0123456789abcdef"

  /** `net.HardwareAddr.String` of a six-byte address: lower-case hex pairs joined by colons. */
  function MacString(m: Mac): (s: string)
    ensures |s| == 17 && s[16] != ':'
  {
    seq(17, i requires 0 <= i < 17 =>
      if i % 3 == 2 then ':'
      else if i % 3 == 0 then HEX[m[i / 3] as int / 16]
      else HEX[m[i / 3] as int % 16])
  }

  /** The same for a possibly absent address, which prints as the empty string. */
  function AddressString(a: Address): string {
    match a
    case None => ""
    case Some(m) => MacString(m)
  }

  lemma HexInjective(i: nat, j: nat)
    requires i < 16 && j < 16 && HEX[i] == HEX[j]
    ensures i == j
  {
  }

  lemma MacStringInjective(m: Mac, n: Mac)
    requires MacString(m) == MacString(n)
    ensures m == n
  {
    forall k | 0 <= k < 6 ensures m[k] == n[k] {
      var s, t := MacString(m), MacString(n);
      assert s[3 * k] == HEX[m[k] as int / 16] && t[3 * k] == HEX[n[k] as int / 16];
      assert (3 * k + 1) / 3 == k;
      assert s[3 * k + 1] == HEX[m[k] as int % 16] && t[3 * k + 1] == HEX[n[k] as int % 16];
      HexInjective(m[k] as int / 16, n[k] as int / 16);
      HexInjective(m[k] as int % 16, n[k] as int % 16);
    }
  }

  lemma AddressStringInjective(a: Address, b: Address)
    requires AddressString(a) == AddressString(b)
    ensures a == b
  {
    if a.Some? && b.Some? {
      MacStringInjective(a.value, b.value);
    }
  }

  /** The last character of `p:address` tells whether the address is present, and so where it starts. */
  lemma SuffixLength(p: string, a: Address)
    ensures var s := p + ":" + AddressString(a);
      && |s| == |p| + 1 + (if a.Some? then 17 else 0)
      && (a.None? <==> s[|s| - 1] == ':')
      && s[..|p|] == p && s[|p| + 1..] == AddressString(a)
  {
    if a.Some? {
      var m := MacString(a.value);
      assert (p + ":" + m)[|p| + 17] == m[16];
    }
  }

  /** An address appended after a colon can be read back from the end of a key. */
  lemma SuffixInjective(p: string, a: Address, q: string, b: Address)
    requires p + ":" + AddressString(a) == q + ":" + AddressString(b)
    ensures p == q && a == b
  {
    SuffixLength(p, a);
    SuffixLength(q, b);
    AddressStringInjective(a, b);
  }
}
