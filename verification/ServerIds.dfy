/** The id of a virtual server, computed from its namespace and name.

    The id is a name-based UUID of version 5 (section 5.5 of RFC 9562), written as
    text (section 4) with the dashes removed. The SHA-1 digest is a parameter. */
module ServerIds {
  import opened Wrappers
  import opened Hex
  import opened Managed

  type Byte = n: int | 0 <= n < 256

  type Digest = d: seq<Byte> | |d| == 16 witness seq(16, _ => 0)

  /** The first 16 bytes of the SHA-1 of the provider's UUID namespace and a name. */
  type NameHash = string -> Digest

  /** The name that is hashed. */
  function HashedName(key: Key): string
  {
    key.namespace + "/" + key.name
  }

  /** Puts the version and the variant into a digest. */
  function Stamp(d: Digest): Digest
  {
    d[6 := d[6] % 16 + 0x50][8 := d[8] % 64 + 0x80]
  }

  function HexText(bytes: seq<Byte>): string
  {
    if bytes == [] then [] else [HexDigit(bytes[0] / 16), HexDigit(bytes[0] % 16)] + HexText(bytes[1..])
  }

  /** The text of a UUID, in groups of 8, 4, 4, 4 and 12 digits. */
  function UuidText(u: Digest): string
  {
    HexText(u[..4]) + "-" + HexText(u[4..6]) + "-" + HexText(u[6..8]) + "-" + HexText(u[8..10]) + "-" + HexText(u[10..])
  }

  function WithoutDashes(s: string): string
  {
    if s == [] then [] else if s[0] == '-' then WithoutDashes(s[1..]) else [s[0]] + WithoutDashes(s[1..])
  }

  function DeterministicId(hash: NameHash, key: Key): string
  {
    WithoutDashes(UuidText(Stamp(hash(HashedName(key)))))
  }

  lemma {:induction false} WithoutDashesConcat(s: string, t: string)
    ensures WithoutDashes(s + t) == WithoutDashes(s) + WithoutDashes(t)
  {
    if s == [] {
      assert s + t == t;
    } else {
      assert (s + t)[1..] == s[1..] + t;
      WithoutDashesConcat(s[1..], t);
    }
  }

  lemma {:induction false} HexTextHasNoDash(bytes: seq<Byte>)
    ensures WithoutDashes(HexText(bytes)) == HexText(bytes)
  {
    if bytes != [] {
      var d := [HexDigit(bytes[0] / 16), HexDigit(bytes[0] % 16)];
      assert d[1..] == [d[1]];
      assert WithoutDashes([d[1]]) == [d[1]] + [];
      assert WithoutDashes(d) == [d[0]] + [d[1]];
      WithoutDashesConcat(d, HexText(bytes[1..]));
      HexTextHasNoDash(bytes[1..]);
    }
  }

  lemma {:induction false} HexTextConcat(a: seq<Byte>, b: seq<Byte>)
    ensures HexText(a + b) == HexText(a) + HexText(b)
  {
    if a == [] {
      assert a + b == b;
    } else {
      assert (a + b)[1..] == a[1..] + b;
      HexTextConcat(a[1..], b);
    }
  }

  lemma {:induction false} HexTextInjective(a: seq<Byte>, b: seq<Byte>)
    requires HexText(a) == HexText(b)
    ensures a == b
  {
    if a == [] || b == [] {
      assert |HexText(a)| == 0;
    } else {
      var s, t := HexText(a), HexText(b);
      assert s[0] == HexDigit(a[0] / 16) && s[1] == HexDigit(a[0] % 16) && s[2..] == HexText(a[1..]);
      assert t[0] == HexDigit(b[0] / 16) && t[1] == HexDigit(b[0] % 16) && t[2..] == HexText(b[1..]);
      assert HexValue(s[0]) == HexValue(t[0]) && HexValue(s[1]) == HexValue(t[1]);
      HexTextInjective(a[1..], b[1..]);
      assert a == [a[0]] + a[1..] && b == [b[0]] + b[1..];
    }
  }

  /** Appending the digits of the next bytes, and perhaps a dash. */
  lemma GroupAdds(w: string, u: Digest, i: nat, j: nat)
    requires i <= j <= 16 && WithoutDashes(w) == HexText(u[..i])
    ensures WithoutDashes(w + HexText(u[i..j])) == HexText(u[..j])
    ensures WithoutDashes(w + HexText(u[i..j]) + "-") == HexText(u[..j])
  {
    HexTextHasNoDash(u[i..j]);
    HexTextConcat(u[..i], u[i..j]);
    assert u[..i] + u[i..j] == u[..j];
    WithoutDashesConcat(w, HexText(u[i..j]));
    WithoutDashesConcat(w + HexText(u[i..j]), "-");
    assert WithoutDashes("-") == [];
  }

  /** Removing the dashes of a UUID loses nothing but the dashes. */
  lemma DashlessUuid(u: Digest)
    ensures WithoutDashes(UuidText(u)) == HexText(u)
  {
    GroupAdds("", u, 0, 4);
    assert "" + HexText(u[..4]) == HexText(u[..4]);
    var w := HexText(u[..4]) + "-";
    GroupAdds(w, u, 4, 6);
    w := w + HexText(u[4..6]) + "-";
    GroupAdds(w, u, 6, 8);
    w := w + HexText(u[6..8]) + "-";
    GroupAdds(w, u, 8, 10);
    w := w + HexText(u[8..10]) + "-";
    GroupAdds(w, u, 10, 16);
    assert u[10..16] == u[10..] && u[..16] == u;
  }

  lemma {:induction false} HexTextDigits(bytes: seq<Byte>, i: nat)
    requires i < |bytes|
    ensures |HexText(bytes)| == 2 * |bytes|
    ensures HexValue(HexText(bytes)[2 * i]) == Some(bytes[i] / 16) && HexValue(HexText(bytes)[2 * i + 1]) == Some(bytes[i] % 16)
  {
    var d, rest := [HexDigit(bytes[0] / 16), HexDigit(bytes[0] % 16)], HexText(bytes[1..]);
    assert HexText(bytes) == d + rest;
    if |bytes| > 1 { HexTextDigits(bytes[1..], if i > 0 then i - 1 else 0); }
    if i > 0 {
      assert (d + rest)[2 * i] == rest[2 * (i - 1)] && (d + rest)[2 * i + 1] == rest[2 * (i - 1) + 1];
      assert bytes[i] == bytes[1..][i - 1];
    }
  }

  /** The byte of a version 5 UUID that stands at a place, given the digest. */
  function UuidByte(d: Digest, i: nat): Byte
    requires i < 16
  {
    if i == 6 then d[6] % 16 + 0x50 else if i == 8 then d[8] % 64 + 0x80 else d[i]
  }

  /** The id has 32 lower-case digits: those of the digest of namespace, slash and name, the
      higher one of each byte first, with version 5 and the variant in their places. */
  lemma IdIsTheUuid(hash: NameHash, key: Key, i: nat)
    requires i < 16
    ensures var id, b := DeterministicId(hash, key), UuidByte(hash(key.namespace + "/" + key.name), i);
            |id| == 32 && HexValue(id[2 * i]) == Some(b / 16) && HexValue(id[2 * i + 1]) == Some(b % 16)
  {
    var u := Stamp(hash(HashedName(key)));
    DashlessUuid(u);
    HexTextDigits(u, i);
  }

  lemma {:induction false} NoDigitIsADash(bytes: seq<Byte>)
    ensures forall i | 0 <= i < |HexText(bytes)| :: HexText(bytes)[i] != '-'
  {
    if bytes != [] { NoDigitIsADash(bytes[1..]); }
  }

  /** The text has its dashes after 8, 12, 16 and 20 digits. */
  lemma DashesSeparateTheGroups(u: Digest)
    ensures var t := UuidText(u); |t| == 36 && forall i | 0 <= i < 36 :: t[i] == '-' <==> i in {8, 13, 18, 23}
  {
    HexTextDigits(u[..4], 0);
    HexTextDigits(u[4..6], 0);
    HexTextDigits(u[6..8], 0);
    HexTextDigits(u[8..10], 0);
    HexTextDigits(u[10..], 0);
    NoDigitIsADash(u[..4]);
    NoDigitIsADash(u[4..6]);
    NoDigitIsADash(u[6..8]);
    NoDigitIsADash(u[8..10]);
    NoDigitIsADash(u[10..]);
  }

  predicate SlashFree(s: string)
  {
    forall i | 0 <= i < |s| :: s[i] != '/'
  }

  /** A slash cannot occur in a namespace, so the hashed name gives back its parts. */
  lemma HashedNameInjective(a: Key, b: Key)
    requires SlashFree(a.namespace) && SlashFree(b.namespace)
    ensures HashedName(a) == HashedName(b) <==> a == b
  {
    if HashedName(a) == HashedName(b) {
      var m, n := |a.namespace|, |b.namespace|;
      var s := HashedName(a);
      assert s[m] == '/' && s[n] == '/';
      assert forall i | 0 <= i < m :: s[i] == a.namespace[i];
      assert forall i | 0 <= i < n :: s[i] == b.namespace[i];
      assert m == n;
      assert s[..m] == a.namespace && s[..n] == b.namespace;
      assert s[m + 1..] == a.name && s[n + 1..] == b.name;
    }
  }

  /** Two resources share a server id exactly when they are the same resource or their
      hashed names collide: nothing is lost on the way from the digest to the id. */
  lemma IdsCollideOnlyWithTheHash(hash: NameHash, a: Key, b: Key)
    requires SlashFree(a.namespace) && SlashFree(b.namespace)
    ensures DeterministicId(hash, a) == DeterministicId(hash, b) <==>
            a == b || (HashedName(a) != HashedName(b) && Stamp(hash(HashedName(a))) == Stamp(hash(HashedName(b))))
  {
    var u, v := Stamp(hash(HashedName(a))), Stamp(hash(HashedName(b)));
    DashlessUuid(u);
    DashlessUuid(v);
    if HexText(u) == HexText(v) { HexTextInjective(u, v); }
    HashedNameInjective(a, b);
  }
}
