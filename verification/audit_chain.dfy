/** pkg/audit/hmac.go: the keyed chain over audit records.  The HMAC-SHA256 function is a
    parameter; nothing is assumed about it except that its results are 32 bytes. */
module AuditChain {
  import opened Json
  import opened Canonical
  import RoundTrip
  import Decoded

  predicate IsDigest(d: string) {
    |d| == 32 && forall k | 0 <= k < 32 :: d[k] < '\U{100}'
  }

  type Digest = d: string | IsDigest(d) witness "\0\0\0\0\0\0\0\0\0\0\0\0\0\0\0\0\0\0\0\0\0\0\0\0\0\0\0\0\0\0\0\0"

  /** The chain key, the keyed hash, the genesis seed, and which number texts fit in a float64. */
  datatype Keyed = Keyed(key: string, mac: (string, string) -> Digest, genesis: Digest, fits: string -> bool)

  // ----- Hexadecimal -----

  /** hex.EncodeToString. */
  function HexEncode(d: string): string
    requires forall k | 0 <= k < |d| :: d[k] < '\U{100}'
  {
    if d == "" then ""
    else [HexDigit(d[0] as int / 16), HexDigit(d[0] as int % 16)] + HexEncode(d[1..])
  }

  /** hex.DecodeString. */
  function HexDecode(s: string): Option<string> {
    if s == "" then Some("")
    else if |s| == 1 then None
    else
      match (HexValue(s[0]), HexValue(s[1]), HexDecode(s[2..]))
      case (Some(hi), Some(lo), Some(rest)) =>
        if hi < 16 && lo < 16 then Some([(16 * hi + lo) as char] + rest) else None
      case _ => None
  }

  lemma {:induction false} HexRoundTrip(d: string)
    requires forall k | 0 <= k < |d| :: d[k] < '\U{100}'
    ensures HexDecode(HexEncode(d)) == Some(d)
    decreases |d|
  {
    hide HexDigit, HexValue;
    if d != "" {
      var c := d[0] as int;
      RoundTrip.HexDigitValue(c / 16);
      RoundTrip.HexDigitValue(c % 16);
      HexRoundTrip(d[1..]);
      assert [d[0]] + d[1..] == d;
    }
  }

  // ----- Records -----

  /** json.Decoder.Decode into a map: an object, or null, which leaves a nil map. */
  function DecodeMap(raw: string): Option<map<string, Value>> {
    match DecodeFirst(raw)
    case Some(Obj(m)) => Some(m)
    case Some(Null) => Some(map[])
    case _ => None
  }

  const HMAC := "hmac"

  /** canonicalJSONWithoutHMAC. */
  ghost function CanonicalWithoutHmac(raw: string): Option<string> {
    match DecodeMap(raw)
    case Some(m) => Some(Print(GoMarshal, Obj(m - {HMAC})))
    case None => None
  }

  /** computeEntryHMAC. */
  function ComputeEntryHmac(c: Keyed, prev: string, canonical: string): Digest {
    c.mac(c.key, prev + canonical)
  }

  /** The digest a decoded record carries in its hmac field. */
  function StampOf(m: map<string, Value>): Option<Digest> {
    if HMAC in m && m[HMAC].Str? then
      match HexDecode(m[HMAC].s)
      case Some(d) => if IsDigest(d) then Some(d) else None
      case None => None
    else None
  }

  /** json.Marshal of a decoded record: encoding/json sorts map keys, so this is Print again. */
  ghost function Stamped(m: map<string, Value>, mac: Digest): string {
    Print(GoMarshal, Obj(m[HMAC := Str(HexEncode(mac))]))
  }

  /** embedHMAC on an object: the line to write and its digest. */
  ghost function Embed(c: Keyed, m: map<string, Value>, prev: string): (string, Digest) {
    var mac := ComputeEntryHmac(c, prev, Print(GoMarshal, Obj(m - {HMAC})));
    (Stamped(m, mac), mac)
  }

  lemma EmptyUtf8()
    ensures ValidUtf8("")
  {
  }

  lemma {:induction false} HexUtf8(d: string)
    requires forall k | 0 <= k < |d| :: d[k] < '\U{100}'
    ensures ValidUtf8(HexEncode(d))
    decreases |d|
  {
    hide HexDigit, ValidUtf8;
    if d == "" {
      EmptyUtf8();
    } else {
      HexUtf8(d[1..]);
      DigitsUtf8(d[0] as int / 16, d[0] as int % 16);
      Decoded.Utf8Concat([HexDigit(d[0] as int / 16), HexDigit(d[0] as int % 16)], HexEncode(d[1..]));
    }
  }

  lemma DigitsUtf8(a: nat, b: nat)
    requires a < 16 && b < 16
    ensures ValidUtf8([HexDigit(a), HexDigit(b)])
  {
    hide ValidUtf8;
    Decoded.AsciiValid(HexDigit(a));
    Decoded.AsciiValid(HexDigit(b));
    Decoded.Utf8Concat([HexDigit(a)], [HexDigit(b)]);
    assert [HexDigit(a)] + [HexDigit(b)] == [HexDigit(a), HexDigit(b)];
  }

  /** A stamped record reads back as the record that was stamped, with the digest in place. */
  lemma StampedReads(m: map<string, Value>, mac: Digest)
    requires Clean(Obj(m))
    ensures DecodeWhole(Stamped(m, mac)) == Some(Obj(m[HMAC := Str(HexEncode(mac))]))
    ensures DecodeMap(Stamped(m, mac)) == Some(m[HMAC := Str(HexEncode(mac))])
    ensures StampOf(m[HMAC := Str(HexEncode(mac))]) == Some(mac)
  {
    hide HexEncode, HexDecode, DecodeFirst, DecodeWhole, Print;
    HexUtf8(mac);
    HexRoundTrip(mac);
    HmacKeyUtf8();
    RoundTrip.PrintThenRead(GoMarshal, Obj(m[HMAC := Str(HexEncode(mac))]));
  }

  lemma HmacKeyUtf8()
    ensures ValidUtf8(HMAC)
  {
    assert HMAC[1..] == "mac" && "mac"[1..] == "ac" && "ac"[1..] == "c" && "c"[1..] == "";
    assert ValidUtf8("c") && ValidUtf8("ac") && ValidUtf8("mac");
  }

  /** Stamping does not change the canonical form the digest is computed over. */
  lemma EmbedKeepsCanonical(c: Keyed, raw: string, prev: string)
    requires DecodeMap(raw).Some?
    ensures var (line, mac) := Embed(c, DecodeMap(raw).value, prev);
            CanonicalWithoutHmac(line) == CanonicalWithoutHmac(raw)
            && mac == ComputeEntryHmac(c, prev, CanonicalWithoutHmac(line).value)
            && DecodeMap(line).Some? && StampOf(DecodeMap(line).value) == Some(mac)
  {
    hide DecodeFirst, Print, StampOf;
    var m := DecodeMap(raw).value;
    MapClean(raw);
    var mac := Embed(c, m, prev).1;
    StampedReads(m, mac);
    assert m[HMAC := Str(HexEncode(mac))] - {HMAC} == m - {HMAC};
  }

  lemma MapClean(raw: string)
    requires DecodeMap(raw).Some?
    ensures Clean(Obj(DecodeMap(raw).value))
  {
    hide ParseValue;
    Decoded.ValueClean(SkipSpace(raw));
  }

  // ----- The chain -----

  /** What the verifier looks at in one record: the digest it carries and its canonical bytes. */
  datatype Link = Link(stamp: Digest, canonical: string)

  ghost predicate Chain(c: Keyed, prev: Digest, links: seq<Link>)
    decreases |links|
  {
    links == [] ||
    (links[0].stamp == ComputeEntryHmac(c, prev, links[0].canonical) && Chain(c, links[0].stamp, links[1..]))
  }

  ghost function End(prev: Digest, links: seq<Link>): Digest {
    if links == [] then prev else links[|links| - 1].stamp
  }

  lemma {:induction false} ChainConcat(c: Keyed, prev: Digest, a: seq<Link>, b: seq<Link>)
    ensures Chain(c, prev, a + b) <==> Chain(c, prev, a) && Chain(c, End(prev, a), b)
    decreases |a|
  {
    if a == [] {
      assert a + b == b;
    } else {
      assert (a + b)[0] == a[0] && (a + b)[1..] == a[1..] + b;
      ChainConcat(c, a[0].stamp, a[1..], b);
    }
  }

  /** The bytes hashed for record i. */
  ghost function Input(prev: Digest, links: seq<Link>, i: nat): string
    requires i < |links|
  {
    End(prev, links[..i]) + links[i].canonical
  }

  /** Two different inputs, one from each chain, with one digest. */
  ghost predicate Collides(c: Keyed, prev: Digest, a: seq<Link>, b: seq<Link>) {
    exists i, j :: 0 <= i < |a| && 0 <= j < |b| && Input(prev, a, i) != Input(prev, b, j)
                   && c.mac(c.key, Input(prev, a, i)) == c.mac(c.key, Input(prev, b, j))
  }

  /** Some record of the chain hashes to the chain's own seed. */
  ghost predicate HitsSeed(c: Keyed, prev: Digest, a: seq<Link>) {
    exists i :: 0 <= i < |a| && c.mac(c.key, Input(prev, a, i)) == prev
  }

  /** The keyed hash has failed: a collision between the two chains, or a digest equal to the seed. */
  ghost predicate HashBroken(c: Keyed, prev: Digest, a: seq<Link>, b: seq<Link>) {
    Collides(c, prev, a, b) || HitsSeed(c, prev, a) || HitsSeed(c, prev, b)
  }

  lemma BrokenGrows(c: Keyed, prev: Digest, a: seq<Link>, b: seq<Link>)
    requires a != [] && b != [] && HashBroken(c, prev, a[..|a| - 1], b[..|b| - 1])
    ensures HashBroken(c, prev, a, b)
  {
    var a', b' := a[..|a| - 1], b[..|b| - 1];
    InputFront(prev, a);
    InputFront(prev, b);
    if Collides(c, prev, a', b') {
      var i, j :| 0 <= i < |a'| && 0 <= j < |b'| && Input(prev, a', i) != Input(prev, b', j)
                  && c.mac(c.key, Input(prev, a', i)) == c.mac(c.key, Input(prev, b', j));
      assert Input(prev, a, i) == Input(prev, a', i) && Input(prev, b, j) == Input(prev, b', j);
    } else if HitsSeed(c, prev, a') {
      var i :| 0 <= i < |a'| && c.mac(c.key, Input(prev, a', i)) == prev;
      assert Input(prev, a, i) == Input(prev, a', i);
    } else {
      var i :| 0 <= i < |b'| && c.mac(c.key, Input(prev, b', i)) == prev;
      assert Input(prev, b, i) == Input(prev, b', i);
    }
  }

  lemma InputFront(prev: Digest, a: seq<Link>)
    ensures forall i | 0 <= i < |a| - 1 :: Input(prev, a, i) == Input(prev, a[..|a| - 1], i)
  {
    forall i | 0 <= i < |a| - 1 ensures Input(prev, a, i) == Input(prev, a[..|a| - 1], i) {
      assert a[..|a| - 1][..i] == a[..i];
    }
  }

  /** The last record of a verified chain is the digest of its own input. */
  lemma LastInput(c: Keyed, prev: Digest, a: seq<Link>)
    requires a != [] && Chain(c, prev, a)
    ensures Chain(c, prev, a[..|a| - 1])
    ensures End(prev, a) == c.mac(c.key, Input(prev, a, |a| - 1))
  {
    var n := |a| - 1;
    assert a == a[..n] + [a[n]];
    ChainConcat(c, prev, a[..n], [a[n]]);
  }

  lemma CollisionBreaks(c: Keyed, seed: Digest, a: seq<Link>, b: seq<Link>)
    requires Collides(c, seed, a, b)
    ensures HashBroken(c, seed, a, b)
  {
  }

  /** Two chains verified from one seed that end in the same digest are the same chain, unless the
      hash is broken: the two witnesses are inputs taken from the chains themselves. */
  lemma {:induction false} SameEndSameChain(c: Keyed, seed: Digest, a: seq<Link>, b: seq<Link>)
    requires Chain(c, seed, a) && Chain(c, seed, b) && End(seed, a) == End(seed, b)
    ensures a == b || HashBroken(c, seed, a, b)
    decreases |a|
  {
    hide Chain, HashBroken;
    if a == [] && b == [] {
    } else if a == [] || b == [] {
      SeedHit(c, seed, a, b);
    } else {
      var a', b' := a[..|a| - 1], b[..|b| - 1];
      LastInput(c, seed, a);
      LastInput(c, seed, b);
      var x, y := Input(seed, a, |a| - 1), Input(seed, b, |b| - 1);
      if x != y {
        assert Collides(c, seed, a, b);
        CollisionBreaks(c, seed, a, b);
      } else {
        PrefixInjective(End(seed, a'), a[|a| - 1].canonical, End(seed, b'), b[|b| - 1].canonical);
        SameEndSameChain(c, seed, a', b');
        if a' == b' {
          assert a == a' + [a[|a| - 1]] && b == b' + [b[|b| - 1]];
        } else {
          BrokenGrows(c, seed, a, b);
        }
      }
    }
  }

  lemma SeedHit(c: Keyed, seed: Digest, a: seq<Link>, b: seq<Link>)
    requires Chain(c, seed, a) && Chain(c, seed, b) && End(seed, a) == End(seed, b)
    requires (a == []) != (b == [])
    ensures HashBroken(c, seed, a, b)
  {
    if a == [] {
      LastInput(c, seed, b);
      assert HitsSeed(c, seed, b);
    } else {
      LastInput(c, seed, a);
      assert HitsSeed(c, seed, a);
    }
  }

  /** Digests are 32 bytes, so the concatenation hashed for a record splits in one way only. */
  lemma PrefixInjective(p: Digest, s: string, q: Digest, t: string)
    requires p + s == q + t
    ensures p == q && s == t
  {
    assert (p + s)[..32] == p && (q + t)[..32] == q;
    assert (p + s)[32..] == s && (q + t)[32..] == t;
  }

  /** Replace the records a[i..j] of a verified log by any others.  If the result still verifies
      through the record that followed them, nothing was replaced -- or the hash is broken.  Editing,
      removing, inserting and reordering are the instances of |x| and j - i. */
  lemma SpliceDetected(c: Keyed, seed: Digest, a: seq<Link>, i: nat, j: nat, x: seq<Link>)
    requires Chain(c, seed, a) && i <= j < |a|
    requires Chain(c, seed, a[..i] + x + [a[j]])
    ensures x == a[i..j] || HashBroken(c, seed, a[..j + 1], a[..i] + x + [a[j]])
  {
    hide Chain, HashBroken;
    var good, bad := a[..j + 1], a[..i] + x + [a[j]];
    assert a == good + a[j + 1..];
    ChainConcat(c, seed, good, a[j + 1..]);
    SameEndSameChain(c, seed, good, bad);
    if good == bad {
      assert |x| == j - i;
      assert forall k | 0 <= k < |x| :: x[k] == bad[i + k] && a[i..j][k] == good[i + k];
    }
  }

  /** What the chain does not show: any number of records can be cut off the end. */
  lemma TruncationUndetected(c: Keyed, seed: Digest, a: seq<Link>, n: nat)
    requires Chain(c, seed, a) && n <= |a|
    ensures Chain(c, seed, a[..n])
  {
    assert a == a[..n] + a[n..];
    ChainConcat(c, seed, a[..n], a[n..]);
  }
}
