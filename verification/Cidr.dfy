/** IP addresses and CIDR blocks as the node's route policy matcher sees them. */
module Cidr {
  import opened Bits
  import opened Text

  datatype Ip = V4(bits4: nat) | V6(bits6: nat)

  /** The width of a family and the number its address stands for. */
  function Width(ip: Ip): nat {
    if ip.V4? then 32 else 128
  }

  function Number(ip: Ip): nat {
    if ip.V4? then ip.bits4 else ip.bits6
  }

  ghost predicate IsAddress(ip: Ip) {
    Number(ip) < Pow2(Width(ip))
  }

  /** `x << k` on w-bit words; the shift amount must be below the width. */
  function ShiftLeft(w: nat, x: nat, k: nat): nat
    requires k < w
  {
    x * Pow2(k) % Pow2(w)
  }

  /** The network mask of a prefix length: a shift of the all-ones word, with prefix 0 apart because
      shifting by the whole width is not defined. */
  function Mask(w: nat, prefix: nat): nat
    requires prefix <= w
  {
    if prefix == 0 then 0 else ShiftLeft(w, Pow2(w) - 1, w - prefix)
  }

  predicate MaskedEqual(w: nat, x: nat, base: nat, prefix: nat)
    requires prefix <= w
  {
    And(x, Mask(w, prefix)) == And(base, Mask(w, prefix))
  }

  /** First occurrence of a separator, as `str::split_once`. */
  function SplitOnce(s: string, sep: char): (r: Option<(string, string)>)
    ensures r.None? <==> sep !in s
    ensures r.Some? ==> s == r.value.0 + [sep] + r.value.1 && sep !in r.value.0
  {
    if s == [] then None
    else if s[0] == sep then Some(([], s[1..]))
    else
      match SplitOnce(s[1..], sep)
      case None => None
      case Some((head, tail)) => Some(([s[0]] + head, tail))
  }

  /** `parse` stands for the address parser of the standard library. */
  function IpInCidr(parse: string -> Option<Ip>, host: string, cidr: string): bool {
    match parse(host)
    case None => false
    case Some(ip) =>
      match SplitOnce(cidr, '/')
      case None => EqIgnoreCase(host, cidr)
      case Some((baseText, prefixText)) =>
        match (ParseUnsigned(prefixText, 255), parse(baseText))
        case (Some(prefix), Some(base)) =>
          if ip.V4? && base.V4? && prefix <= 32 then MaskedEqual(32, ip.bits4, base.bits4, prefix)
          else if ip.V6? && base.V6? && prefix <= 128 then MaskedEqual(128, ip.bits6, base.bits6, prefix)
          else false
        case _ => false
  }

  /** The mask is `prefix` ones followed by zeros, at every prefix length including 0. */
  lemma MaskShape(w: nat, prefix: nat)
    requires prefix <= w
    ensures Mask(w, prefix) == (Pow2(prefix) - 1) * Pow2(w - prefix)
  {
    if prefix > 0 {
      Pow2Sum(prefix, w - prefix);
      ShiftedOnes(Pow2(prefix), Pow2(w - prefix));
    }
  }

  /** All ones shifted out of a word of m * d values. */
  lemma ShiftedOnes(m: nat, d: nat)
    requires m >= 1 && d >= 1
    ensures m * d >= 1 && (m * d - 1) * d % (m * d) == (m - 1) * d
  {
    var t := m * d;
    MulOrder(1, m, d);
    LessOne(m, d);
    LessOne(t, d);
    LessOne(d, t);
    RemainderOf((t - 1) * d, t, d - 1, (m - 1) * d);
  }

  lemma LessOne(a: int, b: int)
    ensures (a - 1) * b == a * b - b && a * b == b * a
  {
  }

  lemma RemainderOf(x: nat, m: nat, q: nat, r: nat)
    requires r < m && x == q * m + r
    ensures x % m == r
  {
    QuotientOf(x, m, q);
  }

  /** What a CIDR comparison means: masked words agree exactly when the quotients by the block size
      agree, exactly when the top `prefix` bits agree, exactly when x lies in the aligned interval of
      2^(w - prefix) addresses that holds the base. */
  lemma MaskedMeansBlock(w: nat, x: nat, base: nat, prefix: nat)
    requires prefix <= w && x < Pow2(w) && base < Pow2(w)
    ensures MaskedEqual(w, x, base, prefix) <==> forall i :: w - prefix <= i < w ==> Bit(x, i) == Bit(base, i)
    ensures MaskedEqual(w, x, base, prefix) <==> InBlock(w, x, base, prefix)
  {
    var k := w - prefix;
    MaskShape(w, prefix);
    AndHighOnes(x, prefix, k);
    AndHighOnes(base, prefix, k);
    SameProduct(x / Pow2(k), base / Pow2(k), Pow2(k));
    SameHighBits(x, base, k, w);
    IntervalOfQuotient(x, base, Pow2(k));
  }

  lemma IntervalOfQuotient(x: nat, base: nat, d: nat)
    requires d >= 1
    ensures x / d == base / d <==> base / d * d <= x < base / d * d + d
  {
    var low := base / d * d;
    assert x / d * d <= x < x / d * d + d;
    if low <= x < low + d {
      QuotientOf(x, d, base / d);
    }
  }

  lemma SameProduct(a: nat, b: nat, d: nat)
    requires d >= 1
    ensures a * d == b * d <==> a == b
  {
    MulOrder(a + 1, b, d);
    MulOrder(b + 1, a, d);
  }

  /** The block of an address: the aligned interval of 2^(w - prefix) numbers around it. */
  ghost predicate InBlock(w: nat, x: nat, base: nat, prefix: nat)
    requires prefix <= w
  {
    var size := Pow2(w - prefix);
    base / size * size <= x < base / size * size + size
  }

  /** Two blocks are nested or disjoint: either every address of the longer prefix lies in the
      shorter one, or none does. */
  lemma BlocksNestedOrDisjoint(w: nat, a: nat, p: nat, b: nat, q: nat)
    requires p <= q <= w && a < Pow2(w) && b < Pow2(w)
    ensures
      || (forall x: nat :: x < Pow2(w) && MaskedEqual(w, x, b, q) ==> MaskedEqual(w, x, a, p))
      || (forall x: nat :: x < Pow2(w) && MaskedEqual(w, x, b, q) ==> !MaskedEqual(w, x, a, p))
  {
    forall x: nat | x < Pow2(w) && MaskedEqual(w, x, b, q)
      ensures MaskedEqual(w, x, a, p) <==> MaskedEqual(w, b, a, p)
    {
      MaskedMeansBlock(w, x, b, q);
      MaskedMeansBlock(w, x, a, p);
      MaskedMeansBlock(w, b, a, p);
    }
  }

  /** The block a CIDR text names, read as base, separator and prefix: same family as the address, a
      prefix no longer than the family's width, and the address inside the block. */
  ghost predicate BlockHolds(parse: string -> Option<Ip>, ip: Ip, cidr: string, baseText: string, prefixText: string) {
    && cidr == baseText + "/" + prefixText && '/' !in baseText
    && ParseUnsigned(prefixText, 255).Some? && parse(baseText).Some?
    && var prefix, base := ParseUnsigned(prefixText, 255).value, parse(baseText).value;
       ip.V4? == base.V4? && prefix <= Width(ip) && InBlock(Width(ip), Number(ip), Number(base), prefix)
  }

  /** What a CIDR test means on every text: a host that is no address is never inside; without a
      separator the texts themselves are compared; otherwise the text must name a block that holds the
      address, so a malformed base or prefix admits nothing. */
  ghost predicate CidrHolds(parse: string -> Option<Ip>, host: string, cidr: string) {
    && parse(host).Some?
    && (if '/' !in cidr then EqIgnoreCase(host, cidr)
        else exists baseText: string, prefixText: string :: BlockHolds(parse, parse(host).value, cidr, baseText, prefixText))
  }

  /** The address parser yields numbers of its family's width. */
  ghost predicate ParsesAddresses(parse: string -> Option<Ip>) {
    forall text :: parse(text).Some? ==> IsAddress(parse(text).value)
  }

  /** The test equals its meaning on every pair of texts. */
  lemma IpInCidrMeaning(parse: string -> Option<Ip>, host: string, cidr: string)
    requires ParsesAddresses(parse)
    ensures IpInCidr(parse, host, cidr) <==> CidrHolds(parse, host, cidr)
  {
    hide MaskedEqual, InBlock, ParseUnsigned, EqIgnoreCase;
    if parse(host).Some? && '/' in cidr {
      var (baseText, prefixText) := SplitOnce(cidr, '/').value;
      SplitIsUnique(cidr, baseText, prefixText);
      if ParseUnsigned(prefixText, 255).Some? && parse(baseText).Some? {
        BlockMeaning(parse(host).value, parse(baseText).value, ParseUnsigned(prefixText, 255).value);
      }
      assert IpInCidr(parse, host, cidr) <==> BlockHolds(parse, parse(host).value, cidr, baseText, prefixText);
    }
  }

  lemma BlockMeaning(ip: Ip, base: Ip, prefix: nat)
    requires IsAddress(ip) && IsAddress(base)
    ensures ip.V4? && base.V4? && prefix <= 32 ==>
      (MaskedEqual(32, ip.bits4, base.bits4, prefix) <==> InBlock(32, ip.bits4, base.bits4, prefix))
    ensures ip.V6? && base.V6? && prefix <= 128 ==>
      (MaskedEqual(128, ip.bits6, base.bits6, prefix) <==> InBlock(128, ip.bits6, base.bits6, prefix))
  {
    hide MaskedEqual, InBlock;
    if ip.V4? && base.V4? && prefix <= 32 {
      MaskedMeansBlock(32, ip.bits4, base.bits4, prefix);
    }
    if ip.V6? && base.V6? && prefix <= 128 {
      MaskedMeansBlock(128, ip.bits6, base.bits6, prefix);
    }
  }

  /** A text splits at its first separator in one way only. */
  lemma SplitIsUnique(cidr: string, baseText: string, prefixText: string)
    requires cidr == baseText + "/" + prefixText && '/' !in baseText
    ensures forall b: string, p: string :: cidr == b + "/" + p && '/' !in b ==> b == baseText && p == prefixText
  {
    forall b: string, p: string | cidr == b + "/" + p && '/' !in b ensures b == baseText && p == prefixText {
      FirstSeparator(baseText, '/', prefixText);
      FirstSeparator(b, '/', p);
    }
  }

  lemma {:induction false} FirstSeparator(head: string, sep: char, tail: string)
    requires sep !in head
    ensures SplitOnce(head + [sep] + tail, sep) == Some((head, tail))
  {
    var s := head + [sep] + tail;
    if head == [] {
      assert s[1..] == tail;
    } else {
      FirstSeparator(head[1..], sep, tail);
      assert s[1..] == head[1..] + [sep] + tail;
      assert [head[0]] + head[1..] == head;
    }
  }
}
