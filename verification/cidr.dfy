/** 32-bit words as numbers, with the bitwise operators written out bit by bit. */
module Words {
  const WORD: nat := 0x1_0000_0000

  function Pow2(k: nat): (p: nat)
    ensures p >= 1
  {
    if k == 0 then 1 else 2 * Pow2(k - 1)
  }

  function And(x: nat, y: nat): nat
  {
    if x == 0 || y == 0 then 0 else 2 * And(x / 2, y / 2) + if x % 2 == 1 && y % 2 == 1 then 1 else 0
  }

  function Or(x: nat, y: nat): nat
  {
    if x == 0 then y else 2 * Or(x / 2, y / 2) + if x % 2 == 1 || y % 2 == 1 then 1 else 0
  }

  /** x << n on a word; JavaScript uses the low five bits of the count. */
  function Shl(x: nat, n: int): nat
  {
    x * Pow2(n % 32) % WORD
  }

  lemma Pow2Values()
    ensures Pow2(8) == 256 && Pow2(32) == WORD
  {
    assert Pow2(8) == 256;
    Pow2Add(8, 8);
    Pow2Add(16, 16);
  }

  lemma {:induction false} Pow2Add(a: nat, b: nat)
    ensures Pow2(a + b) == Pow2(a) * Pow2(b)
  {
    if b > 0 {
      Pow2Add(a, b - 1);
      assert Pow2(a) * (2 * Pow2(b - 1)) == 2 * (Pow2(a) * Pow2(b - 1));
    }
  }

  lemma {:induction false} Pow2Monotone(a: nat, b: nat)
    requires a <= b
    ensures Pow2(a) <= Pow2(b)
  {
    if a < b { Pow2Monotone(a, b - 1); }
  }

  lemma ModHalf(x: nat, p: nat)
    requires p >= 1
    ensures x % (2 * p) == 2 * ((x / 2) % p) + x % 2
    ensures x / (2 * p) == (x / 2) / p
  {
    var h := x / 2;
    var q, r := h / p, h % p;
    assert h == q * p + r;
    Double(q, p);
    DivModUnique(x, 2 * p, q, 2 * r + x % 2);
  }

  lemma Double(q: int, p: int)
    ensures q * (2 * p) == 2 * (q * p)
  {
  }

  lemma QuotientUnique(d: nat, q: nat, r: nat, q': nat, r': nat)
    requires r < d && r' < d && q * d + r == q' * d + r'
    ensures q == q' && r == r'
  {
    if q < q' { StepAtLeast(q' - q, d, q, q'); }
    if q' < q { StepAtLeast(q - q', d, q', q); }
  }

  lemma StepAtLeast(k: nat, d: nat, low: nat, high: nat)
    requires k >= 1 && high == low + k
    ensures high * d >= low * d + d
  {
    assert high * d == low * d + k * d;
    assert k * d == d + (k - 1) * d;
  }

  lemma DivModUnique(x: nat, d: nat, q: nat, r: nat)
    requires r < d && x == q * d + r
    ensures x / d == q && x % d == r
  {
    QuotientUnique(d, x / d, x % d, q, r);
  }

  lemma AndOdd(x: nat, h: nat)
    ensures And(x, 2 * h + 1) == 2 * And(x / 2, h) + x % 2
  {
    assert (2 * h + 1) / 2 == h && (2 * h + 1) % 2 == 1;
  }

  lemma AndEven(x: nat, h: nat)
    ensures And(x, 2 * h) == 2 * And(x / 2, h)
  {
    assert (2 * h) / 2 == h && (2 * h) % 2 == 0;
  }

  /** The n low bits of x. */
  function Low(x: nat, n: nat): nat
  {
    if n == 0 then 0 else 2 * Low(x / 2, n - 1) + x % 2
  }

  lemma {:induction false} LowIsRemainder(x: nat, n: nat)
    ensures Low(x, n) == x % Pow2(n)
  {
    if n > 0 {
      LowIsRemainder(x / 2, n - 1);
      ModHalf(x, Pow2(n - 1));
    }
  }

  lemma {:induction false} AndAllOnes(x: nat, w: nat)
    requires x < Pow2(w)
    ensures And(x, Pow2(w) - 1) == x
  {
    if w > 0 {
      AndAllOnes(x / 2, w - 1);
      AndOdd(x, Pow2(w - 1) - 1);
    }
  }

  /** And with the mask of the w - n high bits of a w-bit word clears the n low bits. */
  lemma {:induction false} AndHighMask(x: nat, w: nat, n: nat)
    requires n <= w && x < Pow2(w)
    ensures Pow2(n) <= Pow2(w)
    ensures And(x, Pow2(w) - Pow2(n)) == x - Low(x, n)
    decreases n
  {
    Pow2Monotone(n, w);
    if n == 0 {
      AndAllOnes(x, w);
    } else {
      var h := Pow2(w - 1) - Pow2(n - 1);
      AndHighMask(x / 2, w - 1, n - 1);
      AndEven(x, h);
      assert Pow2(w) - Pow2(n) == 2 * h;
      assert And(x, 2 * h) == 2 * (x / 2 - Low(x / 2, n - 1));
    }
  }

  lemma {:induction false} OrZero(x: nat)
    ensures Or(x, 0) == x
  {
    if x > 0 { OrZero(x / 2); }
  }

  /** a with n zero bits appended. */
  function Appended(a: nat, n: nat): nat
  {
    if n == 0 then a else 2 * Appended(a, n - 1)
  }

  lemma {:induction false} AppendedIsTimes(a: nat, n: nat)
    ensures Appended(a, n) == a * Pow2(n)
  {
    if n > 0 {
      AppendedIsTimes(a, n - 1);
      Double(a, Pow2(n - 1));
    }
  }

  lemma OrEven(h: nat, p: nat)
    ensures Or(2 * h, p) == 2 * Or(h, p / 2) + p % 2
  {
    assert (2 * h) / 2 == h && (2 * h) % 2 == 0;
  }

  /** Or of a shifted word and a number that fits into the gap is their sum. */
  lemma {:induction false} OrLowBits(a: nat, n: nat, p: nat)
    requires p < Pow2(n)
    ensures Or(Appended(a, n), p) == Appended(a, n) + p
  {
    if n == 0 {
      OrZero(a);
    } else {
      OrLowBits(a, n - 1, p / 2);
      OrEven(Appended(a, n - 1), p);
    }
  }
}

/** The IPv4 allowlist of an API key. Prefix notation is that of section 3.1 of RFC 4632. */
module Cidr {
  import opened Options
  import opened Words

  /** An address as text, and its dot-separated parts read as 32-bit words. */
  datatype Address = Address(text: string, parts: seq<nat>)

  /** An allowlist entry: without a slash, or a range with a prefix length. */
  datatype Entry = Exact(text: string) | Range(parts: seq<nat>, prefixLen: int)

  /** The reduce over the parts: shift a byte in, each time. */
  function Pack(parts: seq<nat>): nat
  {
    if parts == [] then 0 else Or(Shl(Pack(parts[..|parts| - 1]), 8), parts[|parts| - 1])
  }

  function Mask(prefixLen: int): nat
  {
    if prefixLen == 0 then 0 else Shl(WORD - 1, 32 - prefixLen)
  }

  predicate IpMatches(ip: Address, entry: Entry)
  {
    match entry
    case Exact(text) => ip.text == text
    case Range(parts, prefixLen) =>
      if |ip.parts| != 4 || |parts| != 4 then false
      else And(Pack(ip.parts), Mask(prefixLen)) == And(Pack(parts), Mask(prefixLen))
  }

  predicate IsIpAllowed(client: Option<Address>, allowed: seq<Entry>)
  {
    if allowed == [] then true
    else match client
      case None => false
      case Some(ip) => exists i :: 0 <= i < |allowed| && IpMatches(ip, allowed[i])
  }

  predicate Octets(parts: seq<nat>)
  {
    |parts| == 4 && forall i :: 0 <= i < 4 ==> parts[i] <= 255
  }

  /** The number a dotted quad stands for. */
  function Number(parts: seq<nat>): (n: nat)
    requires Octets(parts)
    ensures n < WORD
  {
    parts[0] * 0x100_0000 + parts[1] * 0x1_0000 + parts[2] * 0x100 + parts[3]
  }

  lemma ShlByte(acc: nat)
    requires acc < 0x100_0000
    ensures Shl(acc, 8) == acc * 256
  {
    Pow2Values();
    assert 8 % 32 == 8;
  }

  lemma AppendedByte(acc: nat)
    ensures Appended(acc, 8) == acc * 256
  {
    Pow2Values();
    AppendedIsTimes(acc, 8);
  }

  lemma ShiftInByte(acc: nat, p: nat)
    requires acc < 0x100_0000 && p <= 255
    ensures Or(Shl(acc, 8), p) == acc * 256 + p
  {
    ShlByte(acc);
    AppendedByte(acc);
    assert p < Pow2(8) by { Pow2Values(); }
    OrLowBits(acc, 8, p);
  }

  lemma PackIsNumber(parts: seq<nat>)
    requires Octets(parts)
    ensures Pack(parts) == Number(parts)
  {
    var a, b, c := parts[..1], parts[..2], parts[..3];
    assert a[..0] == [] && b[..1] == a && c[..2] == b;
    ShiftInByte(0, parts[0]);
    assert Pack(a) == parts[0];
    ShiftInByte(Pack(a), parts[1]);
    assert Pack(b) == parts[0] * 256 + parts[1];
    ShiftInByte(Pack(b), parts[2]);
    ShiftInByte(Pack(c), parts[3]);
  }

  lemma MaskIsHighBits(prefixLen: int)
    ensures prefixLen != 0 ==>
              var n := (32 - prefixLen) % 32; Pow2(n) <= Pow2(32) && Mask(prefixLen) == Pow2(32) - Pow2(n)
  {
    if prefixLen != 0 {
      var n := (32 - prefixLen) % 32;
      Pow2Values();
      Pow2Monotone(n, 32);
      Pow2Add(32 - n, n);
      var p := Pow2(n);
      assert (WORD - 1) * p == (p - 1) * WORD + (WORD - p);
      DivModUnique((WORD - 1) * p, WORD, p - 1, WORD - p);
    }
  }

  lemma EqualHighPart(x: nat, y: nat, p: nat)
    requires p >= 1
    ensures x - x % p == y - y % p <==> x / p == y / p
  {
    var a, b := x / p, y / p;
    assert x - x % p == a * p && y - y % p == b * p;
    if a * p == b * p { QuotientUnique(p, a, 0, b, 0); }
  }

  /** How many leading bits a prefix length really compares: shifts wrap at 32, so a length
      outside 0..32 stands for the one it equals modulo 32 (32 for the multiples of 32). */
  function ComparedBits(prefixLen: int): nat
  {
    if prefixLen == 0 then 0 else 32 - (32 - prefixLen) % 32
  }

  /** The mask test holds exactly when the addresses agree on the leading bits: their numbers
      have the same quotient by 2^(32 - bits). For a prefix length of 0 to 32 those are that many
      bits. */
  lemma MatchesIffLeadingBitsAgree(ip: Address, range: seq<nat>, prefixLen: int)
    requires Octets(ip.parts) && Octets(range)
    ensures IpMatches(ip, Range(range, prefixLen)) <==>
              var rest := 32 - ComparedBits(prefixLen);
              Number(ip.parts) / Pow2(rest) == Number(range) / Pow2(rest)
    ensures 0 <= prefixLen <= 32 ==> ComparedBits(prefixLen) == prefixLen
  {
    NumberTest(ip, range, prefixLen);
    WholePrefix(prefixLen);
    WordTest(Number(ip.parts), Number(range), prefixLen);
  }

  lemma WholePrefix(prefixLen: int)
    ensures 0 <= prefixLen <= 32 ==> ComparedBits(prefixLen) == prefixLen
  {
  }

  /** The test is the mask test on the addresses' numbers. */
  lemma NumberTest(ip: Address, range: seq<nat>, prefixLen: int)
    requires Octets(ip.parts) && Octets(range)
    ensures IpMatches(ip, Range(range, prefixLen)) <==>
              And(Number(ip.parts), Mask(prefixLen)) == And(Number(range), Mask(prefixLen))
  {
    PackIsNumber(ip.parts);
    PackIsNumber(range);
  }

  lemma WordTest(x: nat, y: nat, prefixLen: int)
    requires x < WORD && y < WORD
    ensures And(x, Mask(prefixLen)) == And(y, Mask(prefixLen)) <==>
              x / Pow2(32 - ComparedBits(prefixLen)) == y / Pow2(32 - ComparedBits(prefixLen))
  {
    Pow2Values();
    if prefixLen != 0 {
      var n := (32 - prefixLen) % 32;
      MaskIsHighBits(prefixLen);
      AndHighMask(x, 32, n);
      AndHighMask(y, 32, n);
      LowIsRemainder(x, n);
      LowIsRemainder(y, n);
      EqualHighPart(x, y, Pow2(n));
    } else {
      DivModUnique(x, WORD, 0, x);
      DivModUnique(y, WORD, 0, y);
    }
  }

  /** A prefix length above 32 is not refused: /33 to /64 act as /1 to /32. */
  lemma LongPrefixWraps(ip: Address, range: seq<nat>, k: nat)
    requires 1 <= k <= 32
    ensures IpMatches(ip, Range(range, 32 + k)) == IpMatches(ip, Range(range, k))
  {
    assert (32 - (32 + k)) % 32 == (32 - k) % 32;
  }

  /** A longer prefix is a smaller range. */
  lemma PrefixesNest(ip: Address, range: seq<nat>, short: nat, long: nat)
    requires Octets(ip.parts) && Octets(range) && short <= long <= 32
    requires IpMatches(ip, Range(range, long))
    ensures IpMatches(ip, Range(range, short))
  {
    MatchesIffLeadingBitsAgree(ip, range, short);
    MatchesIffLeadingBitsAgree(ip, range, long);
    QuotientNests(Number(ip.parts), 32 - long, long - short);
    QuotientNests(Number(range), 32 - long, long - short);
  }

  lemma {:induction false} QuotientNests(x: nat, a: nat, b: nat)
    ensures x / Pow2(a + b) == (x / Pow2(a)) / Pow2(b)
  {
    if a > 0 {
      ModHalf(x, Pow2(a - 1 + b));
      ModHalf(x, Pow2(a - 1));
      QuotientNests(x / 2, a - 1, b);
    }
  }

  /** What the allowlist lets in, without the masks: everyone when it is empty; else a client whose text
      is an entry without a slash, or whose number has the leading bits of a range. */
  ghost predicate LetIn(ip: Address, entry: Entry)
    requires Octets(ip.parts)
  {
    match entry
    case Exact(text) => ip.text == text
    case Range(parts, k) =>
      Octets(parts) && 0 <= k <= 32 && Number(ip.parts) / Pow2(32 - k) == Number(parts) / Pow2(32 - k)
  }

  lemma MatchesIffLetIn(ip: Address, entry: Entry)
    requires Octets(ip.parts)
    requires entry.Range? && |entry.parts| == 4 ==> Octets(entry.parts) && 0 <= entry.prefixLen <= 32
    ensures IpMatches(ip, entry) <==> LetIn(ip, entry)
  {
    if entry.Range? && |entry.parts| == 4 { MatchesIffLeadingBitsAgree(ip, entry.parts, entry.prefixLen); }
  }

  lemma AllowedIffLetIn(client: Option<Address>, allowed: seq<Entry>)
    requires client.Some? ==> Octets(client.value.parts)
    requires forall i :: 0 <= i < |allowed| && allowed[i].Range? && |allowed[i].parts| == 4 ==>
               Octets(allowed[i].parts) && 0 <= allowed[i].prefixLen <= 32
    ensures IsIpAllowed(client, allowed) <==>
              allowed == [] || (client.Some? && exists i :: 0 <= i < |allowed| && LetIn(client.value, allowed[i]))
  {
    if client.Some? {
      forall i | 0 <= i < |allowed| ensures IpMatches(client.value, allowed[i]) <==> LetIn(client.value, allowed[i]) {
        MatchesIffLetIn(client.value, allowed[i]);
      }
    }
  }

  /** An entry without a slash lets in one text only. */
  lemma ExactEntryLetsInOne(client: Address, text: string)
    ensures IsIpAllowed(Some(client), [Exact(text)]) <==> client.text == text
  {
    assert IsIpAllowed(Some(client), [Exact(text)]) <==> IpMatches(client, [Exact(text)][0]);
  }

  /** Adding entries to a non-empty allowlist never removes an allowed client; adding the first
      entry to an empty one does, for every client the new entries do not match. */
  lemma EnlargingAllowlist(client: Option<Address>, allowed: seq<Entry>, more: seq<Entry>)
    ensures allowed != [] && IsIpAllowed(client, allowed) ==> IsIpAllowed(client, allowed + more)
    ensures allowed == [] && more != [] ==>
              IsIpAllowed(client, allowed)
              && (IsIpAllowed(client, allowed + more) <==>
                    client.Some? && exists i :: 0 <= i < |more| && IpMatches(client.value, more[i]))
  {
    if allowed != [] && IsIpAllowed(client, allowed) {
      var i :| 0 <= i < |allowed| && IpMatches(client.value, allowed[i]);
      assert (allowed + more)[i] == allowed[i];
    }
    if allowed == [] { assert allowed + more == more; }
  }
}
