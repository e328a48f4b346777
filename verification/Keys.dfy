/** The bytes of the database keys: why keys of different kinds can be treated as different values. */
module Keys {
  import opened Types
  import opened Storage

  // ----- decimal numbers, as fmt.Sprintf("%09d") prints them -----

  function Digit(d: nat): char
    requires d < 10
  {
    ('0' as int + d) as char
  }

  function Digits(n: nat): (s: string)
    ensures |s| >= 1
  {
    if n < 10 then [Digit(n)] else Digits(n / 10) + [Digit(n % 10)]
  }

  function Zeros(k: nat): string {
    seq(k, i => '0')
  }

  /** Leading zeros up to the width; longer numbers are left alone. */
  function Padded(s: string, width: nat): string {
    Zeros(if |s| < width then width - |s| else 0) + s
  }

  /** A sign takes one of the nine columns. */
  function Decimal(i: int): string {
    if i < 0 then "-" + Padded(Digits(-i), 8) else Padded(Digits(i), 9)
  }

  function BlockIndexKey(index: int): string {
    "block_" + Decimal(index)
  }

  function NumberOf(s: string): int {
    if s == [] then 0 else 10 * NumberOf(s[..|s| - 1]) + (s[|s| - 1] as int - '0' as int)
  }

  function Parse(s: string): int {
    if s != [] && s[0] == '-' then -NumberOf(s[1..]) else NumberOf(s)
  }

  predicate IsDigit(c: char) {
    '0' <= c <= '9'
  }

  lemma {:induction false} DigitsReadBack(n: nat)
    ensures NumberOf(Digits(n)) == n
    ensures forall i | 0 <= i < |Digits(n)| :: IsDigit(Digits(n)[i])
  {
    if n >= 10 {
      DigitsReadBack(n / 10);
      assert Digits(n)[..|Digits(n)| - 1] == Digits(n / 10);
    } else {
      assert NumberOf(Digits(n)[..0]) == 0;
    }
  }

  lemma {:induction false} ZerosCountNothing(k: nat, s: string)
    ensures NumberOf(Zeros(k) + s) == NumberOf(s)
  {
    if s != [] {
      ZerosCountNothing(k, s[..|s| - 1]);
      assert (Zeros(k) + s)[..|Zeros(k) + s| - 1] == Zeros(k) + s[..|s| - 1];
    } else if k > 0 {
      ZerosCountNothing(k - 1, []);
      assert (Zeros(k) + [])[..k - 1] == Zeros(k - 1) + [];
    }
  }

  /** Printing and parsing an index are inverse, for every index and either sign. */
  lemma DecimalReadsBack(i: int)
    ensures Parse(Decimal(i)) == i
  {
    var n := if i < 0 then -i else i;
    DigitsReadBack(n);
    PaddedReadsBack(Digits(n), if i < 0 then 8 else 9);
    if i < 0 {
      assert Decimal(i)[1..] == Padded(Digits(n), 8);
    }
  }

  lemma PaddedReadsBack(digits: string, width: nat)
    requires digits != [] && forall i | 0 <= i < |digits| :: IsDigit(digits[i])
    ensures NumberOf(Padded(digits, width)) == NumberOf(digits)
    ensures Padded(digits, width) != [] && IsDigit(Padded(digits, width)[0])
  {
    ZerosCountNothing(if |digits| < width then width - |digits| else 0, digits);
  }

  lemma BlockKeyIsInjective(i: int, j: int)
    requires BlockIndexKey(i) == BlockIndexKey(j)
    ensures i == j
  {
    assert BlockIndexKey(i)[6..] == Decimal(i) && BlockIndexKey(j)[6..] == Decimal(j);
    DecimalReadsBack(i);
    DecimalReadsBack(j);
  }

  // ----- order -----

  /** The order the database keeps its keys in. */
  predicate Before(a: string, b: string) {
    b != [] && (a == [] || a[0] < b[0] || (a[0] == b[0] && Before(a[1..], b[1..])))
  }

  function Pow10(k: nat): nat {
    if k == 0 then 1 else 10 * Pow10(k - 1)
  }

  /** `n` in exactly `width` columns. */
  function Fixed(n: nat, width: nat): (s: string)
    ensures |s| == width
  {
    if width == 0 then [] else Fixed(n / 10, width - 1) + [Digit(n % 10)]
  }

  lemma {:induction false} BeforeExtend(a: string, b: string, c: char, d: char)
    requires |a| == |b|
    ensures Before(a + [c], b + [d]) <==> Before(a, b) || (a == b && c < d)
  {
    if a != [] {
      BeforeExtend(a[1..], b[1..], c, d);
      assert (a + [c])[1..] == a[1..] + [c] && (b + [d])[1..] == b[1..] + [d];
      assert a == [a[0]] + a[1..] && b == [b[0]] + b[1..];
    } else {
      assert [c][1..] == [] && [d][1..] == [];
    }
  }

  lemma {:induction false} FixedIsOrdered(i: nat, j: nat, width: nat)
    requires i < Pow10(width) && j < Pow10(width)
    ensures Fixed(i, width) == Fixed(j, width) <==> i == j
    ensures Before(Fixed(i, width), Fixed(j, width)) <==> i < j
  {
    if width > 0 {
      FixedIsOrdered(i / 10, j / 10, width - 1);
      BeforeExtend(Fixed(i / 10, width - 1), Fixed(j / 10, width - 1), Digit(i % 10), Digit(j % 10));
      FixedSplits(i, j, width);
    }
  }

  lemma FixedSplits(i: nat, j: nat, width: nat)
    requires width > 0
    ensures Fixed(i, width) == Fixed(j, width)
            <==> Fixed(i / 10, width - 1) == Fixed(j / 10, width - 1) && i % 10 == j % 10
  {
    var a, b := Fixed(i, width), Fixed(j, width);
    assert a[..width - 1] == Fixed(i / 10, width - 1) && a[width - 1] == Digit(i % 10);
    assert b[..width - 1] == Fixed(j / 10, width - 1) && b[width - 1] == Digit(j % 10);
  }

  lemma {:induction false} FixedZero(width: nat)
    ensures Fixed(0, width) == Zeros(width)
  {
    if width > 0 {
      FixedZero(width - 1);
    }
  }

  lemma {:induction false} PaddedIsFixed(n: nat, width: nat)
    requires width > 0 && n < Pow10(width)
    ensures Padded(Digits(n), width) == Fixed(n, width)
    ensures |Digits(n)| <= width
  {
    if n < 10 {
      FixedZero(width - 1);
      assert Fixed(n, width) == Zeros(width - 1) + [Digit(n)];
    } else {
      PaddedIsFixed(n / 10, width - 1);
    }
  }

  /** Below 10^9 the database keeps blocks in the order of their indices. */
  lemma BlockKeysAreOrdered(i: nat, j: nat)
    requires i < 1_000_000_000 && j < 1_000_000_000
    ensures Before(BlockIndexKey(i), BlockIndexKey(j)) <==> i < j
  {
    assert Pow10(9) == 1_000_000_000;
    PaddedIsFixed(i, 9);
    PaddedIsFixed(j, 9);
    FixedIsOrdered(i, j, 9);
    SamePrefix("block_", Decimal(i), Decimal(j));
  }

  lemma {:induction false} SamePrefix(p: string, a: string, b: string)
    ensures Before(p + a, p + b) <==> Before(a, b)
  {
    if p == [] {
      assert p + a == a && p + b == b;
    } else {
      SamePrefix(p[1..], a, b);
      assert (p + a)[1..] == p[1..] + a && (p + b)[1..] == p[1..] + b;
    }
  }

  lemma {:induction false} DigitsSpan(n: nat)
    ensures n < Pow10(|Digits(n)|)
    ensures |Digits(n)| > 1 ==> Pow10(|Digits(n)| - 1) <= n
  {
    if n >= 10 {
      DigitsSpan(n / 10);
    }
  }

  lemma {:induction false} Pow10Grows(a: nat, b: nat)
    requires a <= b
    ensures 1 <= Pow10(a) <= Pow10(b)
  {
    if a < b {
      Pow10Grows(a, b - 1);
    } else if a > 0 {
      Pow10Grows(a - 1, a - 1);
    }
  }

  function Width(n: nat): (width: nat)
    ensures width >= 9
  {
    if |Digits(n)| < 9 then 9 else |Digits(n)|
  }

  lemma DecimalIsFixed(n: nat)
    ensures n < Pow10(Width(n)) && Decimal(n) == Fixed(n, Width(n))
  {
    DigitsSpan(n);
    Pow10Grows(|Digits(n)|, Width(n));
    PaddedIsFixed(n, Width(n));
    assert Padded(Digits(n), 9) == Padded(Digits(n), Width(n));
  }

  lemma WidthGrows(i: nat, j: nat)
    requires i <= j
    ensures Width(i) <= Width(j)
  {
    DigitsSpan(i);
    DigitsSpan(j);
    if |Digits(i)| > |Digits(j)| {
      Pow10Grows(|Digits(j)|, |Digits(i)| - 1);
    }
  }

  /** `n` without its last `k` digits. */
  function Drop(n: nat, k: nat): nat {
    if k == 0 then n else Drop(n / 10, k - 1)
  }

  lemma {:induction false} DropIs(n: nat, k: nat, i: nat)
    ensures i <= Drop(n, k) <==> i * Pow10(k) <= n
  {
    if k > 0 {
      DropIs(n / 10, k - 1, i);
      assert i * (10 * Pow10(k - 1)) == 10 * (i * Pow10(k - 1));
    }
  }

  lemma {:induction false} FixedPrefix(n: nat, a: nat, k: nat)
    requires n < Pow10(a + k)
    ensures Drop(n, k) < Pow10(a) && Fixed(n, a + k)[..a] == Fixed(Drop(n, k), a)
  {
    if k > 0 {
      FixedPrefix(n / 10, a, k - 1);
    }
  }

  lemma {:induction false} BeforePrefix(a: string, b: string)
    requires |a| <= |b|
    ensures Before(a, b) <==> Before(a, b[..|a|]) || (a == b[..|a|] && |a| < |b|)
  {
    if a != [] {
      BeforePrefix(a[1..], b[1..]);
      assert b[1..][..|a| - 1] == b[..|a|][1..];
      assert a == [a[0]] + a[1..] && b[..|a|] == [b[0]] + b[..|a|][1..];
    }
  }

  /**
   The exact order of the keys of two indices: a smaller index comes first exactly when, written with
   as many digits as the larger by adding zeros at its end, it is still no larger. With equal widths, so
   for all indices below 10^9, it always is.
   */
  lemma BlockKeyOrderIff(i: nat, j: nat)
    requires i < j
    ensures Width(i) <= Width(j)
    ensures Before(BlockIndexKey(i), BlockIndexKey(j)) <==> i * Pow10(Width(j) - Width(i)) <= j
  {
    WidthGrows(i, j);
    DecimalOrder(i, j);
    DropIs(j, Width(j) - Width(i), i);
    SamePrefix("block_", Decimal(i), Decimal(j));
  }

  lemma DecimalOrder(i: nat, j: nat)
    requires i < j && Width(i) <= Width(j)
    ensures Before(Decimal(i), Decimal(j)) <==> i <= Drop(j, Width(j) - Width(i))
  {
    DecimalIsFixed(i);
    DecimalIsFixed(j);
    if Width(i) == Width(j) {
      FixedIsOrdered(i, j, Width(i));
    } else {
      FixedPrefix(j, Width(i), Width(j) - Width(i));
      PrefixOrder(i, Drop(j, Width(j) - Width(i)), Width(i), Decimal(j));
    }
  }

  lemma PrefixOrder(i: nat, quotient: nat, a: nat, s: string)
    requires |s| > a && i < Pow10(a) && quotient < Pow10(a) && s[..a] == Fixed(quotient, a)
    ensures Before(Fixed(i, a), s) <==> i <= quotient
  {
    BeforePrefix(Fixed(i, a), s);
    FixedIsOrdered(i, quotient, a);
  }

  // ----- the families -----

  predicate Int64(i: int) {
    -0x8000_0000_0000_0000 <= i < 0x8000_0000_0000_0000
  }

  /** What a key looks like on disk, under a hash of 32 bytes. */
  function Spelled(digest: Hash -> string, k: Key): string {
    match k
    case RootKey => "root"
    case HeadKey => "LastTx"
    case BlockKey(index) => BlockIndexKey(index)
    case HashKey(h) => digest(h)
    case ErrorKey(h) => "errors-" + digest(h)
    case ReceiptKey(h) => "receipts-" + digest(h)
  }

  /** The keys the node can ask for: block indices are 64 bits wide, digests 32 bytes long. */
  predicate Usable(digest: Hash -> string, k: Key) {
    && (k.BlockKey? ==> Int64(k.index))
    && (k.HashKey? || k.ErrorKey? || k.ReceiptKey? ==> |digest(k.hash)| == 32)
  }

  /** No two of the hashes in use collide. */
  predicate Apart(digest: Hash -> string, k1: Key, k2: Key) {
    (k1.HashKey? || k1.ErrorKey? || k1.ReceiptKey?) && (k2.HashKey? || k2.ErrorKey? || k2.ReceiptKey?) ==>
      digest(k1.hash) == digest(k2.hash) ==> k1.hash == k2.hash
  }

  lemma BlockKeyLength(index: int)
    requires Int64(index)
    ensures 15 <= |BlockIndexKey(index)| <= 26
  {
    var n := if index < 0 then -index else index;
    assert Pow10(7) == 10_000_000;
    assert Pow10(13) == 10_000_000_000_000;
    assert Pow10(19) == 10_000_000_000_000_000_000;
    PaddedIsFixed(n, 19);
  }

  /** The length of a key tells its family. */
  lemma FamilyLengths(digest: Hash -> string, k: Key)
    requires Usable(digest, k)
    ensures
      var n := |Spelled(digest, k)|;
      match k
      case RootKey => n == 4
      case HeadKey => n == 6
      case BlockKey(_) => 15 <= n <= 26
      case HashKey(_) => n == 32
      case ErrorKey(_) => n == 39
      case ReceiptKey(_) => n == 41
  {
    if k.BlockKey? {
      BlockKeyLength(k.index);
    }
  }

  /** Different keys are spelled differently, within a family and across families. */
  lemma KeysNeverInterfere(digest: Hash -> string, k1: Key, k2: Key)
    requires Usable(digest, k1) && Usable(digest, k2) && Apart(digest, k1, k2)
    ensures Spelled(digest, k1) == Spelled(digest, k2) <==> k1 == k2
  {
    FamilyLengths(digest, k1);
    FamilyLengths(digest, k2);
    if Spelled(digest, k1) == Spelled(digest, k2) {
      match k1 {
        case BlockKey(i) => BlockKeyIsInjective(i, k2.index);
        case ErrorKey(h) => assert Spelled(digest, k1)[7..] == digest(h) && Spelled(digest, k2)[7..] == digest(k2.hash);
        case ReceiptKey(h) => assert Spelled(digest, k1)[9..] == digest(h) && Spelled(digest, k2)[9..] == digest(k2.hash);
        case _ =>
      }
    }
  }

  // ----- the byte-level database behaves like the keyed one -----

  type ByteStore = map<string, Value>

  ghost predicate Represents(digest: Hash -> string, bytes: ByteStore, s: Store) {
    && (forall k | k in s :: Spelled(digest, k) in bytes && bytes[Spelled(digest, k)] == s[k])
    && (forall b | b in bytes :: exists k :: k in s && Spelled(digest, k) == b)
  }

  /** All of `keys` may be used together. */
  ghost predicate Sound(digest: Hash -> string, keys: set<Key>) {
    && (forall k | k in keys :: Usable(digest, k))
    && (forall k1, k2 | k1 in keys && k2 in keys :: Apart(digest, k1, k2))
  }

  lemma ReadsAgree(digest: Hash -> string, keys: set<Key>, bytes: ByteStore, s: Store, k: Key)
    requires Sound(digest, keys) && s.Keys <= keys && k in keys && Represents(digest, bytes, s)
    ensures Spelled(digest, k) in bytes <==> k in s
    ensures k in s ==> bytes[Spelled(digest, k)] == s[k]
  {
    if Spelled(digest, k) in bytes {
      var k' :| k' in s && Spelled(digest, k') == Spelled(digest, k);
      KeysNeverInterfere(digest, k', k);
    }
  }

  /** Entries written together, such as a batch, under their bytes. */
  lemma WritesAgree(digest: Hash -> string, keys: set<Key>, bytes: ByteStore, s: Store, more: ByteStore, entries: Store)
    requires Sound(digest, keys) && s.Keys <= keys && entries.Keys <= keys
    requires Represents(digest, bytes, s) && Represents(digest, more, entries)
    ensures Represents(digest, bytes + more, s + entries)
  {
    forall k | k in s + entries
      ensures Spelled(digest, k) in bytes + more && (bytes + more)[Spelled(digest, k)] == (s + entries)[k]
    {
      ReadsAgree(digest, keys, more, entries, k);
    }
    forall b | b in bytes + more ensures exists k :: k in s + entries && Spelled(digest, k) == b {
      var k :| (k in s || k in entries) && Spelled(digest, k) == b;
    }
  }

  function ReplayBytes(bytes: ByteStore, writes: seq<ByteStore>): ByteStore {
    if writes == [] then bytes else ReplayBytes(bytes, writes[..|writes| - 1]) + writes[|writes| - 1]
  }

  /** Whatever the node writes, a database of bytes stays a faithful copy of the database of keys. */
  lemma {:induction false} ReplaysAgree(digest: Hash -> string, keys: set<Key>, bytes: ByteStore, s: Store,
                                        byteWrites: seq<ByteStore>, writes: seq<Write>)
    requires Sound(digest, keys) && s.Keys <= keys && Represents(digest, bytes, s)
    requires |byteWrites| == |writes|
    requires forall i | 0 <= i < |writes| ::
               Entries(writes[i]).Keys <= keys && Represents(digest, byteWrites[i], Entries(writes[i]))
    ensures Replay(s, writes).Keys <= keys
    ensures Represents(digest, ReplayBytes(bytes, byteWrites), Replay(s, writes))
  {
    if writes != [] {
      var n := |writes| - 1;
      ReplaysAgree(digest, keys, bytes, s, byteWrites[..n], writes[..n]);
      WritesAgree(digest, keys, ReplayBytes(bytes, byteWrites[..n]), Replay(s, writes[..n]), byteWrites[n], Entries(writes[n]));
    }
  }
}
