/** Clusters as they are stored: 44 bytes for each transaction. */
module CpfpRecords {
  import opened Basics

  type byte = x: int | 0 <= x < 256

  /** In this table ids are spelled out. */
  datatype Ancestor = Ancestor(txid: string, weight: int, fee: int)

  const RECORD: nat := 44

  // ------------------------------------------------------------------ hex digits

  function Digit(v: nat): (c: char)
    requires v < 16
    ensures IsLowerHex(c) && HexValue(c) == v
  {
    if v < 10 then '0' + v as char else 'a' + (v - 10) as char
  }

  predicate IsHex(c: char) {
    '0' <= c <= '9' || 'a' <= c <= 'f' || 'A' <= c <= 'F'
  }

  function HexValue(c: char): (v: nat)
    requires IsHex(c)
    ensures v < 16
  {
    if c <= '9' then c as int - '0' as int
    else if c <= 'F' then c as int - 'A' as int + 10
    else c as int - 'a' as int + 10
  }

  predicate IsLowerHex(c: char) {
    '0' <= c <= '9' || 'a' <= c <= 'f'
  }

  /** The number two characters spell; what is not a number counts as 0. */
  function ParseByte(s: string): byte
    requires |s| <= 2
  {
    if s == "" || !IsHex(s[0]) then 0
    else if |s| == 1 || !IsHex(s[1]) then HexValue(s[0])
    else HexValue(s[0]) * 16 + HexValue(s[1])
  }

  function SpellByte(b: byte): (s: string)
    ensures |s| == 2
  {
    [Digit(b / 16), Digit(b % 16)]
  }

  function Least(a: nat, b: nat): nat { if a < b then a else b }

  /** The two characters of byte `x`, or what there is of them. */
  function PairAt(txid: string, x: nat): (s: string)
    ensures |s| <= 2
  {
    txid[Least(2 * x, |txid|)..Least(2 * x + 2, |txid|)]
  }

  predicate IsTxid(txid: string) {
    |txid| == 64 && forall i :: 0 <= i < 64 ==> IsLowerHex(txid[i])
  }

  /** The bytes of an id, the last first. */
  function IdBytes(txid: string): (bytes: seq<byte>)
    ensures |bytes| == 32
  {
    BytesBelow(txid, 32)
  }

  /** The first `n` bytes, the last of them first. */
  function BytesBelow(txid: string, n: nat): (bytes: seq<byte>)
    ensures |bytes| == n
  {
    if n == 0 then [] else [ParseByte(PairAt(txid, n - 1))] + BytesBelow(txid, n - 1)
  }

  lemma {:induction false} BytesBelowAt(txid: string, n: nat, k: nat)
    requires k < n
    ensures BytesBelow(txid, n)[k] == ParseByte(PairAt(txid, n - 1 - k))
  {
    if k > 0 {
      BytesBelowAt(txid, n - 1, k - 1);
    }
  }

  function SpellId(bytes: seq<byte>): (txid: string)
    ensures |txid| == 2 * |bytes|
  {
    if bytes == [] then "" else SpellByte(bytes[|bytes|-1]) + SpellId(bytes[..|bytes|-1])
  }

  lemma SpelledByteParses(b: byte)
    ensures ParseByte(SpellByte(b)) == b && IsLowerHex(SpellByte(b)[0]) && IsLowerHex(SpellByte(b)[1])
  {
  }

  lemma ParsedPairSpells(s: string)
    requires |s| == 2 && IsLowerHex(s[0]) && IsLowerHex(s[1])
    ensures SpellByte(ParseByte(s)) == s
  {
  }

  /** Where in the spelling each byte is. */
  lemma {:induction false} SpelledAt(bytes: seq<byte>, x: nat)
    requires x < |bytes|
    ensures SpellId(bytes)[2 * x..2 * x + 2] == SpellByte(bytes[|bytes| - 1 - x])
  {
    if x > 0 {
      var init := bytes[..|bytes|-1];
      SpelledAt(init, x - 1);
      assert SpellId(bytes)[2 * x..2 * x + 2] == SpellId(init)[2 * (x - 1)..2 * (x - 1) + 2];
    }
  }

  lemma SpelledIdParses(bytes: seq<byte>)
    requires |bytes| == 32
    ensures IsTxid(SpellId(bytes)) && IdBytes(SpellId(bytes)) == bytes
  {
    var txid := SpellId(bytes);
    forall i | 0 <= i < 64 ensures IsLowerHex(txid[i]) {
      SpelledAt(bytes, i / 2);
      SpelledByteParses(bytes[31 - i / 2]);
      assert txid[i] == txid[2 * (i / 2)..2 * (i / 2) + 2][i % 2];
    }
    forall k | 0 <= k < 32 ensures IdBytes(txid)[k] == bytes[k] {
      SpelledAt(bytes, 31 - k);
      SpelledByteParses(bytes[k]);
      BytesBelowAt(txid, 32, k);
    }
  }

  lemma ParsedIdAt(txid: string, x: nat)
    requires IsTxid(txid) && x < 32
    ensures SpellId(IdBytes(txid))[2 * x..2 * x + 2] == txid[2 * x..2 * x + 2]
  {
    SpelledAt(IdBytes(txid), x);
    BytesBelowAt(txid, 32, 31 - x);
    ParsedPairSpells(PairAt(txid, x));
  }

  lemma ParsedIdSpells(txid: string)
    requires IsTxid(txid)
    ensures SpellId(IdBytes(txid)) == txid
  {
    var spelled := SpellId(IdBytes(txid));
    forall i | 0 <= i < 64 ensures spelled[i] == txid[i] {
      ParsedIdAt(txid, i / 2);
      SamePair(spelled, txid, i);
    }
  }

  lemma SamePair(a: string, b: string, i: nat)
    requires |a| == |b| == 64 && i < 64 && a[2 * (i / 2)..2 * (i / 2) + 2] == b[2 * (i / 2)..2 * (i / 2) + 2]
    ensures a[i] == b[i]
  {
  }

  // ------------------------------------------------------------ big-endian numbers

  function Power(n: nat): (p: nat)
    ensures p > 0
  {
    if n == 0 then 1 else 256 * Power(n - 1)
  }

  /** The last `n` bytes of a number, the first of them the weightiest. */
  function BigEndian(v: nat, n: nat): (bytes: seq<byte>)
    ensures |bytes| == n
  {
    if n == 0 then [] else BigEndian(v / 256, n - 1) + [v % 256]
  }

  function FromBigEndian(bytes: seq<byte>): nat {
    if bytes == [] then 0 else FromBigEndian(bytes[..|bytes|-1]) * 256 + bytes[|bytes|-1]
  }

  lemma {:induction false} BigEndianReads(v: nat, n: nat)
    requires v < Power(n)
    ensures FromBigEndian(BigEndian(v, n)) == v
  {
    if n > 0 {
      BigEndianReads(v / 256, n - 1);
      assert BigEndian(v, n)[..n-1] == BigEndian(v / 256, n - 1);
    }
  }

  lemma {:induction false} BigEndianWrites(bytes: seq<byte>)
    ensures FromBigEndian(bytes) < Power(|bytes|) && BigEndian(FromBigEndian(bytes), |bytes|) == bytes
  {
    if bytes != [] {
      var init, last := bytes[..|bytes|-1], bytes[|bytes|-1];
      BigEndianWrites(init);
      var v := FromBigEndian(bytes);
      assert v / 256 == FromBigEndian(init) && v % 256 == last;
    }
  }

  // ------------------------------------------------------------------- numbers

  const EXACT: nat := 0x20_0000_0000_0000

  /** The distance of the floating-point numbers around `v`. */
  function Unit(v: nat): (u: nat)
    ensures u > 0
  {
    if v < EXACT then 1 else 2 * Unit(v / 2)
  }

  ghost predicate PowerOfTwo(u: nat) {
    u == 1 || (u > 1 && u % 2 == 0 && PowerOfTwo(u / 2))
  }

  /** Between 2 to the 52 and 2 to the 53 times their distance apart. */
  lemma {:induction false} UnitIs(v: nat)
    ensures PowerOfTwo(Unit(v)) && v < 9007199254740992 * Unit(v)
    ensures v >= 9007199254740992 ==> 4503599627370496 * Unit(v) <= v
  {
    if v >= EXACT {
      UnitIs(v / 2);
      assert Unit(v) / 2 == Unit(v / 2);
    }
  }

  /** Rounding to nearest, ties to even, as in section 4.3.1 of IEEE 754: the result is a
      multiple of the distance that numbers of 53 significant bits have there, no further than
      half of it away, and an even multiple if just as far. */
  lemma RoundsToNearest(v: nat) returns (u: nat, m: nat)
    ensures PowerOfTwo(u) && Number(v) == m * u && m <= 9007199254740992
    ensures v < 9007199254740992 ==> u == 1 && m == v
    ensures v >= 9007199254740992 ==> 4503599627370496 * u <= v < 9007199254740992 * u
    ensures 2 * (Number(v) - v) <= u && 2 * (v - Number(v)) <= u
    ensures 2 * (Number(v) - v) == u || 2 * (v - Number(v)) == u ==> m % 2 == 0
  {
    u := Unit(v);
    UnitIs(v);
    var q, r := v / u, v % u;
    DivisionIs(v, u);
    m := if 2 * r < u || (2 * r == u && q % 2 == 0) then q else q + 1;
    QuotientBelow(v, u, q, 9007199254740992);
    Rounded(v, u, q, r, m);
    if v < 9007199254740992 {
      assert u == 1 && q == v;
    }
  }

  /** Of the multiples next to `v`, the nearer one or else the even one. */
  lemma Rounded(v: nat, u: nat, q: nat, r: nat, m: nat)
    requires v == q * u + r && r < u && m == if 2 * r < u || (2 * r == u && q % 2 == 0) then q else q + 1
    ensures m * u == q * u + if m == q then 0 else u
    ensures 2 * (m * u - v) <= u && 2 * (v - m * u) <= u
    ensures 2 * (m * u - v) == u || 2 * (v - m * u) == u ==> m % 2 == 0
  {
  }

  lemma DivisionIs(v: nat, u: nat)
    requires u > 0
    ensures v == (v / u) * u + v % u && v % u < u
  {
  }

  lemma QuotientBelow(v: nat, u: nat, q: nat, n: nat)
    requires u > 0 && q * u <= v < n * u
    ensures q < n
  {
    if q >= n {
      ProductGrows(n, q, u);
    }
  }

  lemma ProductGrows(a: nat, b: nat, u: nat)
    requires a <= b
    ensures a * u <= b * u
  {
  }

  /** The nearest floating-point number, of two equally near ones the even. */
  function Number(v: nat): nat {
    var u := Unit(v);
    var q, r := v / u, v % u;
    if 2 * r < u || (2 * r == u && q % 2 == 0) then q * u else (q + 1) * u
  }

  // ------------------------------------------------------------------- records

  function Record(tx: Ancestor): (bytes: seq<byte>)
    ensures |bytes| == RECORD
  {
    IdBytes(tx.txid) + BigEndian(tx.weight % 0x1_0000_0000, 4) + BigEndian(tx.fee % 0x1_0000_0000_0000_0000, 8)
  }

  function Packed(txs: seq<Ancestor>): (bytes: seq<byte>)
    ensures |bytes| == RECORD * |txs|
  {
    if txs == [] then [] else Packed(txs[..|txs|-1]) + Record(txs[|txs|-1])
  }

  function ReadRecord(bytes: seq<byte>): Ancestor
    requires |bytes| == RECORD
  {
    Ancestor(SpellId(bytes[..32]), FromBigEndian(bytes[32..36]), Number(FromBigEndian(bytes[36..44])))
  }

  /** The records of a buffer, from its end back to its start. */
  function Unpacked(bytes: seq<byte>): seq<Ancestor> {
    if |bytes| < RECORD then [] else Unpacked(bytes[..|bytes| - RECORD]) + [ReadRecord(bytes[|bytes| - RECORD..])]
  }

  lemma UnpackedMore(bytes: seq<byte>, record: seq<byte>)
    requires |record| == RECORD
    ensures Unpacked(bytes + record) == Unpacked(bytes) + [ReadRecord(record)]
  {
  }

  /** A transaction whose record says all of it. */
  predicate Storable(tx: Ancestor) {
    IsTxid(tx.txid) && 0 <= tx.weight < 0x1_0000_0000 && 0 <= tx.fee < 0x1_0000_0000_0000_0000 &&
        Number(tx.fee) == tx.fee
  }

  lemma PowersAre()
    ensures Power(4) == 0x1_0000_0000 && Power(8) == 0x1_0000_0000_0000_0000
  {
  }

  lemma {:induction false} UnitIsSmall(v: nat)
    ensures v >= EXACT ==> Unit(v) <= v
  {
    if v >= EXACT {
      UnitIsSmall(v / 2);
    }
  }

  lemma QuotientTimes(v: nat, u: nat)
    requires u > 0
    ensures (v / u) * u <= v && (v / u + 1) * u <= v + u
  {
  }

  lemma NumberIsNear(v: nat)
    ensures v < EXACT ==> Number(v) == v
    ensures Number(v) <= 2 * v
  {
    UnitIsSmall(v);
    QuotientTimes(v, Unit(v));
  }

  /** A number survives being cut to `m` and read as a floating-point number exactly if it
      fits and is one. */
  lemma FeeFits(fee: int)
    ensures Number(fee % 0x1_0000_0000_0000_0000) == fee <==> 0 <= fee < 0x1_0000_0000_0000_0000 && Number(fee) == fee
  {
    var m, k := fee % 0x1_0000_0000_0000_0000, fee / 0x1_0000_0000_0000_0000;
    NumberIsNear(m);
    FitsOrNot(m, k, Number(m), fee);
  }

  lemma FitsOrNot(m: nat, k: int, read: nat, fee: int)
    requires m < 0x1_0000_0000_0000_0000 && fee == 0x1_0000_0000_0000_0000 * k + m && read <= 2 * m
    ensures read == fee ==> k == 0
    ensures 0 <= fee < 0x1_0000_0000_0000_0000 <==> k == 0
  {
  }

  lemma WeightFits(weight: int)
    ensures weight % 0x1_0000_0000 == weight <==> 0 <= weight < 0x1_0000_0000
  {
  }

  lemma RecordReads(tx: Ancestor)
    ensures ReadRecord(Record(tx)) ==
      Ancestor(SpellId(IdBytes(tx.txid)), tx.weight % 0x1_0000_0000, Number(tx.fee % 0x1_0000_0000_0000_0000))
  {
    var bytes, weight, fee := Record(tx), tx.weight % 0x1_0000_0000, tx.fee % 0x1_0000_0000_0000_0000;
    PowersAre();
    assert bytes[..32] == IdBytes(tx.txid);
    assert bytes[32..36] == BigEndian(weight, 4);
    assert bytes[36..44] == BigEndian(fee, 8);
    BigEndianReads(weight, 4);
    BigEndianReads(fee, 8);
  }

  /** A record reads back as the transaction exactly if it says all of it. */
  lemma RecordRoundTrip(tx: Ancestor)
    ensures ReadRecord(Record(tx)) == tx <==> Storable(tx)
  {
    RecordReads(tx);
    FeeFits(tx.fee);
    WeightFits(tx.weight);
    SpelledIdParses(IdBytes(tx.txid));
    if IsTxid(tx.txid) {
      ParsedIdSpells(tx.txid);
    }
  }

  predicate AllStorable(txs: seq<Ancestor>) {
    forall i {:trigger txs[i]} :: 0 <= i < |txs| ==> Storable(txs[i])
  }

  lemma StorableMore(txs: seq<Ancestor>, tx: Ancestor)
    ensures AllStorable(txs + [tx]) <==> AllStorable(txs) && Storable(tx)
  {
    var more := txs + [tx];
    assert more[|txs|] == tx && forall i :: 0 <= i < |txs| ==> more[i] == txs[i];
  }

  lemma PackedMore(txs: seq<Ancestor>, tx: Ancestor)
    ensures Packed(txs + [tx]) == Packed(txs) + Record(tx)
  {
  }

  /** Packing and unpacking gives the same transactions exactly if each is storable: in
      particular for whole fees below 2 to the 53. */
  lemma {:induction false} RoundTrip(txs: seq<Ancestor>)
    ensures |Unpacked(Packed(txs))| == |txs|
    ensures Unpacked(Packed(txs)) == txs <==> AllStorable(txs)
  {
    if txs != [] {
      var init, last := txs[..|txs|-1], txs[|txs|-1];
      assert txs == init + [last];
      RoundTrip(init);
      RecordRoundTrip(last);
      PackedMore(init, last);
      StorableMore(init, last);
      UnpackedMore(Packed(init), Record(last));
      SameEnds(Unpacked(Packed(init)), ReadRecord(Record(last)), init, last);
    }
  }

  lemma SmallFeesAreStorable(tx: Ancestor)
    requires IsTxid(tx.txid) && 0 <= tx.weight < 0x1_0000_0000 && 0 <= tx.fee < EXACT
    ensures Storable(tx)
  {
  }

  lemma SameEnds<T>(a: seq<T>, x: T, b: seq<T>, y: T)
    requires |a| == |b|
    ensures a + [x] == b + [y] <==> a == b && x == y
  {
    if a + [x] == b + [y] {
      assert a == (a + [x])[..|a|] == b && x == (a + [x])[|a|] == y;
    }
  }

  /** A field of any width: what was read from it is written to it. */
  lemma FieldOf(field: seq<byte>, width: nat, modulus: nat, v: nat)
    requires |field| == width && modulus == Power(width) && v == FromBigEndian(field)
    ensures v < modulus && v % modulus == v && BigEndian(v % modulus, width) == field
  {
    BigEndianWrites(field);
    SmallModulo(v, modulus);
  }

  lemma SmallModulo(v: nat, modulus: nat)
    requires v < modulus
    ensures v % modulus == v
  {
  }

  lemma FieldsOf(bytes: seq<byte>)
    requires |bytes| == RECORD
    requires FromBigEndian(bytes[36..44]) < EXACT
    ensures IdBytes(ReadRecord(bytes).txid) == bytes[..32]
    ensures BigEndian(ReadRecord(bytes).weight % 0x1_0000_0000, 4) == bytes[32..36]
    ensures BigEndian(ReadRecord(bytes).fee % 0x1_0000_0000_0000_0000, 8) == bytes[36..44]
  {
    PowersAre();
    SpelledIdParses(bytes[..32]);
    FieldOf(bytes[32..36], 4, 0x1_0000_0000, ReadRecord(bytes).weight);
    NumberIsNear(FromBigEndian(bytes[36..44]));
    FieldOf(bytes[36..44], 8, 0x1_0000_0000_0000_0000, ReadRecord(bytes).fee);
  }

  /** Bytes read and written again are the same, if no fee had to be rounded. */
  lemma BytesRoundTrip(bytes: seq<byte>)
    requires |bytes| == RECORD
    requires FromBigEndian(bytes[36..44]) < EXACT
    ensures Record(ReadRecord(bytes)) == bytes
  {
    FieldsOf(bytes);
    ThreeParts(bytes, 32, 36);
  }

  lemma ThreeParts<T>(s: seq<T>, i: nat, j: nat)
    requires i <= j <= |s|
    ensures s[..i] + s[i..j] + s[j..] == s
  {
  }

  // ------------------------------------------------------------------- methods

  method Pack(txs: seq<Ancestor>) returns (buf: array<byte>)
    ensures fresh(buf) && buf[..] == Packed(txs)
    ensures forall i {:trigger txs[i]} :: 0 <= i < |txs| ==> IsRecord(buf[..], 44 * i, txs[i])
  {
    buf := new byte[RECORD * |txs|](_ => 0);
    for i := 0 to |txs|
      invariant buf[..RECORD * i] == Packed(txs[..i])
    {
      PrefixStep(txs, i);
      WriteRecord(buf, i * RECORD, txs[i]);
    }
    PrefixWhole(txs);
    assert buf[..RECORD * |txs|] == buf[..];
    forall i | 0 <= i < |txs| ensures IsRecord(buf[..], 44 * i, txs[i]) {
      RecordAt(txs, i);
    }
  }

  const LOWER := "0123456789abcdef"
  const UPPER := "0123456789ABCDEF"

  ghost function Byte(bytes: seq<byte>, i: nat): int
    requires i < |bytes|
  {
    bytes[i]
  }

  /** A hex digit, in either case, spells the number. */
  ghost predicate Spells(c: char, v: nat) {
    v < 16 && (c == LOWER[v] || c == UPPER[v])
  }

  /** What a pair of characters is read as: digits count up to the first that is none. */
  ghost predicate ReadsAs(pair: string, b: byte) {
    if |pair| == 0 || forall v :: !Spells(pair[0], v) then b == 0
    else if |pair| == 1 || forall v :: !Spells(pair[1], v) then Spells(pair[0], b)
    else Spells(pair[0], b / 16) && Spells(pair[1], b % 16)
  }

  /** The characters of number `2 * x` and the one after it, as far as there are. */
  ghost function Pair(txid: string, x: nat): string {
    if 2 * x + 1 < |txid| then [txid[2 * x], txid[2 * x + 1]]
    else if 2 * x < |txid| then [txid[2 * x]]
    else ""
  }

  /** The id from its last pair of digits to its first. */
  ghost predicate IsIdAt(bytes: seq<byte>, at: nat, txid: string)
    requires at + 44 <= |bytes|
  {
    forall k {:trigger IsPairAt(bytes, at, txid, k)} :: 0 <= k < 32 ==> IsPairAt(bytes, at, txid, k)
  }

  ghost predicate IsPairAt(bytes: seq<byte>, at: nat, txid: string, k: nat)
    requires k < 32 && at + 44 <= |bytes|
  {
    ReadsAs(Pair(txid, 31 - k), bytes[at + k])
  }

  /** Four bytes, weightiest first. */
  ghost function Read4(bytes: seq<byte>, at: nat): int
    requires at + 4 <= |bytes|
  {
    Byte(bytes, at) * 16777216 + Byte(bytes, at + 1) * 65536 + Byte(bytes, at + 2) * 256 + Byte(bytes, at + 3)
  }

  /** The record of a transaction: 32 bytes for the id, 4 for the weight, 8 for the fee. */
  ghost predicate IsRecord(bytes: seq<byte>, at: nat, tx: Ancestor) {
    && at + 44 <= |bytes| && IsIdAt(bytes, at, tx.txid)
    && Read4(bytes, at + 32) == tx.weight % 4294967296
    && Read4(bytes, at + 36) * 4294967296 + Read4(bytes, at + 40) == tx.fee % 18446744073709551616
  }

  lemma {:induction false} PackedAt(txs: seq<Ancestor>, i: nat)
    requires i < |txs|
    ensures Holds(Packed(txs), 44 * i, Record(txs[i]))
  {
    var init := txs[..|txs|-1];
    if i < |init| {
      PackedAt(init, i);
      assert Packed(txs)[44 * i..44 * i + 44] == Packed(init)[44 * i..44 * i + 44];
    }
  }

  lemma RecordAt(txs: seq<Ancestor>, i: nat)
    requires i < |txs|
    ensures IsRecord(Packed(txs), 44 * i, txs[i])
  {
    PackedAt(txs, i);
    RecordStands(Packed(txs), 44 * i, Record(txs[i]), txs[i]);
  }

  lemma RecordStands(bytes: seq<byte>, at: nat, record: seq<byte>, tx: Ancestor)
    requires Holds(bytes, at, record) && record == Record(tx)
    ensures IsRecord(bytes, at, tx)
  {
    RecordIs(tx);
    RecordMoves(bytes, at, record, tx);
  }

  ghost predicate Holds(bytes: seq<byte>, at: nat, record: seq<byte>) {
    at + 44 <= |bytes| && bytes[at..at + 44] == record
  }

  lemma RecordMoves(bytes: seq<byte>, at: nat, record: seq<byte>, tx: Ancestor)
    requires at + 44 <= |bytes| && bytes[at..at + 44] == record && IsRecord(record, 0, tx)
    ensures IsRecord(bytes, at, tx)
  {
    forall k | 0 <= k < 44 ensures bytes[at + k] == record[k] {
      assert bytes[at..at + 44][k] == bytes[at + k];
    }
    IdMoves(bytes, at, record, tx.txid);
    Read4Moves(bytes, at, record, 32);
    Read4Moves(bytes, at, record, 36);
    Read4Moves(bytes, at, record, 40);
  }

  lemma IdMoves(bytes: seq<byte>, at: nat, record: seq<byte>, txid: string)
    requires at + 44 <= |bytes| && |record| == 44 && IsIdAt(record, 0, txid)
    requires forall k :: 0 <= k < 44 ==> bytes[at + k] == record[k]
    ensures IsIdAt(bytes, at, txid)
  {
    forall k | 0 <= k < 32 ensures IsPairAt(bytes, at, txid, k) {
      assert IsPairAt(record, 0, txid, k);
    }
  }

  lemma Read4Moves(bytes: seq<byte>, at: nat, record: seq<byte>, from: nat)
    requires at + 44 <= |bytes| && |record| == 44 && from + 4 <= 44
    requires forall k :: 0 <= k < 44 ==> bytes[at + k] == record[k]
    ensures Read4(bytes, at + from) == Read4(record, from)
  {
    assert bytes[at + (from + 1)] == record[from + 1] && bytes[at + (from + 2)] == record[from + 2];
    assert bytes[at + (from + 3)] == record[from + 3];
  }

  lemma RecordIs(tx: Ancestor)
    ensures IsRecord(Record(tx), 0, tx)
  {
    var record, weight, fee := Record(tx), tx.weight % 4294967296, tx.fee % 18446744073709551616;
    var id, b4, b8 := IdBytes(tx.txid), BigEndian(weight, 4), BigEndian(fee, 8);
    PowersAre();
    BigEndianReads(weight, 4);
    BigEndianReads(fee, 8);
    assert record[32..36] == b4 && record[36..40] == b8[..4] && record[40..44] == b8[4..];
    Read4Is(record, 32);
    Read4Is(record, 36);
    Read4Is(record, 40);
    FourAndFour(b8);
    IdIs(tx.txid, record);
  }

  lemma PairIs(txid: string, x: nat)
    ensures PairAt(txid, x) == Pair(txid, x)
  {
  }

  lemma IdIs(txid: string, record: seq<byte>)
    requires |record| == 44 && record[..32] == IdBytes(txid)
    ensures IsIdAt(record, 0, txid)
  {
    forall k | 0 <= k < 32 ensures IsPairAt(record, 0, txid, k) {
      assert record[..32][k] == record[k];
      BytesBelowAt(txid, 32, k);
      PairIs(txid, 31 - k);
      PairReads(PairAt(txid, 31 - k));
    }
  }

  lemma Read4Is(bytes: seq<byte>, at: nat)
    requires at + 4 <= |bytes|
    ensures Read4(bytes, at) == FromBigEndian(bytes[at..at + 4])
  {
    var b := bytes[at..at + 4];
    LastByte(b);
    LastByte(b[..3]);
    LastByte(b[..2]);
    LastByte(b[..1]);
    assert b[..3][..2] == b[..2] && b[..2][..1] == b[..1] && b[..1][..0] == [];
    assert forall k :: 0 <= k < 4 ==> b[k] == bytes[at + k];
    assert b[..2][1] == bytes[at + 1] && b[..3][2] == bytes[at + 2] && b[3] == bytes[at + 3];
    OneByte(b[..1]);
  }

  lemma LastByte(b: seq<byte>)
    requires b != []
    ensures FromBigEndian(b) == FromBigEndian(b[..|b|-1]) * 256 + b[|b|-1]
  {
  }

  lemma OneByte(b: seq<byte>)
    requires |b| == 1
    ensures FromBigEndian(b) == b[0]
  {
    LastByte(b);
    assert |b[..0]| == 0;
  }

  lemma FourAndFour(b: seq<byte>)
    requires |b| == 8
    ensures FromBigEndian(b) == FromBigEndian(b[..4]) * 4294967296 + FromBigEndian(b[4..])
  {
    LastByte(b);
    LastByte(b[..7]);
    LastByte(b[..6]);
    LastByte(b[..5]);
    assert b[..7][..6] == b[..6] && b[..6][..5] == b[..5] && b[..5][..4] == b[..4];
    var c := b[4..];
    LastByte(c);
    LastByte(c[..3]);
    LastByte(c[..2]);
    LastByte(c[..1]);
    assert c[..3][..2] == c[..2] && c[..2][..1] == c[..1] && c[..1][..0] == [];
  }

  lemma PairReads(pair: string)
    requires |pair| <= 2
    ensures ReadsAs(pair, ParseByte(pair))
  {
    if |pair| > 0 {
      DigitSpells(pair[0]);
    }
    if |pair| > 1 {
      DigitSpells(pair[1]);
    }
    if |pair| == 2 && IsHex(pair[0]) && IsHex(pair[1]) {
      TwoDigits(HexValue(pair[0]), HexValue(pair[1]));
    }
  }

  lemma TwoDigits(high: nat, low: nat)
    requires high < 16 && low < 16
    ensures (high * 16 + low) / 16 == high && (high * 16 + low) % 16 == low
  {
  }

  lemma DigitSpells(c: char)
    ensures IsHex(c) ==> Spells(c, HexValue(c))
    ensures !IsHex(c) ==> forall v :: !Spells(c, v)
  {
  }

  method WriteRecord(buf: array<byte>, offset: nat, tx: Ancestor)
    requires offset + RECORD <= buf.Length
    modifies buf
    ensures buf[..offset + RECORD] == old(buf[..offset]) + Record(tx)
  {
    WriteId(buf, offset, tx.txid);
    var weight, fee := BigEndian(tx.weight % 0x1_0000_0000, 4), BigEndian(tx.fee % 0x1_0000_0000_0000_0000, 8);
    SetBigEndian(buf, offset + 32, weight);
    SetBigEndian(buf, offset + 36, fee);
    FourParts(old(buf[..offset]), IdBytes(tx.txid), weight, fee);
  }

  lemma FourParts<T>(a: seq<T>, b: seq<T>, c: seq<T>, d: seq<T>)
    ensures a + b + c + d == a + (b + c + d)
  {
  }

  /** The bytes of an id go in from the last to the first. */
  method WriteId(buf: array<byte>, offset: nat, txid: string)
    requires offset + 32 <= buf.Length
    modifies buf
    ensures buf[..offset + 32] == old(buf[..offset]) + IdBytes(txid)
  {
    ghost var before := buf[..offset];
    for x := 0 to 32
      invariant buf[..offset] == before
      invariant forall y {:trigger PairAt(txid, y)} :: 0 <= y < x ==>
        buf[offset + (31 - y)] == ParseByte(PairAt(txid, y))
    {
      buf[offset + (31 - x)] := ParseByte(PairAt(txid, x));
    }
    forall k | 0 <= k < 32 ensures buf[offset + k] == IdBytes(txid)[k] {
      BytesBelowAt(txid, 32, k);
      var pair := PairAt(txid, 31 - k);
    }
  }

  method SetBigEndian(buf: array<byte>, at: nat, bytes: seq<byte>)
    requires at + |bytes| <= buf.Length
    modifies buf
    ensures buf[..at + |bytes|] == old(buf[..at]) + bytes && buf[at + |bytes|..] == old(buf[at + |bytes|..])
  {
    forall k | 0 <= k < |bytes| {
      buf[at + k] := bytes[k];
    }
  }

  /** Nothing is read from a buffer that does not hold whole records. */
  method Unpack(buf: array<byte>) returns (txs: seq<Ancestor>)
    ensures txs == if WholeRecords(buf.Length) then Unpacked(buf[..]) else []
  {
    txs := [];
    var offset := 0;
    while offset < buf.Length
      invariant offset <= buf.Length && WholeRecords(offset) && txs == Unpacked(buf[..offset])
      decreases buf.Length - offset
    {
      if offset + RECORD > buf.Length {
        Remainder(buf.Length, offset);
        return [];
      }
      NextRecord(buf[..], offset, offset + RECORD);
      OneRecordMore(offset);
      assert buf[..][..offset] == buf[..offset] && buf[..][..offset + RECORD] == buf[..offset + RECORD];
      txs := txs + [ReadRecord(buf[offset..offset + RECORD])];
      offset := offset + RECORD;
    }
    assert buf[..offset] == buf[..];
  }

  predicate WholeRecords(length: nat) {
    length % RECORD == 0
  }

  lemma Remainder(length: nat, offset: nat)
    requires WholeRecords(offset) && offset < length < offset + RECORD
    ensures !WholeRecords(length)
  {
  }

  lemma OneRecordMore(offset: nat)
    requires WholeRecords(offset)
    ensures WholeRecords(offset + RECORD)
  {
  }

  lemma NextRecord(bytes: seq<byte>, offset: nat, next: nat)
    requires next == offset + RECORD && next <= |bytes|
    ensures Unpacked(bytes[..next]) == Unpacked(bytes[..offset]) + [ReadRecord(bytes[offset..next])]
  {
    var before, record := bytes[..offset], bytes[offset..next];
    UnpackedMore(before, record);
    assert bytes[..next] == before + record;
  }
}
