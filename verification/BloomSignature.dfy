/**
 Signatures: arrays of 16-bit words into which each indexed column sets
 pseudo-random bits.  A signature's meaning is the set of its bit numbers.
 */
module BloomSignature {
  import opened Prelude
  import opened CArithmetic
  import opened BloomRandom

  const WORD_BITS := 16
  const MAX_KEYS := 32
  const MAX_WORDS := 256

  /** A 16-bit word, bit k at position k. */
  type Word = w: seq<bool> | |w| == WORD_BITS witness ZERO

  const ZERO: seq<bool> := seq(WORD_BITS, _ => false)

  /** Options frozen on the metapage; `length` counts words, not bits. */
  datatype Options = Options(length: nat, bitSize: seq<nat>) {
    predicate Valid() {
      && 1 <= length <= MAX_WORDS
      && |bitSize| == MAX_KEYS
      && forall i :: 0 <= i < MAX_KEYS ==> 1 <= bitSize[i] < MAX_WORDS * WORD_BITS
    }

    function SignatureBits(): nat {
      length * WORD_BITS
    }
  }

  /** Signature length from the user's bit count, rounded up to whole words. */
  function WordsForBits(bits: nat): (words: nat)
    requires 1 <= bits <= MAX_WORDS * WORD_BITS
    ensures 1 <= words <= MAX_WORDS
    ensures (words - 1) * WORD_BITS < bits <= words * WORD_BITS
  {
    (bits + WORD_BITS - 1) / WORD_BITS
  }

  // ----- bits of words and signatures

  function Or(a: Word, b: Word): Word {
    seq(WORD_BITS, i requires 0 <= i < WORD_BITS => a[i] || b[i])
  }

  function And(a: Word, b: Word): Word {
    seq(WORD_BITS, i requires 0 <= i < WORD_BITS => a[i] && b[i])
  }

  /** 0x01 << k. */
  function Mask(k: nat): Word
    requires k < WORD_BITS
  {
    seq(WORD_BITS, i => i == k)
  }

  function Bits(ws: seq<Word>): (bits: set<nat>) {
    set i: nat | i < |ws| * WORD_BITS && ws[i / WORD_BITS][i % WORD_BITS]
  }

  /** One word comparison of a scan decides inclusion of that word's bits. */
  lemma WordInclusion(item: Word, query: Word)
    ensures And(item, query) == query <==> forall k :: 0 <= k < WORD_BITS && query[k] ==> item[k]
  {
    if And(item, query) == query {
      forall k | 0 <= k < WORD_BITS && query[k]
        ensures item[k]
      {
        assert And(item, query)[k];
      }
    }
  }

  /** SETBIT on a signature adds exactly the named bit. */
  lemma SetBitInSignature(ws: seq<Word>, n: nat)
    requires n < |ws| * WORD_BITS
    ensures Bits(ws[n / WORD_BITS := Or(ws[n / WORD_BITS], Mask(n % WORD_BITS))]) == Bits(ws) + {n}
  {
    var q := n / WORD_BITS;
    var ws' := ws[q := Or(ws[q], Mask(n % WORD_BITS))];
    forall i: nat | i < |ws| * WORD_BITS
      ensures i in Bits(ws') <==> i in Bits(ws) || i == n
    {
    }
  }

  method SetBit(sign: array<Word>, n: nat)
    requires n < sign.Length * WORD_BITS
    modifies sign
    ensures Bits(sign[..]) == old(Bits(sign[..])) + {n}
  {
    var q := n / WORD_BITS;
    ghost var before := sign[..];
    SetBitInSignature(before, n);
    sign[q] := Or(sign[q], Mask(n % WORD_BITS));
    assert sign[..] == before[q := Or(before[q], Mask(n % WORD_BITS))];
  }

  // ----- the bits of one column value

  /** The seed of a column value: its hash, perturbed by the column number. */
  function ColumnSeed(attno: nat, hash: uint32): uint32
    requires attno < MAX_KEYS
  {
    Xor(hash, Perturbation(attno))
  }

  /** The value that perturbs the hashes of a column. */
  function Perturbation(attno: nat): uint32
    requires attno < MAX_KEYS
  {
    ToUnsigned(Successor(SeedState(attno as uint32)) - 1)
  }

  /** In every column exactly two hash values give a degenerate seed. */
  lemma DegenerateHashes(attno: nat, hash: uint32)
    requires attno < MAX_KEYS
    ensures DegenerateSeed(ColumnSeed(attno, hash)) <==>
            hash == Xor(0xFFFF_FFFF, Perturbation(attno)) || hash == Xor(0x8000_0001, Perturbation(attno))
  {
    XorTwice(hash, Perturbation(attno));
    XorTwice(0xFFFF_FFFF, Perturbation(attno));
    XorTwice(0x8000_0001, Perturbation(attno));
  }

  /** In the first column, for example, the hash 4294950489. */
  lemma DegenerateHashOfFirstColumn()
    ensures Perturbation(0) == 16806 && DegenerateSeed(ColumnSeed(0, 4294950489))
  {
    assert SeedState(0) == 1 && Successor(1) == 16807;
    Pow2Of32();
    XorComplement(16806, 32);
    DegenerateHashes(0, 4294950489);
  }

  function StateAfter(seed: uint32, draws: nat): int {
    if draws == 0 then SeedState(seed) else Successor(StateAfter(seed, draws - 1))
  }

  /** The bit number of draw `j`; C's remainder, so possibly negative. */
  function BitIndex(o: Options, seed: uint32, j: nat): int
    requires o.Valid()
  {
    Rem(StateAfter(seed, j + 1) - 1, o.SignatureBits())
  }

  function ColumnBits(o: Options, attno: nat, hash: uint32): (bits: set<nat>)
    requires o.Valid() && attno < MAX_KEYS
  {
    DrawnBits(o, ColumnSeed(attno, hash), o.bitSize[attno])
  }

  function DrawnBits(o: Options, seed: uint32, n: nat): (bits: set<nat>)
    requires o.Valid()
  {
    if n == 0 then {}
    else
      var i := BitIndex(o, seed, n - 1);
      DrawnBits(o, seed, n - 1) + if 0 <= i then {i} else {}
  }

  lemma {:induction false} StatesProper(seed: uint32, j: nat)
    ensures !DegenerateSeed(seed) ==> Proper(StateAfter(seed, j + 1))
    ensures DegenerateSeed(seed) ==> StateAfter(seed, j) == 0 && StateAfter(seed, j + 1) == 0
  {
    FirstDrawProper(seed);
    if j == 0 {
      assert StateAfter(seed, 1) == Successor(SeedState(seed));
    } else {
      StatesProper(seed, j - 1);
      if !DegenerateSeed(seed) {
        ProperForever(StateAfter(seed, j));
      }
    }
  }

  /**
   Every bit number drawn lies in the signature for all seeds but the two
   degenerate ones, whose every draw is -1.
   */
  lemma {:induction false} BitIndexInSignature(o: Options, seed: uint32, j: nat)
    requires o.Valid()
    ensures 0 <= BitIndex(o, seed, j) < o.SignatureBits() <==> !DegenerateSeed(seed)
    ensures DegenerateSeed(seed) ==> BitIndex(o, seed, j) == -1
  {
    StatesProper(seed, j);
    RemainderOfDraw(StateAfter(seed, j + 1), o.SignatureBits());
  }

  lemma RemainderOfDraw(state: int, n: nat)
    requires WORD_BITS <= n
    ensures Proper(state) ==> 0 <= Rem(state - 1, n) < n
    ensures state == 0 ==> Rem(state - 1, n) == -1
  {
    if state == 0 {
      assert 1 % n == 1;
    }
  }

  /**
   signValue.  `defined` reports whether every shift was one that C defines; a
   negative bit number sets nothing here.
   */
  method SignValue(o: Options, sign: array<Word>, hash: uint32, attno: nat) returns (defined: bool)
    requires o.Valid() && attno < MAX_KEYS && sign.Length == o.length
    modifies sign
    ensures Bits(sign[..]) == old(Bits(sign[..])) + ColumnBits(o, attno, hash)
    ensures defined <==> !DegenerateSeed(ColumnSeed(attno, hash))
  {
    var generator := new Generator();
    generator.Srand(attno as uint32);
    var perturbation := generator.Rand();
    var seed := Xor(hash, ToUnsigned(perturbation as int));
    defined := DrawBits(o, sign, generator, seed, o.bitSize[attno]);
  }

  method DrawBits(o: Options, sign: array<Word>, generator: Generator, seed: uint32, n: nat) returns (defined: bool)
    requires o.Valid() && sign.Length == o.length
    modifies sign, generator
    ensures Bits(sign[..]) == old(Bits(sign[..])) + DrawnBits(o, seed, n)
    ensures defined <==> n == 0 || !DegenerateSeed(seed)
  {
    generator.Srand(seed);
    defined := true;
    for j := 0 to n
      invariant generator.next as int == StateAfter(seed, j)
      invariant Bits(sign[..]) == old(Bits(sign[..])) + DrawnBits(o, seed, j)
      invariant defined <==> j == 0 || !DegenerateSeed(seed)
    {
      var draw := generator.Rand();
      var nBit := Rem(draw as int, o.SignatureBits());
      assert nBit == BitIndex(o, seed, j);
      BitIndexInSignature(o, seed, j);
      if 0 <= nBit {
        SetBit(sign, nBit);
      } else {
        defined := false;
      }
    }
  }

  // ----- signatures of rows and of scans

  /** A row as the index sees it: per column a hash, or null. */
  type Row = seq<Option<uint32>>

  function RowBits(o: Options, row: Row): (bits: set<nat>)
    requires o.Valid() && |row| <= MAX_KEYS
  {
    if row == [] then {}
    else
      var i := |row| - 1;
      RowBits(o, row[..i]) + match row[i] { case Some(hash) => ColumnBits(o, i, hash) case None => {} }
  }

  datatype ScanKey = ScanKey(attno: nat, hash: Option<uint32>)

  predicate ValidKeys(keys: seq<ScanKey>) {
    forall i :: 0 <= i < |keys| ==> keys[i].attno < MAX_KEYS
  }

  function KeyBits(o: Options, keys: seq<ScanKey>): (bits: set<nat>)
    requires o.Valid() && ValidKeys(keys)
  {
    if keys == [] then {}
    else
      var k := keys[|keys| - 1];
      KeyBits(o, keys[..|keys| - 1]) + match k.hash { case Some(hash) => ColumnBits(o, k.attno, hash) case None => {} }
  }

  lemma KeyBitsNext(o: Options, keys: seq<ScanKey>, i: nat)
    requires o.Valid() && ValidKeys(keys) && i < |keys| && keys[i].hash.Some?
    ensures KeyBits(o, keys[..i + 1]) == KeyBits(o, keys[..i]) + ColumnBits(o, keys[i].attno, keys[i].hash.value)
  {
    assert keys[..i + 1][..i] == keys[..i];
  }

  /** Does the row carry, in each scan-key column, a value hashing like the key? */
  predicate RowSatisfies(row: Row, keys: seq<ScanKey>) {
    forall i :: 0 <= i < |keys| ==>
      keys[i].hash.Some? && keys[i].attno < |row| && row[keys[i].attno] == keys[i].hash
  }

  lemma {:induction false} ColumnBitsInRow(o: Options, row: Row, attno: nat)
    requires o.Valid() && |row| <= MAX_KEYS && attno < |row| && row[attno].Some?
    ensures ColumnBits(o, attno, row[attno].value) <= RowBits(o, row)
  {
    if attno < |row| - 1 {
      assert row[..|row| - 1][attno] == row[attno];
      ColumnBitsInRow(o, row[..|row| - 1], attno);
    }
  }

  /** A satisfying row's signature covers the scan's. */
  lemma {:induction false} KeyBitsCovered(o: Options, row: Row, keys: seq<ScanKey>)
    requires o.Valid() && |row| <= MAX_KEYS && ValidKeys(keys)
    requires RowSatisfies(row, keys)
    ensures KeyBits(o, keys) <= RowBits(o, row)
  {
    if keys != [] {
      var front, k := keys[..|keys| - 1], keys[|keys| - 1];
      KeyBitsCovered(o, row, front);
      ColumnBitsInRow(o, row, k.attno);
    }
  }

  method ZeroSignature(o: Options) returns (words: array<Word>)
    ensures fresh(words) && words.Length == o.length && Bits(words[..]) == {}
  {
    words := new Word[o.length](_ => ZERO);
    assert forall i :: 0 <= i < o.length ==> words[..][i] == ZERO;
  }

  /** BloomFormTuple's signature: null columns are skipped. */
  method SignRow(o: Options, row: Row) returns (sign: seq<Word>)
    requires o.Valid() && |row| <= MAX_KEYS
    ensures |sign| == o.length
    ensures Bits(sign) == RowBits(o, row)
  {
    var words := ZeroSignature(o);
    for i := 0 to |row|
      invariant Bits(words[..]) == RowBits(o, row[..i])
    {
      assert row[..i + 1][..i] == row[..i];
      if row[i].Some? {
        var _ := SignValue(o, words, row[i].value, i);
      }
    }
    assert row[..|row|] == row;
    sign := words[..];
  }

  /** The scan signature; none when a key is null, as nothing can match then. */
  method SignKeys(o: Options, keys: seq<ScanKey>) returns (sign: Option<seq<Word>>)
    requires o.Valid() && ValidKeys(keys)
    ensures sign.None? <==> exists i :: 0 <= i < |keys| && keys[i].hash.None?
    ensures sign.Some? ==> |sign.value| == o.length && Bits(sign.value) == KeyBits(o, keys)
  {
    var words := ZeroSignature(o);
    for i := 0 to |keys|
      invariant forall k :: 0 <= k < i ==> keys[k].hash.Some?
      invariant Bits(words[..]) == KeyBits(o, keys[..i])
    {
      if keys[i].hash.None? {
        return None;
      }
      KeyBitsNext(o, keys, i);
      var _ := SignValue(o, words, keys[i].hash.value, keys[i].attno);
    }
    assert keys[..|keys|] == keys;
    sign := Some(words[..]);
  }

  /** The scan's word loop accepts an entry exactly when it covers the query. */
  method Covers(item: seq<Word>, query: seq<Word>) returns (res: bool)
    requires |item| == |query|
    ensures res <==> Bits(query) <= Bits(item)
  {
    res := true;
    var i := 0;
    while i < |query|
      invariant 0 <= i <= |query|
      invariant res
      invariant forall n: nat | n < i * WORD_BITS && n in Bits(query) :: n in Bits(item)
    {
      WordInclusion(item[i], query[i]);
      if And(item[i], query[i]) != query[i] {
        ghost var k: nat :| k < WORD_BITS && query[i][k] && !item[i][k];
        assert i * WORD_BITS + k in Bits(query) && i * WORD_BITS + k !in Bits(item);
        return false;
      }
      forall n: nat | i * WORD_BITS <= n < (i + 1) * WORD_BITS && n in Bits(query)
        ensures n in Bits(item)
      {
        assert query[i][n % WORD_BITS] ==> item[i][n % WORD_BITS];
      }
      i := i + 1;
    }
  }
}
