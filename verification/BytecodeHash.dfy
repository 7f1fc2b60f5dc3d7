/** merkletree/key.go: the bytecode hash pads the code, packs it into words of seven bytes and
    absorbs eight of them at a time. */
module BytecodeHash {
  import opened Wrappers

  type byte = n: nat | n < 256

  const WORD_BYTES: nat := 7
  const CHUNK_BYTES: nat := 56
  const TWO_56: nat := 0x100_0000_0000_0000

  /** The four words the hash passes on. */
  datatype Capacity = Capacity(w0: nat, w1: nat, w2: nat, w3: nat)

  type Poseidon = (seq<nat>, Capacity) -> Result<Capacity>

  // ---- padding ----

  function Zeros(n: nat): (z: seq<byte>)
    ensures |z| == n
  {
    seq(n, _ => 0)
  }

  /** b | 0x80 */
  function SetTopBit(b: byte): byte { if b < 128 then b + 128 else b }

  function WithTopBit(s: seq<byte>): (r: seq<byte>)
    requires s != []
    ensures |r| == |s|
  {
    s[|s| - 1 := SetTopBit(s[|s| - 1])]
  }

  /** How many zeros fill n bytes up to a whole chunk. */
  function Fill(n: nat): nat { (CHUNK_BYTES - n % CHUNK_BYTES) % CHUNK_BYTES }

  /** The code, a one, zeros up to a whole chunk, and the top bit of the last byte. */
  function Padded(code: seq<byte>): (r: seq<byte>)
    ensures |r| % CHUNK_BYTES == 0 && |r| > |code|
  {
    WithTopBit(code + [1] + Zeros(Fill(|code| + 1)))
  }

  function StripZeros(s: seq<byte>): seq<byte> {
    if s != [] && s[|s| - 1] == 0 then StripZeros(s[..|s| - 1]) else s
  }

  /** Undoes the padding. */
  function Unpadded(s: seq<byte>): seq<byte>
    requires s != [] && s[|s| - 1] >= 128
  {
    var t := StripZeros(s[|s| - 1 := s[|s| - 1] - 128]);
    if t == [] then [] else t[..|t| - 1]
  }

  lemma {:induction false} StripAll(s: seq<byte>, n: nat)
    requires s != [] && s[|s| - 1] != 0
    ensures StripZeros(s + Zeros(n)) == s
  {
    if n == 0 {
      assert s + Zeros(0) == s;
    } else {
      StripAll(s, n - 1);
      assert (s + Zeros(n))[..|s| + n - 1] == s + Zeros(n - 1);
    }
  }

  lemma PaddingIsReversible(code: seq<byte>)
    ensures var p := Padded(code);
      p[|p| - 1] >= 128 && Unpadded(p) == code
  {
    var plain := code + [1] + Zeros(Fill(|code| + 1));
    var p := Padded(code);
    assert plain[|plain| - 1] < 128;
    assert p[|p| - 1 := p[|p| - 1] - 128] == plain;
    StripAll(code + [1], Fill(|code| + 1));
  }

  // ---- packing ----

  /** Little-endian value. */
  function LittleEndian(s: seq<byte>): nat {
    if s == [] then 0 else s[0] + 256 * LittleEndian(s[1..])
  }

  /** Big-endian value, as SetBytes reads it. */
  function BigEndian(s: seq<byte>): nat {
    if s == [] then 0 else BigEndian(s[..|s| - 1]) * 256 + s[|s| - 1]
  }

  function Reversed(s: seq<byte>): (r: seq<byte>)
    ensures |r| == |s|
    ensures forall i :: 0 <= i < |s| ==> r[i] == s[|s| - 1 - i]
  {
    seq(|s|, i requires 0 <= i < |s| => s[|s| - 1 - i])
  }

  lemma {:induction false} BigEndianIsReversed(s: seq<byte>)
    ensures BigEndian(s) == LittleEndian(Reversed(s))
  {
    if s != [] {
      BigEndianIsReversed(s[..|s| - 1]);
      assert Reversed(s)[1..] == Reversed(s[..|s| - 1]);
    }
  }

  function Digits(v: nat, n: nat): (s: seq<byte>)
    ensures |s| == n
  {
    if n == 0 then [] else [v % 256] + Digits(v / 256, n - 1)
  }

  lemma {:induction false} DigitsOfValue(s: seq<byte>)
    ensures Digits(LittleEndian(s), |s|) == s
  {
    if s != [] {
      DigitsOfValue(s[1..]);
      var rest := LittleEndian(s[1..]);
      assert (s[0] + 256 * rest) % 256 == s[0] && (s[0] + 256 * rest) / 256 == rest;
    }
  }

  /** The consecutive seven-byte words of the bytes. */
  function Words(s: seq<byte>): seq<nat> {
    if |s| < WORD_BYTES then [] else [LittleEndian(s[..WORD_BYTES])] + Words(s[WORD_BYTES..])
  }

  function Unpacked(words: seq<nat>): seq<byte> {
    if words == [] then [] else Digits(words[0], WORD_BYTES) + Unpacked(words[1..])
  }

  lemma {:induction false} PackingIsReversible(s: seq<byte>)
    requires |s| % WORD_BYTES == 0
    ensures Unpacked(Words(s)) == s
  {
    if |s| >= WORD_BYTES {
      PackingIsReversible(s[WORD_BYTES..]);
      DigitsOfValue(s[..WORD_BYTES]);
      assert Words(s)[1..] == Words(s[WORD_BYTES..]);
    }
  }

  lemma {:induction false} WordsSplit(s: seq<byte>, t: seq<byte>)
    requires |s| % WORD_BYTES == 0
    ensures Words(s + t) == Words(s) + Words(t)
    ensures |Words(s)| == |s| / WORD_BYTES
  {
    hide LittleEndian;
    if |s| < WORD_BYTES {
      assert s == [] && s + t == t;
    } else {
      WordsSplit(s[WORD_BYTES..], t);
      assert (s + t)[..WORD_BYTES] == s[..WORD_BYTES];
      assert (s + t)[WORD_BYTES..] == s[WORD_BYTES..] + t;
    }
  }

  /** Every word is below 2^56 and is the value of its own seven bytes. */
  lemma {:induction false} WordAt(s: seq<byte>, i: nat)
    requires i < |Words(s)|
    ensures (i + 1) * WORD_BYTES <= |s|
    ensures Words(s)[i] == LittleEndian(s[i * WORD_BYTES..(i + 1) * WORD_BYTES]) < TWO_56
    ensures Words(s)[i] == SevenBytesAt(s, i * 7)
  {
    if i == 0 {
      SevenBytes(s[..WORD_BYTES]);
      assert s[0..WORD_BYTES] == s[..WORD_BYTES];
    } else {
      hide LittleEndian;
      assert Words(s)[1..] == Words(s[WORD_BYTES..]);
      hide Words;
      assert Words(s)[i] == Words(s)[1..][i - 1];
      WordAt(s[WORD_BYTES..], i - 1);
      assert s[WORD_BYTES..][(i - 1) * WORD_BYTES..i * WORD_BYTES] == s[i * WORD_BYTES..(i + 1) * WORD_BYTES];
    }
  }

  /** Seven bytes, the first one the least significant. */
  ghost function SevenBytesAt(s: seq<byte>, from: nat): nat
    requires from + 7 <= |s|
  {
    ValueOf(s[from], s[from + 1], s[from + 2], s[from + 3], s[from + 4], s[from + 5], s[from + 6])
  }

  ghost function ValueOf(b0: nat, b1: nat, b2: nat, b3: nat, b4: nat, b5: nat, b6: nat): nat {
    b0 + 0x100 * b1 + 0x1_0000 * b2 + 0x100_0000 * b3 + 0x1_0000_0000 * b4 + 0x100_0000_0000 * b5
    + 0x1_0000_0000_0000 * b6
  }

  lemma Front(s: seq<byte>)
    requires s != []
    ensures LittleEndian(s) == s[0] as nat + 256 * LittleEndian(s[1..])
    ensures |s| > 1 ==> s[1..][1..] == s[2..]
    ensures |s| == 1 ==> LittleEndian(s[1..]) == 0
  {
  }

  lemma SevenBytes(s: seq<byte>)
    requires |s| == WORD_BYTES
    ensures LittleEndian(s) == SevenBytesAt(s, 0) < TWO_56
  {
    Front(s);
    Front(s[1..]);
    Front(s[2..]);
    Front(s[3..]);
    Front(s[4..]);
    Front(s[5..]);
    Front(s[6..]);
    hide LittleEndian;
    Bounded(s);
    assert Pow256(2) == 0x1_0000 && Pow256(4) == 0x1_0000_0000 && Pow256(6) == 0x1_0000_0000_0000;
  }

  function Pow256(n: nat): nat { if n == 0 then 1 else 256 * Pow256(n - 1) }

  lemma {:induction false} Bounded(s: seq<byte>)
    ensures LittleEndian(s) < Pow256(|s|)
  {
    if s != [] { Bounded(s[1..]); }
  }

  // ---- the hash ----

  /** What the hash absorbs. */
  function Absorbed(code: seq<byte>): seq<nat> { Words(Padded(code)) }

  /** Absorbing eight words at a time, from a capacity. */
  function Sponge(poseidon: Poseidon, words: seq<nat>, capacity: Capacity): Result<Capacity> {
    if |words| < 8 then Ok(capacity)
    else
      var next := poseidon(words[..8], capacity);
      if next.Err? then Err else Sponge(poseidon, words[8..], next.value)
  }

  lemma WholeWords(n: nat)
    requires n % CHUNK_BYTES == 0
    ensures n % WORD_BYTES == 0
  {
    assert n == WORD_BYTES * (8 * (n / CHUNK_BYTES));
  }

  /** Bytecode is recovered from what its hash absorbs. */
  lemma AbsorbingIsReversible(code: seq<byte>)
    ensures var p := Unpacked(Absorbed(code));
      p != [] && p[|p| - 1] >= 128 && Unpadded(p) == code
  {
    hide Padded, Words, Unpacked, Unpadded;
    WholeWords(|Padded(code)|);
    PackingIsReversible(Padded(code));
    PaddingIsReversible(code);
  }

  /** So different bytecodes are absorbed as different words. */
  lemma AbsorbingIsInjective(code: seq<byte>, code': seq<byte>)
    requires Absorbed(code) == Absorbed(code')
    ensures code == code'
  {
    AbsorbingIsReversible(code);
    AbsorbingIsReversible(code');
  }

  /** The bytes of a chunk: those after it are not looked at, missing ones count as zero. */
  function ChunkBytes(chunk: seq<byte>): (r: seq<byte>)
    ensures |r| == CHUNK_BYTES
  {
    seq(CHUNK_BYTES, i => if 0 <= i < |chunk| then chunk[i] else 0)
  }

  /** The first j bytes of a chunk are in whole words, the rest of them backwards at the end
      of the buffer. */
  ghost predicate PackedTo(bytes: seq<byte>, j: int, words: seq<nat>, buffer: seq<byte>, counter: int) {
    && 0 <= counter < WORD_BYTES && j == WORD_BYTES * |words| + counter && j <= |bytes|
    && |buffer| == WORD_BYTES
    && words == Words(bytes[..j - counter])
    && buffer[WORD_BYTES - counter..] == Reversed(bytes[j - counter..j])
  }

  /** The inner loop: eight words out of a chunk, through a buffer filled from its end. */
  method PackChunk(chunk: seq<byte>) returns (words: seq<nat>)
    ensures words == Words(ChunkBytes(chunk)) && |words| == 8
  {
    ghost var bytes := ChunkBytes(chunk);
    words := [];
    var buffer, counter := Zeros(WORD_BYTES), 0;
    NoBytes(bytes);
    hide Words, Reversed, ChunkBytes;
    assert PackedTo(bytes, 0, words, buffer, counter);
    for j := 0 to CHUNK_BYTES
      invariant PackedTo(bytes, j, words, buffer, counter)
    {
      hide PackedTo;
      var b := 0;
      if j < |chunk| {
        b := chunk[j];
      }
      ByteIs(chunk, j);
      words, buffer, counter := PackByte(words, buffer, counter, b, bytes, j);
    }
    assert bytes[..CHUNK_BYTES] == bytes;
  }

  /** One byte of the inner loop: a full buffer becomes a word. */
  method PackByte(words: seq<nat>, buffer: seq<byte>, counter: nat, b: byte, ghost bytes: seq<byte>, ghost j: nat)
    returns (words': seq<nat>, buffer': seq<byte>, counter': nat)
    requires j < |bytes| && PackedTo(bytes, j, words, buffer, counter) && b == bytes[j]
    ensures PackedTo(bytes, j + 1, words', buffer', counter')
  {
    hide Words, Reversed, BigEndian;
    words', counter' := words, counter + 1;
    buffer' := buffer[WORD_BYTES - 1 - counter := b];
    ReversedGrows(bytes, j - counter, j);
    assert buffer'[WORD_BYTES - counter'..] == [b] + buffer[WORD_BYTES - counter..];
    if counter' == WORD_BYTES {
      assert buffer'[0..] == buffer';
      WordComplete(bytes, j + 1, buffer');
      words' := words + [BigEndian(buffer')];
      buffer', counter' := Zeros(WORD_BYTES), 0;
      NoneReversed(bytes, j + 1);
    }
  }

  lemma ByteIs(chunk: seq<byte>, j: nat)
    requires j < CHUNK_BYTES
    ensures ChunkBytes(chunk)[j] == if j < |chunk| then chunk[j] else 0
  {
  }

  lemma NoBytes(bytes: seq<byte>)
    ensures Words(bytes[..0]) == [] && Reversed(bytes[0..0]) == []
  {
  }

  lemma NoneReversed(bytes: seq<byte>, j: nat)
    requires j <= |bytes|
    ensures Reversed(bytes[j..j]) == []
  {
  }

  lemma ReversedGrows(bytes: seq<byte>, from: nat, j: nat)
    requires from <= j < |bytes|
    ensures Reversed(bytes[from..j + 1]) == [bytes[j]] + Reversed(bytes[from..j])
  {
  }

  lemma WordComplete(bytes: seq<byte>, j: nat, buffer: seq<byte>)
    requires WORD_BYTES <= j <= |bytes| && j % WORD_BYTES == 0
    requires buffer == Reversed(bytes[j - WORD_BYTES..j])
    ensures Words(bytes[..j]) == Words(bytes[..j - WORD_BYTES]) + [BigEndian(buffer)]
  {
    var last := bytes[j - WORD_BYTES..j];
    assert bytes[..j] == bytes[..j - WORD_BYTES] + last;
    WordsSplit(bytes[..j - WORD_BYTES], last);
    BigEndianIsReversed(buffer);
    assert Reversed(buffer) == last;
    assert last[..WORD_BYTES] == last && last[WORD_BYTES..] == [];
  }

  /** The padded code, byte by byte. */
  ghost predicate IsPadding(code: seq<byte>, r: seq<byte>) {
    && |code| < |r| <= |code| + 56 && |r| % 56 == 0 && r[..|code|] == code
    && r[|code|] == (if |r| == |code| + 1 then 0x81 else 0x01)
    && (forall k :: |code| < k < |r| ==> r[k] == if k == |r| - 1 then 0x80 else 0x00)
  }

  lemma PaddedIs(code: seq<byte>)
    ensures IsPadding(code, Padded(code))
  {
    assert Padded(code)[..|code|] == code;
  }

  /** The padding loop. */
  method Pad(code: seq<byte>) returns (r: seq<byte>)
    ensures r == Padded(code) && IsPadding(code, r)
  {
    PaddedIs(code);
    r := code + [1];
    ghost var added, fill := 0, Fill(|code| + 1);
    assert code + [1] + Zeros(0) == code + [1];
    hide Fill, SetTopBit, IsPadding;
    while |r| % CHUNK_BYTES != 0
      invariant added <= fill && r == code + [1] + Zeros(added)
      decreases fill - added
    {
      FillStep(|code| + 1, added);
      OneMoreZero(added);
      r := r + [0];
      added := added + 1;
    }
    FillStep(|code| + 1, added);
    r := r[|r| - 1 := SetTopBit(r[|r| - 1])];
  }

  lemma OneMoreZero(n: nat)
    ensures Zeros(n + 1) == Zeros(n) + [0]
  {
  }

  /** Filling up is done exactly when the length is a whole number of chunks. */
  lemma FillStep(n: nat, added: nat)
    requires added <= Fill(n)
    ensures (n + added) % CHUNK_BYTES == 0 <==> added == Fill(n)
  {
    var q, m := n / CHUNK_BYTES, n % CHUNK_BYTES;
    assert n == CHUNK_BYTES * q + m;
    if m > 0 && added == CHUNK_BYTES - m { assert n + added == CHUNK_BYTES * (q + 1); }
  }

  /** The eight words of the i-th 56 bytes. */
  ghost function WordsAt(padded: seq<byte>, i: nat): seq<nat>
    requires (i + 1) * 56 <= |padded|
  {
    Words(padded[i * 56..(i + 1) * 56])
  }

  /** HashContractBytecode: the sponge over exactly the words of the padded code. `trace` holds
      the capacities it went through, from zero to the hash or to the first call that failed. */
  method HashContractBytecode(poseidon: Poseidon, code: seq<byte>)
    returns (r: Result<Capacity>, ghost padded: seq<byte>, ghost trace: seq<Capacity>)
    ensures r == Sponge(poseidon, Absorbed(code), Capacity(0, 0, 0, 0))
    ensures IsPadding(code, padded) && 0 < |trace| <= |padded| / 56 + 1
    ensures trace[0] == Capacity(0, 0, 0, 0)
    ensures forall i :: 0 <= i < |trace| - 1 ==> poseidon(WordsAt(padded, i), trace[i]) == Ok(trace[i + 1])
    ensures r.Ok? ==> |trace| == |padded| / 56 + 1 && r.value == trace[|trace| - 1]
    ensures r.Err? ==> |trace| <= |padded| / 56 && poseidon(WordsAt(padded, |trace| - 1), trace[|trace| - 1]).Err?
  {
    hide IsPadding, Words, Padded, ChunkBytes;
    var bytes := Pad(code);
    padded := bytes;
    PaddingLength(code, bytes);
    var numHashes := |bytes| / CHUNK_BYTES;
    var hash := Capacity(0, 0, 0, 0);
    trace := [hash];
    assert bytes[0..] == bytes;
    for i := 0 to numHashes
      invariant |trace| == i + 1 && trace[0] == Capacity(0, 0, 0, 0) && trace[i] == hash
      invariant forall k :: 0 <= k < i ==> poseidon(WordsAt(bytes, k), trace[k]) == Ok(trace[k + 1])
      invariant Sponge(poseidon, Absorbed(code), Capacity(0, 0, 0, 0))
             == Sponge(poseidon, Words(bytes[i * CHUNK_BYTES..]), hash)
    {
      var from := i * CHUNK_BYTES;
      var upTo := if |bytes| - 1 < from + CHUNK_BYTES then |bytes| else from + CHUNK_BYTES + 1;
      var words := PackChunk(bytes[from..upTo]);
      SpongeStep(bytes, i, bytes[from..upTo]);
      var next := poseidon(words, hash);
      if next.Err? {
        r := Err;
        return;
      }
      hash := next.value;
      trace := trace + [hash];
    }
    assert bytes[numHashes * CHUNK_BYTES..] == [];
    NoBytes(bytes);
    r := Ok(hash);
  }

  lemma PaddingLength(code: seq<byte>, r: seq<byte>)
    requires IsPadding(code, r)
    ensures |r| % CHUNK_BYTES == 0 && |r| > 0
  {
  }

  /** The next eight words are those of the next chunk. */
  lemma SpongeStep(padded: seq<byte>, i: nat, chunk: seq<byte>)
    requires |padded| % CHUNK_BYTES == 0 && (i + 1) * CHUNK_BYTES <= |padded|
    requires |chunk| >= CHUNK_BYTES && i * CHUNK_BYTES + |chunk| <= |padded|
    requires chunk == padded[i * CHUNK_BYTES..i * CHUNK_BYTES + |chunk|]
    ensures var words := Words(padded[i * CHUNK_BYTES..]);
      && |words| >= 8 && words[..8] == Words(ChunkBytes(chunk))
      && words[8..] == Words(padded[(i + 1) * CHUNK_BYTES..])
      && WordsAt(padded, i) == Words(ChunkBytes(chunk))
  {
    var bytes := ChunkBytes(chunk);
    var from := i * CHUNK_BYTES;
    assert bytes == padded[from..from + CHUNK_BYTES];
    assert padded[from..] == bytes + padded[from + CHUNK_BYTES..];
    WordsSplit(bytes, padded[from + CHUNK_BYTES..]);
  }
}
