/** The encrypted backup stream: a header, then length-framed chunks sealed one by one. */
module BackupStream {
  import opened Basics

  type Byte = b: nat | b < 256
  type Bytes = seq<Byte>

  /** An authenticated cipher under one key. */
  datatype Cipher = Cipher(seal: (Bytes, Bytes, Bytes) -> Bytes, open: (Bytes, Bytes, Bytes) -> Option<Bytes>)

  /** The key, and so the cipher, is derived from the passphrase and the salt. */
  type Keys = (string, Bytes) -> Cipher

  const CHUNK: nat := 1_048_576
  const OVERHEAD: nat := 16
  const WRAP: nat := 0x1_0000_0000
  const MAGIC: Bytes := [70, 65, 82, 79, 66, 75, 80, 49]
  const VERSION: Byte := 1

  // ----- numbers

  function BigEndian(n: nat): (b: Bytes)
    requires n < WRAP
    ensures |b| == 4
  {
    [n / 0x100 / 0x100 / 0x100, n / 0x100 / 0x100 % 0x100, n / 0x100 % 0x100, n % 0x100]
  }

  function Append(n: nat, b: Byte): nat {
    n * 0x100 + b
  }

  function FromBigEndian(b: Bytes): (n: nat)
    requires |b| == 4
    ensures n < WRAP
  {
    Append(Append(Append(b[0], b[1]), b[2]), b[3])
  }

  lemma AppendRoundTrip(n: nat, b: Byte)
    ensures Append(n, b) / 0x100 == n && Append(n, b) % 0x100 == b
    ensures Append(n / 0x100, n % 0x100) == n
  {
  }

  lemma BigEndianRoundTrip(n: nat)
    requires n < WRAP
    ensures FromBigEndian(BigEndian(n)) == n
  {
    AppendRoundTrip(n, 0);
    AppendRoundTrip(n / 0x100, 0);
    AppendRoundTrip(n / 0x100 / 0x100, 0);
  }

  lemma FromBigEndianRoundTrip(b: Bytes)
    requires |b| == 4
    ensures BigEndian(FromBigEndian(b)) == b
  {
    AppendRoundTrip(Append(Append(b[0], b[1]), b[2]), b[3]);
    AppendRoundTrip(Append(b[0], b[1]), b[2]);
    AppendRoundTrip(b[0], b[1]);
  }

  /** The counter is a 32-bit number that wraps around. */
  function Next(counter: nat): (next: nat)
    requires counter < WRAP
    ensures next < WRAP
  {
    if counter + 1 == WRAP then 0 else counter + 1
  }

  function Wrapped(k: nat): (counter: nat)
    ensures counter < WRAP
  {
    if k < 0x1_0000_0000 then k else k % 0x1_0000_0000
  }

  // ----- the stream

  function Header(salt: Bytes, prefix: Bytes): Bytes {
    MAGIC + [VERSION] + salt + prefix
  }

  function Nonce(prefix: Bytes, counter: nat): Bytes
    requires counter < WRAP
  {
    prefix + BigEndian(counter)
  }

  function AdditionalData(counter: nat): Bytes
    requires counter < WRAP
  {
    MAGIC + [VERSION] + BigEndian(counter)
  }

  /** The contents of the chunks, each behind a byte that marks the last one. */
  type Plains = seq<Bytes>

  predicate Marked(plains: Plains) {
    && plains != []
    && forall k :: 0 <= k < |plains| ==> 1 <= |plains[k]| <= CHUNK + 1 && plains[k][0] == if k == |plains| - 1 then 1 else 0
  }

  function Sealed(c: Cipher, prefix: Bytes, plains: Plains, k: nat): Bytes
    requires k < |plains|
  {
    c.seal(Nonce(prefix, Wrapped(k)), plains[k], AdditionalData(Wrapped(k)))
  }

  /** The chunks open under their own counters and are longer than their contents by the overhead. */
  ghost predicate OpensItsChunks(c: Cipher, prefix: Bytes, plains: Plains) {
    forall k :: 0 <= k < |plains| ==>
      && c.open(Nonce(prefix, Wrapped(k)), Sealed(c, prefix, plains, k), AdditionalData(Wrapped(k))) == Some(plains[k])
      && |Sealed(c, prefix, plains, k)| == |plains[k]| + OVERHEAD
  }

  predicate Fits(sealed: Bytes) {
    OVERHEAD + 1 <= |sealed| <= CHUNK + 1 + OVERHEAD
  }

  function Frame(sealed: Bytes): Bytes
    requires Fits(sealed)
  {
    BigEndian(|sealed|) + sealed
  }

  predicate AllFit(c: Cipher, prefix: Bytes, plains: Plains) {
    forall k :: 0 <= k < |plains| ==> Fits(Sealed(c, prefix, plains, k))
  }

  /** The chunks from k on. */
  function Chunks(c: Cipher, prefix: Bytes, plains: Plains, k: nat): Bytes
    requires k <= |plains| && AllFit(c, prefix, plains)
    decreases |plains| - k
  {
    if k == |plains| then [] else Frame(Sealed(c, prefix, plains, k)) + Chunks(c, prefix, plains, k + 1)
  }

  /** The contents of the chunks from k on. */
  function Data(plains: Plains, k: nat): Bytes
    requires Marked(plains) && k <= |plains|
    decreases |plains| - k
  {
    if k == |plains| then [] else plains[k][1..] + Data(plains, k + 1)
  }

  lemma ChunksFit(c: Cipher, prefix: Bytes, plains: Plains)
    requires OpensItsChunks(c, prefix, plains) && Marked(plains)
    ensures AllFit(c, prefix, plains)
  {
  }

  // ----- cutting into chunks

  /** The last chunk is the first that is not full: it is empty when the length is a multiple of the chunk size. */
  function Last(x: Bytes): nat {
    |x| / CHUNK
  }

  function Plain(x: Bytes, k: nat): Bytes
    requires k <= Last(x)
  {
    if k < Last(x) then [0] + x[k * CHUNK..(k + 1) * CHUNK] else [1] + x[k * CHUNK..]
  }

  function Cut(x: Bytes): (plains: Plains)
    ensures |plains| == Last(x) + 1 && Marked(plains)
  {
    seq(Last(x) + 1, k requires 0 <= k <= Last(x) => Plain(x, k))
  }

  lemma CutAt(x: Bytes, i: nat, j: nat)
    requires i <= j <= |x|
    ensures x[i..] == x[i..j] + x[j..]
  {
  }

  lemma {:induction false} CutDataFrom(x: Bytes, k: nat)
    requires k <= Last(x)
    ensures Data(Cut(x), k) == x[k * CHUNK..]
    decreases Last(x) - k
  {
    if k < Last(x) {
      CutDataFrom(x, k + 1);
      CutAt(x, k * CHUNK, (k + 1) * CHUNK);
    } else {
      assert Data(Cut(x), k + 1) == [];
    }
  }

  lemma CutData(x: Bytes)
    ensures Data(Cut(x), 0) == x
  {
    CutDataFrom(x, 0);
    assert x[0..] == x;
  }

  // ----- reading

  function NextFrame(s: Bytes, j: nat): (sealed: Option<Bytes>)
    requires j <= |s|
    ensures sealed.Some? ==> j + 4 + |sealed.value| <= |s|
  {
    if |s| - j < 4 then None
    else
      var length := FromBigEndian(s[j..j + 4]);
      if length < OVERHEAD + 1 || length > CHUNK + 1 + OVERHEAD || |s| - j - 4 < length then None
      else Some(s[j + 4..j + 4 + length])
  }

  function End(s: Bytes, j: nat): (end: nat)
    requires j <= |s| && NextFrame(s, j).Some?
    ensures j < end <= |s|
  {
    j + 4 + |NextFrame(s, j).value|
  }

  /** The contents of the chunk at j: None when it is cut short, does not open, or is not marked. */
  function Opened(c: Cipher, prefix: Bytes, s: Bytes, j: nat, counter: nat): (plain: Option<Bytes>)
    requires j <= |s| && counter < WRAP
    ensures plain.Some? ==> NextFrame(s, j).Some? && |plain.value| > 0 && plain.value[0] <= 1
    ensures plain.Some? ==> c.open(Nonce(prefix, counter), NextFrame(s, j).value, AdditionalData(counter)) == plain
  {
    if NextFrame(s, j).None? then None
    else
      var plain := c.open(Nonce(prefix, counter), NextFrame(s, j).value, AdditionalData(counter));
      if plain.None? || |plain.value| == 0 || plain.value[0] > 1 then None else plain
  }

  /** The chunks at j, counting from `counter`; None for a stream that is not accepted. */
  function Read(c: Cipher, prefix: Bytes, s: Bytes, j: nat, counter: nat): Option<Bytes>
    requires j <= |s| && counter < WRAP
    decreases |s| - j
  {
    var plain := Opened(c, prefix, s, j, counter);
    if plain.None? then None
    else if plain.value[0] == 1 then (if End(s, j) == |s| then Some(plain.value[1..]) else None)
    else Before(plain.value[1..], Read(c, prefix, s, End(s, j), Next(counter)))
  }

  function Before(data: Bytes, rest: Option<Bytes>): Option<Bytes> {
    if rest.None? then None else Some(data + rest.value)
  }

  function Decrypted(keys: Keys, passphrase: string, s: Bytes): Option<Bytes> {
    if |s| < 33 || s[..9] != MAGIC + [VERSION] then None
    else Read(keys(passphrase, s[9..25]), s[25..33], s, 33, 0)
  }

  function Encrypted(keys: Keys, passphrase: string, salt: Bytes, prefix: Bytes, x: Bytes): Bytes
    requires OpensItsChunks(keys(passphrase, salt), prefix, Cut(x))
  {
    ChunksFit(keys(passphrase, salt), prefix, Cut(x));
    Header(salt, prefix) + Chunks(keys(passphrase, salt), prefix, Cut(x), 0)
  }

  // ----- the format

  /** Four bytes, the most significant first. */
  lemma BigEndianIs(n: nat)
    requires n < WRAP
    ensures var b: seq<int> := BigEndian(n);
      b[0] * 16777216 + b[1] * 65536 + b[2] * 256 + b[3] == n
  {
    BigEndianRoundTrip(n);
  }

  /** The eight letters FAROBKP1 and the version, in front of the salt and the nonce prefix. */
  lemma HeaderIs(keys: Keys, passphrase: string, salt: Bytes, prefix: Bytes, x: Bytes)
    requires OpensItsChunks(keys(passphrase, salt), prefix, Cut(x))
    ensures [70, 65, 82, 79, 66, 75, 80, 49, 1] + salt + prefix <= Encrypted(keys, passphrase, salt, prefix, x)
  {
    assert MAGIC + [VERSION] == [70, 65, 82, 79, 66, 75, 80, 49, 1];
  }

  /** Chunk k holds the k-th 1 MiB of the data, or what is left of it, behind a byte that marks the last one. Its nonce is the
      prefix and its number, and its additional data the nine bytes of the header and its number. */
  lemma ChunkIs(c: Cipher, prefix: Bytes, x: Bytes, k: nat)
    requires k <= |x| / 1048576
    ensures k < |Cut(x)| == |x| / 1048576 + 1
    ensures var number := BigEndian(k % 0x1_0000_0000);
      var last := k == |x| / 1048576;
      var from, upto := k * 1048576, if last then |x| else (k + 1) * 1048576;
      && from <= upto <= |x|
      && Sealed(c, prefix, Cut(x), k) ==
           c.seal(prefix + number, [if last then 1 else 0] + x[from..upto], [70, 65, 82, 79, 66, 75, 80, 49, 1] + number)
  {
    assert MAGIC + [VERSION] == [70, 65, 82, 79, 66, 75, 80, 49, 1];
    assert Wrapped(k) == k % 0x1_0000_0000;
    assert x[k * CHUNK..] == x[k * CHUNK..|x|];
  }

  /** Each chunk follows its length. */
  lemma FramesAre(c: Cipher, prefix: Bytes, plains: Plains, k: nat)
    requires k < |plains| && AllFit(c, prefix, plains)
    ensures |Sealed(c, prefix, plains, k)| < WRAP
    ensures Chunks(c, prefix, plains, k) ==
      BigEndian(|Sealed(c, prefix, plains, k)|) + Sealed(c, prefix, plains, k) + Chunks(c, prefix, plains, k + 1)
  {
  }

  // ----- round trip

  lemma FrameIsRead(a: Bytes, sealed: Bytes, rest: Bytes, s: Bytes)
    requires Fits(sealed) && s == a + (Frame(sealed) + rest)
    ensures NextFrame(s, |a|) == Some(sealed) && End(s, |a|) == |a + Frame(sealed)|
  {
    BigEndianRoundTrip(|sealed|);
    var front := a + BigEndian(|sealed|);
    assert s == front + sealed + rest;
    assert s[|a|..|front|] == BigEndian(|sealed|);
    assert s[|front|..|front| + |sealed|] == sealed;
  }

  lemma Regrouped(a: Bytes, b: Bytes, rest: Bytes)
    ensures a + (b + rest) == (a + b) + rest
  {
  }

  lemma {:induction false} ChunksAreRead(c: Cipher, prefix: Bytes, plains: Plains, k: nat, a: Bytes, s: Bytes)
    requires Marked(plains) && OpensItsChunks(c, prefix, plains) && AllFit(c, prefix, plains) && k < |plains|
    requires s == a + Chunks(c, prefix, plains, k)
    ensures Read(c, prefix, s, |a|, Wrapped(k)) == Some(Data(plains, k))
    decreases |plains| - k
  {
    var sealed, rest := Sealed(c, prefix, plains, k), Chunks(c, prefix, plains, k + 1);
    FrameIsRead(a, sealed, rest, s);
    assert Opened(c, prefix, s, |a|, Wrapped(k)) == Some(plains[k]);
    if k < |plains| - 1 {
      Regrouped(a, Frame(sealed), rest);
      ChunksAreRead(c, prefix, plains, k + 1, a + Frame(sealed), s);
      NextCounter(k);
    } else {
      assert |s| == |a + Frame(sealed)|;
      assert plains[k][1..] + [] == plains[k][1..];
    }
  }

  lemma NextCounter(k: nat)
    ensures Next(Wrapped(k)) == Wrapped(k + 1)
  {
  }

  /** Decrypting undoes encrypting, for every length: the counter wraps around alike on both sides. */
  lemma RoundTrip(keys: Keys, passphrase: string, salt: Bytes, prefix: Bytes, x: Bytes)
    requires OpensItsChunks(keys(passphrase, salt), prefix, Cut(x)) && |salt| == 16 && |prefix| == 8
    ensures Decrypted(keys, passphrase, Encrypted(keys, passphrase, salt, prefix, x)) == Some(x)
  {
    var s := Encrypted(keys, passphrase, salt, prefix, x);
    var h := Header(salt, prefix);
    assert s[..9] == MAGIC + [VERSION] && s[9..25] == salt && s[25..33] == prefix;
    ChunksFit(keys(passphrase, salt), prefix, Cut(x));
    ChunksAreRead(keys(passphrase, salt), prefix, Cut(x), 0, h, s);
    CutData(x);
  }

  // ----- integrity

  ghost predicate IsChunk(c: Cipher, prefix: Bytes, plains: Plains, k: nat, nonce: Bytes, sealed: Bytes) {
    k < |plains| && nonce == Nonce(prefix, Wrapped(k)) && sealed == Sealed(c, prefix, plains, k)
  }

  ghost predicate SomeChunk(c: Cipher, prefix: Bytes, plains: Plains, nonce: Bytes, sealed: Bytes) {
    exists k: nat :: IsChunk(c, prefix, plains, k, nonce, sealed)
  }

  /** Under this cipher, and with nonces of this prefix, only these chunks open. */
  ghost predicate OnlyChunksOpen(c: Cipher, prefix: Bytes, plains: Plains) {
    forall counter: nat, sealed, a :: counter < WRAP && c.open(Nonce(prefix, counter), sealed, a).Some? ==>
      SomeChunk(c, prefix, plains, Nonce(prefix, counter), sealed)
  }

  /** A backup that was made: the salt and the nonce prefix drawn for it, and what it holds. */
  datatype Backup = Backup(salt: Bytes, prefix: Bytes, data: Bytes)

  predicate WellMade(b: Backup) {
    |b.salt| == 16 && |b.prefix| == 8 && Last(b.data) < WRAP
  }

  ghost predicate OpensUnder(keys: Keys, passphrase: string, b: Backup) {
    OpensItsChunks(keys(passphrase, b.salt), b.prefix, Cut(b.data))
  }

  function StreamOf(keys: Keys, passphrase: string, b: Backup): Bytes
    requires OpensUnder(keys, passphrase, b)
  {
    Encrypted(keys, passphrase, b.salt, b.prefix, b.data)
  }

  ghost predicate ChunkOf(keys: Keys, passphrase: string, made: set<Backup>, salt: Bytes, nonce: Bytes, sealed: Bytes) {
    exists b :: b in made && b.salt == salt && SomeChunk(keys(passphrase, salt), b.prefix, Cut(b.data), nonce, sealed)
  }

  /** Ideal authentication: under this passphrase, whatever the salt, nothing opens but the chunks of the backups that were
      made with it; no two of them drew the same salt and prefix. */
  ghost predicate Ideal(keys: Keys, passphrase: string, made: set<Backup>) {
    && (forall b :: b in made ==> WellMade(b) && OpensUnder(keys, passphrase, b))
    && (forall b, other :: b in made && other in made && b.salt == other.salt && b.prefix == other.prefix ==> b == other)
    && (forall salt, nonce, sealed, a :: keys(passphrase, salt).open(nonce, sealed, a).Some? ==>
          ChunkOf(keys, passphrase, made, salt, nonce, sealed))
  }

  lemma NonceIsInjective(prefix: Bytes, m: nat, other: Bytes, n: nat)
    requires m < WRAP && n < WRAP && |prefix| == |other| && Nonce(prefix, m) == Nonce(other, n)
    ensures prefix == other && m == n
  {
    var a, b := Nonce(prefix, m), Nonce(other, n);
    assert a[..|prefix|] == prefix && b[..|other|] == other;
    assert a[|prefix|..] == BigEndian(m) && b[|other|..] == BigEndian(n);
    BigEndianRoundTrip(m);
    BigEndianRoundTrip(n);
  }

  lemma WrapsAround(k: nat)
    ensures Wrapped(k + WRAP) == Wrapped(k)
  {
    assert (k + 0x1_0000_0000) % 0x1_0000_0000 == k % 0x1_0000_0000;
  }

  /** Beyond 2^32 chunks nonces repeat, and two chunks could change places. */
  lemma NonceRepeats(prefix: Bytes, k: nat)
    ensures Nonce(prefix, Wrapped(k)) == Nonce(prefix, Wrapped(k + WRAP))
  {
    WrapsAround(k);
    var a, b := Wrapped(k), Wrapped(k + WRAP);
    assert a == b;
  }

  /** What opens in the place of chunk k is chunk k. */
  lemma OnlyItsOwnPlace(c: Cipher, prefix: Bytes, plains: Plains, p: Bytes, k: nat, sealed: Bytes)
    requires k < |plains| <= WRAP && |p| == |prefix| && SomeChunk(c, prefix, plains, Nonce(p, k), sealed)
    ensures p == prefix && sealed == Sealed(c, prefix, plains, k)
  {
    var i: nat :| IsChunk(c, prefix, plains, i, Nonce(p, k), sealed);
    assert Wrapped(i) == i;
    NonceIsInjective(prefix, i, p, k);
  }

  lemma FrameWasWritten(s: Bytes, j: nat)
    requires j <= |s| && NextFrame(s, j).Some?
    ensures Fits(NextFrame(s, j).value) && s[j..] == Frame(NextFrame(s, j).value) + s[End(s, j)..]
  {
    var sealed := NextFrame(s, j).value;
    FromBigEndianRoundTrip(s[j..j + 4]);
    assert s[j..j + 4] == BigEndian(|sealed|);
    assert s[j..] == s[j..j + 4] + sealed + s[j + 4 + |sealed|..];
  }

  lemma OpenedIs(c: Cipher, prefix: Bytes, plains: Plains, s: Bytes, j: nat, k: nat)
    requires OnlyChunksOpen(c, prefix, plains) && OpensItsChunks(c, prefix, plains)
    requires k < |plains| <= WRAP && j <= |s| && Opened(c, prefix, s, j, k).Some?
    ensures Opened(c, prefix, s, j, k) == Some(plains[k]) && NextFrame(s, j).value == Sealed(c, prefix, plains, k)
  {
    OnlyItsOwnPlace(c, prefix, plains, prefix, k, NextFrame(s, j).value);
    assert Wrapped(k) == k;
  }

  lemma {:induction false} ReadIsWhole(c: Cipher, prefix: Bytes, plains: Plains, s: Bytes, j: nat, k: nat)
    requires OnlyChunksOpen(c, prefix, plains) && OpensItsChunks(c, prefix, plains) && AllFit(c, prefix, plains) && Marked(plains)
    requires k < |plains| <= WRAP && j <= |s| && Read(c, prefix, s, j, k).Some?
    ensures s[j..] == Chunks(c, prefix, plains, k) && Read(c, prefix, s, j, k).value == Data(plains, k)
    decreases |plains| - k
  {
    OpenedIs(c, prefix, plains, s, j, k);
    FrameWasWritten(s, j);
    if k < |plains| - 1 {
      ReadIsWhole(c, prefix, plains, s, End(s, j), k + 1);
    }
  }

  /** Which backup a chunk with this salt and this nonce belongs to can be told from its nonce. */
  lemma ChunkTells(keys: Keys, passphrase: string, made: set<Backup>, salt: Bytes, prefix: Bytes, counter: nat, sealed: Bytes)
      returns (b: Backup)
    requires Ideal(keys, passphrase, made) && |prefix| == 8 && counter < WRAP
    requires ChunkOf(keys, passphrase, made, salt, Nonce(prefix, counter), sealed)
    ensures b in made && b.salt == salt && b.prefix == prefix
    ensures SomeChunk(keys(passphrase, salt), prefix, Cut(b.data), Nonce(prefix, counter), sealed)
  {
    b :| b in made && b.salt == salt && SomeChunk(keys(passphrase, salt), b.prefix, Cut(b.data), Nonce(prefix, counter), sealed);
    var k: nat :| IsChunk(keys(passphrase, salt), b.prefix, Cut(b.data), k, Nonce(prefix, counter), sealed);
    NonceIsInjective(b.prefix, Wrapped(k), prefix, counter);
  }

  lemma OnlyItsChunksOpen(keys: Keys, passphrase: string, made: set<Backup>, b: Backup)
    requires Ideal(keys, passphrase, made) && b in made
    ensures OnlyChunksOpen(keys(passphrase, b.salt), b.prefix, Cut(b.data))
  {
    var c := keys(passphrase, b.salt);
    forall counter: nat, sealed, a | counter < WRAP && c.open(Nonce(b.prefix, counter), sealed, a).Some?
      ensures SomeChunk(c, b.prefix, Cut(b.data), Nonce(b.prefix, counter), sealed)
    {
      var other := ChunkTells(keys, passphrase, made, b.salt, b.prefix, counter, sealed);
    }
  }

  /** However many backups were made under a passphrase: a stream is accepted exactly when it is one of them, whole and chunk
      by chunk, and then it gives back exactly what that one holds. Nothing can be cut off, reordered, repeated, added or
      moved from one backup to another. */
  lemma Integrity(keys: Keys, passphrase: string, made: set<Backup>, s: Bytes)
    requires Ideal(keys, passphrase, made)
    ensures Decrypted(keys, passphrase, s).Some? <==> exists b :: b in made && s == StreamOf(keys, passphrase, b)
    ensures forall b :: b in made && s == StreamOf(keys, passphrase, b) ==> Decrypted(keys, passphrase, s) == Some(b.data)
  {
    forall b | b in made && s == StreamOf(keys, passphrase, b)
      ensures Decrypted(keys, passphrase, s) == Some(b.data)
    {
      RoundTrip(keys, passphrase, b.salt, b.prefix, b.data);
    }
    if Decrypted(keys, passphrase, s).Some? {
      var b := AcceptedIsMade(keys, passphrase, made, s);
    }
  }

  lemma AcceptedIsMade(keys: Keys, passphrase: string, made: set<Backup>, s: Bytes) returns (b: Backup)
    requires Ideal(keys, passphrase, made) && Decrypted(keys, passphrase, s).Some?
    ensures b in made && s == StreamOf(keys, passphrase, b)
  {
    var salt, prefix := s[9..25], s[25..33];
    assert Opened(keys(passphrase, salt), prefix, s, 33, 0).Some?;
    b := ChunkTells(keys, passphrase, made, salt, prefix, 0, NextFrame(s, 33).value);
    OnlyItsChunksOpen(keys, passphrase, made, b);
    AcceptedIsWhole(keys(passphrase, salt), prefix, Cut(b.data), s);
    HeaderParts(s);
  }

  lemma HeaderParts(s: Bytes)
    requires |s| >= 33 && s[..9] == MAGIC + [VERSION]
    ensures s == Header(s[9..25], s[25..33]) + s[33..]
  {
    assert s == s[..9] + s[9..25] + s[25..33] + s[33..];
  }

  lemma AcceptedIsWhole(c: Cipher, prefix: Bytes, plains: Plains, s: Bytes)
    requires OnlyChunksOpen(c, prefix, plains) && OpensItsChunks(c, prefix, plains) && Marked(plains) && |plains| <= WRAP
    requires |s| >= 33 && Read(c, prefix, s, 33, 0).Some?
    ensures AllFit(c, prefix, plains) && s[33..] == Chunks(c, prefix, plains, 0)
  {
    ChunksFit(c, prefix, plains);
    ReadIsWhole(c, prefix, plains, s, 33, 0);
  }

  // ----- such ciphers exist

  function Padded(plain: Bytes): Bytes {
    plain + seq(OVERHEAD, i => 0)
  }

  ghost predicate IsPadded(made: set<Backup>, salt: Bytes, nonce: Bytes, sealed: Bytes, b: Backup, plains: Plains, k: nat) {
    && b in made && b.salt == salt && plains == Cut(b.data) && k < |plains|
    && nonce == Nonce(b.prefix, Wrapped(k)) && sealed == Padded(plains[k])
  }

  ghost predicate IsInTable(made: set<Backup>, salt: Bytes, nonce: Bytes, sealed: Bytes) {
    exists b, plains, k: nat :: IsPadded(made, salt, nonce, sealed, b, plains, k)
  }

  /** A table of the chunks that were made: what the assumptions about the cipher ask for, and no more. */
  ghost function TableOf(made: set<Backup>): Keys {
    (passphrase: string, salt: Bytes) => Cipher(
      (nonce: Bytes, plain: Bytes, a: Bytes) => Padded(plain),
      (nonce: Bytes, sealed: Bytes, a: Bytes) =>
        if |sealed| >= OVERHEAD && IsInTable(made, salt, nonce, sealed) then Some(sealed[..|sealed| - OVERHEAD])
        else None)
  }

  /** The assumptions of the integrity theorem can be met, whatever backups are made. */
  lemma IdealCiphersExist(passphrase: string, made: set<Backup>)
    requires forall b :: b in made ==> WellMade(b)
    requires forall b, other :: b in made && other in made && b.salt == other.salt && b.prefix == other.prefix ==> b == other
    ensures Ideal(TableOf(made), passphrase, made)
  {
    var keys := TableOf(made);
    forall b | b in made
      ensures OpensUnder(keys, passphrase, b)
    {
      TableOpens(passphrase, made, b);
    }
    forall salt, nonce, sealed, a | keys(passphrase, salt).open(nonce, sealed, a).Some?
      ensures ChunkOf(keys, passphrase, made, salt, nonce, sealed)
    {
      TableHolds(passphrase, made, salt, nonce, sealed);
    }
  }

  lemma TableHolds(passphrase: string, made: set<Backup>, salt: Bytes, nonce: Bytes, sealed: Bytes)
    requires IsInTable(made, salt, nonce, sealed)
    ensures ChunkOf(TableOf(made), passphrase, made, salt, nonce, sealed)
  {
    var b, plains, k: nat :| IsPadded(made, salt, nonce, sealed, b, plains, k);
    assert IsChunk(TableOf(made)(passphrase, salt), b.prefix, plains, k, nonce, sealed);
    assert SomeChunk(TableOf(made)(passphrase, salt), b.prefix, plains, nonce, sealed);
  }

  lemma TableOpens(passphrase: string, made: set<Backup>, b: Backup)
    requires b in made
    ensures OpensUnder(TableOf(made), passphrase, b)
  {
    var c, plains := TableOf(made)(passphrase, b.salt), Cut(b.data);
    forall k | 0 <= k < |plains|
      ensures c.open(Nonce(b.prefix, Wrapped(k)), Sealed(c, b.prefix, plains, k), AdditionalData(Wrapped(k))) == Some(plains[k])
      ensures |Sealed(c, b.prefix, plains, k)| == |plains[k]| + OVERHEAD
    {
      TableOpensOne(passphrase, made, b, plains, k);
    }
  }

  lemma TableOpensOne(passphrase: string, made: set<Backup>, b: Backup, plains: Plains, k: nat)
    requires b in made && plains == Cut(b.data) && k < |plains|
    ensures var c := TableOf(made)(passphrase, b.salt);
      && c.open(Nonce(b.prefix, Wrapped(k)), Sealed(c, b.prefix, plains, k), AdditionalData(Wrapped(k))) == Some(plains[k])
      && |Sealed(c, b.prefix, plains, k)| == |plains[k]| + OVERHEAD
  {
    var plain := plains[k];
    assert IsPadded(made, b.salt, Nonce(b.prefix, Wrapped(k)), Padded(plain), b, plains, k);
    assert |Padded(plain)| == |plain| + OVERHEAD && Padded(plain)[..|plain|] == plain;
  }

  // ----- the loops

  method Encrypt(keys: Keys, passphrase: string, salt: Bytes, prefix: Bytes, x: Bytes) returns (out: Bytes)
    requires OpensItsChunks(keys(passphrase, salt), prefix, Cut(x))
    ensures out == Encrypted(keys, passphrase, salt, prefix, x)
  {
    out := Header(salt, prefix);
    var chunks := WriteChunks(keys(passphrase, salt), prefix, x);
    out := out + chunks;
  }

  method WriteChunks(c: Cipher, prefix: Bytes, x: Bytes) returns (out: Bytes)
    requires OpensItsChunks(c, prefix, Cut(x))
    ensures AllFit(c, prefix, Cut(x)) && out == Chunks(c, prefix, Cut(x), 0)
  {
    ghost var plains := Cut(x);
    ChunksFit(c, prefix, plains);
    out := [];
    var counter, position, final := 0, 0, false;
    ghost var k: nat := 0;
    while !final
      invariant k <= |plains| && (final <==> k == |plains|)
      invariant !final ==> counter == Wrapped(k) && position == k * CHUNK
      invariant out + Chunks(c, prefix, plains, k) == Chunks(c, prefix, plains, 0)
      decreases |plains| - k
    {
      final := |x| - position < CHUNK;
      var plain := if final then [1] + x[position..] else [0] + x[position..position + CHUNK];
      assert plain == plains[k];
      var sealed := c.seal(Nonce(prefix, counter), plain, AdditionalData(counter));
      Regrouped(out, Frame(sealed), Chunks(c, prefix, plains, k + 1));
      NextCounter(k);
      out := out + Frame(sealed);
      counter, position, k := Next(counter), position + CHUNK, k + 1;
    }
  }

  method Decrypt(keys: Keys, passphrase: string, s: Bytes) returns (out: Option<Bytes>)
    ensures out == Decrypted(keys, passphrase, s)
  {
    if |s| < 33 || s[..9] != MAGIC + [VERSION] {
      return None;
    }
    out := ReadChunks(keys(passphrase, s[9..25]), s[25..33], s);
  }

  method ReadChunks(c: Cipher, prefix: Bytes, s: Bytes) returns (out: Option<Bytes>)
    requires |s| >= 33
    ensures out == Read(c, prefix, s, 33, 0)
  {
    var written: Bytes := [];
    var j: nat, counter: nat := 33, 0;
    ghost var all := Read(c, prefix, s, 33, 0);
    NothingBefore(all);
    while true
      invariant j <= |s| && counter < WRAP && all == Before(written, Read(c, prefix, s, j, counter))
      decreases |s| - j
    {
      var plain := Opened(c, prefix, s, j, counter);
      if plain.None? {
        return None;
      }
      var final, data, end := plain.value[0] == 1, plain.value[1..], End(s, j);
      if !final {
        BeforeTwice(written, data, Read(c, prefix, s, end, Next(counter)));
      }
      written := written + data;
      if final {
        return if end == |s| then Some(written) else None;
      }
      j, counter := end, Next(counter);
    }
  }

  lemma NothingBefore(rest: Option<Bytes>)
    ensures Before([], rest) == rest
  {
    assert rest.Some? ==> [] + rest.value == rest.value;
  }

  lemma BeforeTwice(a: Bytes, b: Bytes, rest: Option<Bytes>)
    ensures Before(a, Before(b, rest)) == Before(a + b, rest)
  {
    assert rest.Some? ==> a + (b + rest.value) == a + b + rest.value;
  }
}
