/**
 A whole chunk file: compression, padding, encryption and erasure coding, and the way back (src/duplicacy_chunk.go).
 */
module ChunkFile {
  import opened Wrappers
  import opened ByteStreams
  import opened ChunkFrame

  datatype Compressor = Compressor(pack: Bytes -> Bytes, unpack: Bytes -> Result<Bytes>)

  /** Sealing and opening under a key and a nonce. */
  datatype Cipher = Cipher(seal: (Bytes, Bytes, Bytes) -> Bytes, open: (Bytes, Bytes, Bytes) -> Result<Bytes>)

  datatype Tools = Tools(lz4: Compressor, zstd: Compressor, zlib: Compressor, cipher: Cipher, derive: (Bytes, Bytes) -> Bytes, coder: Coder)

  /** How chunks are written. No key means no encryption; `wrap` encrypts the key of a single chunk with an RSA key. */
  datatype Settings = Settings(level: int, key: Bytes, derivation: Bytes, wrap: Option<Bytes -> Bytes>, d: nat, p: nat)

  const LZ4_TAG: Bytes := [76, 90, 52, 32]
  const ZSTD_TAG: Bytes := [90, 83, 84, 68]

  const LZ4_LEVEL := 100
  const ZSTD_FASTEST := 200
  const ZSTD_BEST := 203

  /** The text before the version of an encrypted chunk. */
  const ENCRYPTED_NAME: Bytes := [100, 117, 112, 108, 105, 99, 97, 99, 121]

  const PLAIN_VERSION: byte := 0
  const RSA_VERSION: byte := 2
  const NONCE_LENGTH: nat := 12

  // ---------- what the libraries promise ----------

  ghost predicate Restores(c: Compressor, data: Bytes) {
    c.unpack(c.pack(data)) == Ok(data)
  }

  /** A stream of the zlib format starts with its method byte. */
  ghost predicate StartsRight(c: Compressor, data: Bytes) {
    c.pack(data) != [] && c.pack(data)[0] == 120
  }

  ghost predicate Opens(c: Cipher, key: Bytes, nonce: Bytes, text: Bytes) {
    c.open(key, nonce, c.seal(key, nonce, text)) == Ok(text)
  }

  ghost predicate IsLawful(t: Tools) {
    && (forall data :: Restores(t.lz4, data) && t.lz4.pack(data) != [])
    && (forall data :: Restores(t.zstd, data))
    && (forall data :: Restores(t.zlib, data) && StartsRight(t.zlib, data)) && t.zlib.unpack(ZSTD_TAG).Err?
    && (forall key, nonce, text :: Opens(t.cipher, key, nonce, text))
  }

  // ---------- compression ----------

  function Compress(t: Tools, level: int, data: Bytes): (r: Result<Bytes>) {
    if -1 <= level <= 9 then Ok(t.zlib.pack(data))
    else if ZSTD_FASTEST <= level <= ZSTD_BEST then Ok(ZSTD_TAG + t.zstd.pack(data))
    else if level == LZ4_LEVEL then Ok(LZ4_TAG + t.lz4.pack(data))
    else Err
  }

  function Decompress(t: Tools, s: Bytes): (r: Result<Bytes>) {
    if |s| > 4 && s[..4] == LZ4_TAG then t.lz4.unpack(s[4..])
    else if |s| > 4 && s[..4] == ZSTD_TAG then t.zstd.unpack(s[4..])
    else t.zlib.unpack(s)
  }

  /** Nothing follows the tag: the chunk would be taken for zlib data. */
  predicate IsBareTag(t: Tools, level: int, data: Bytes) {
    ZSTD_FASTEST <= level <= ZSTD_BEST && t.zstd.pack(data) == []
  }

  lemma TaggedParts(tag: Bytes, rest: Bytes)
    requires |tag| == 4
    ensures (tag + rest)[..4] == tag && (tag + rest)[4..] == rest
  {
  }

  lemma Untagged(s: Bytes, tag: Bytes)
    requires |s| >= 4 == |tag| && s[0] != tag[0]
    ensures s[..4] != tag
  {
    assert s[..4][0] == s[0];
  }

  /** Data compressed at any level is found again, unless nothing follows the tag. */
  lemma CompressionRoundTrip(t: Tools, level: int, data: Bytes)
    requires IsLawful(t) && Compress(t, level, data).Ok?
    ensures Decompress(t, Compress(t, level, data).value) == Ok(data) <==> !IsBareTag(t, level, data)
  {
    if -1 <= level <= 9 {
      var s := t.zlib.pack(data);
      assert Restores(t.zlib, data) && StartsRight(t.zlib, data);
      if |s| > 4 {
        Untagged(s, LZ4_TAG);
        Untagged(s, ZSTD_TAG);
      }
    } else if level == LZ4_LEVEL {
      assert Restores(t.lz4, data);
      TaggedParts(LZ4_TAG, t.lz4.pack(data));
    } else {
      assert Restores(t.zstd, data);
      TaggedParts(ZSTD_TAG, t.zstd.pack(data));
      assert ZSTD_TAG + [] == ZSTD_TAG;
    }
  }

  /** What compression writes at each level: zlib data, or a tag of four letters and the data of another format. */
  lemma CompressedFormat(t: Tools, level: int, data: Bytes)
    ensures Compress(t, level, data) ==
      if -1 <= level <= 9 then Ok(t.zlib.pack(data))
      else if 200 <= level <= 203 then Ok([90, 83, 84, 68] + t.zstd.pack(data))
      else if level == 100 then Ok([76, 90, 52, 32] + t.lz4.pack(data))
      else Err
  {
  }

  /** No compressed chunk can be taken for a framed one. */
  lemma CompressedIsNoFrame(t: Tools, level: int, data: Bytes)
    requires IsLawful(t) && Compress(t, level, data).Ok?
    ensures HasNoBanner(Compress(t, level, data).value)
  {
    var s := Compress(t, level, data).value;
    assert StartsRight(t.zlib, data);
    assert s[0] != BANNER[0];
    if |s| > 10 {
      assert s[..10][0] == s[0];
    }
  }

  predicate HasNoBanner(s: Bytes) {
    !IsFramedFile(s)
  }

  // ---------- encryption ----------

  /** Keys have one of the three lengths of AES. */
  predicate IsKey(key: Bytes) {
    |key| == 16 || |key| == 24 || |key| == 32
  }

  function DerivedKey(t: Tools, key: Bytes, derivation: Bytes): (k: Bytes) {
    if derivation != [] then t.derive(derivation, key) else key
  }

  /** What stands before the sealed part: name, version, the wrapped key if there is one, and the nonce. */
  function Head(wrapped: Option<Bytes>, nonce: Bytes): (s: Bytes) {
    match wrapped
    case None => ENCRYPTED_NAME + [PLAIN_VERSION] + nonce
    case Some(w) => ENCRYPTED_NAME + [RSA_VERSION] + LittleEndian(|w|, 2) + w + nonce
  }

  /** Pads what follows the head, and seals it. */
  function Seal(c: Cipher, key: Bytes, nonce: Bytes, head: Bytes, text: Bytes): (s: Bytes) {
    head + c.seal(key, nonce, Padded(head + text, |head|)[|head|..])
  }

  function Encrypt(t: Tools, s: Settings, nonce: Bytes, random: Bytes, text: Bytes): (r: Result<Bytes>) {
    if s.key == [] then Ok(text)
    else
      var key := if s.wrap.Some? then random else DerivedKey(t, s.key, s.derivation);
      var wrapped := if s.wrap.Some? then Some(s.wrap.value(random)) else None;
      if !IsKey(key) then Err else Ok(Seal(t.cipher, key, nonce, Head(wrapped, nonce), text))
  }

  /** Where the nonce starts, and the key, as they are read from the head. */
  function ReadHead(t: Tools, key: Bytes, derivation: Bytes, unwrap: Option<Bytes -> Result<Bytes>>, s: Bytes): (r: Result<(nat, Bytes)>)
    ensures r.Ok? ==> r.value.0 + NONCE_LENGTH <= |s|
  {
    if |s| < |ENCRYPTED_NAME| + 1 + NONCE_LENGTH || s[..|ENCRYPTED_NAME|] != ENCRYPTED_NAME then Err
    else if s[|ENCRYPTED_NAME|] == PLAIN_VERSION then Ok((|ENCRYPTED_NAME| + 1, DerivedKey(t, key, derivation)))
    else if s[|ENCRYPTED_NAME|] != RSA_VERSION || unwrap.None? then Err
    else
      var length := Value(s[10..12]);
      if |s| < 10 + 14 + length then Err
      else
        match unwrap.value(s[12..12 + length])
        case Err => Err
        case Ok(k) => Ok((12 + length, k))
  }

  /** Takes the padding off what was opened, and the head. */
  function Unpad(s: Bytes, offset: nat): (r: Result<Bytes>)
    requires 0 < offset <= |s|
  {
    var n := StatedLength(s[|s| - 1]);
    if EndsInPadding(s, n) && offset <= |s| - n then Ok(s[offset..|s| - n]) else Err
  }

  function Decrypt(t: Tools, key: Bytes, derivation: Bytes, unwrap: Option<Bytes -> Result<Bytes>>, s: Bytes): (r: Result<Bytes>) {
    if key == [] then Ok(s)
    else
      match ReadHead(t, key, derivation, unwrap, s)
      case Err => Err
      case Ok((start, k)) =>
        if !IsKey(k) then Err
        else
          var offset := start + NONCE_LENGTH;
          match t.cipher.open(k, s[start..offset], s[offset..])
          case Err => Err
          case Ok(text) => Unpad(s[..offset] + text, offset)
  }

  /** What encryption writes, by positions: the text `duplicacy`, a version, the wrapped key with its length if there is one,
      the nonce, and what the cipher makes of the text and its padding under the key that was derived or wrapped. */
  lemma EncryptedFormat(t: Tools, s: Settings, nonce: Bytes, random: Bytes, text: Bytes)
    requires s.key != [] && |nonce| == 12 && Encrypt(t, s, nonce, random, text).Ok?
    requires s.wrap.Some? ==> |s.wrap.value(random)| < 65536
    ensures
      var r := Encrypt(t, s, nonce, random, text).value;
      var w := if s.wrap.Some? then s.wrap.value(random) else [];
      var at := if s.wrap.Some? then 12 + |w| else 10;
      var key := if s.wrap.Some? then random else if s.derivation != [] then t.derive(s.derivation, s.key) else s.key;
      var n := 256 - |text| % 256;
      && |r| >= at + 12 && r[..9] == [100, 117, 112, 108, 105, 99, 97, 99, 121]
      && (s.wrap.None? ==> r[9] == 0)
      && (s.wrap.Some? ==> r[9] == 2 && r[10] as nat + 256 * r[11] as nat == |w| && r[12..at] == w)
      && r[at..at + 12] == nonce && (|key| == 16 || |key| == 24 || |key| == 32)
      && r[at + 12..] == t.cipher.seal(key, nonce, text + Repeat((n % 256) as byte, n))
  {
    var key := if s.wrap.Some? then random else DerivedKey(t, s.key, s.derivation);
    var wrapped := if s.wrap.Some? then Some(s.wrap.value(random)) else None;
    var head := Head(wrapped, nonce);
    PaddedText(head, text);
    var sealed := t.cipher.seal(key, nonce, Padded(head + text, |head|)[|head|..]);
    assert Encrypt(t, s, nonce, random, text).value == head + sealed;
    if s.wrap.Some? {
      assert Power(2) == 256 * Power(1) == 65536;
      WrappedHead(wrapped.value, nonce, sealed);
      TwoBytes((head + sealed)[10..12]);
    } else {
      PlainHead(nonce, sealed);
    }
    assert (head + sealed)[|head|..] == sealed;
  }

  lemma PaddedText(head: Bytes, text: Bytes)
    ensures
      var n := 256 - |text| % 256;
      |Padded(head + text, |head|)| >= |head| && Padded(head + text, |head|)[|head|..] == text + Repeat((n % 256) as byte, n)
  {
    var n := 256 - |text| % 256;
    assert head + text + Repeat((n % 256) as byte, n) == head + (text + Repeat((n % 256) as byte, n));
  }

  /** What was padded after a head is found behind it. */
  lemma UnpadPadded(head: Bytes, text: Bytes)
    requires head != []
    ensures |Padded(head + text, |head|)| >= |head|
    ensures head + Padded(head + text, |head|)[|head|..] == Padded(head + text, |head|)
    ensures Unpad(Padded(head + text, |head|), |head|) == Ok(text)
  {
    var s := Padded(head + text, |head|);
    PaddingRoundTrip(head + text, |head|);
    var n := StatedLength(s[|s| - 1]);
    assert s[|head|..|s| - n] == s[..|s| - n][|head|..] == text;
    assert s[..|head|] == s[..|s| - n][..|head|] == head;
    assert head + s[|head|..] == s;
  }

  /** The reader has the private key for the public key that the writer wrapped keys with. */
  ghost predicate CanUnwrap(s: Settings, unwrap: Option<Bytes -> Result<Bytes>>, random: Bytes) {
    s.wrap.Some? ==> |s.wrap.value(random)| < Power(2) && unwrap.Some? && unwrap.value(s.wrap.value(random)) == Ok(random)
  }

  lemma PlainHead(nonce: Bytes, rest: Bytes)
    requires |nonce| == NONCE_LENGTH
    ensures
      var s := Head(None, nonce) + rest;
      && |s| >= 22 && s[..9] == ENCRYPTED_NAME && s[9] == PLAIN_VERSION && s[10..22] == nonce && |Head(None, nonce)| == 22
  {
    var s := Head(None, nonce) + rest;
    assert s == ENCRYPTED_NAME + ([PLAIN_VERSION] + nonce + rest);
    assert s[10..22] == nonce;
  }

  lemma WrappedHead(w: Bytes, nonce: Bytes, rest: Bytes)
    requires |nonce| == NONCE_LENGTH && |w| < Power(2)
    ensures
      var s, n := Head(Some(w), nonce) + rest, |w|;
      && |Head(Some(w), nonce)| == 24 + n && |s| >= 24 + n && s[..9] == ENCRYPTED_NAME && s[9] == RSA_VERSION
      && Value(s[10..12]) == n && s[12..12 + n] == w && s[12 + n..24 + n] == nonce
  {
    var before, size := ENCRYPTED_NAME + [RSA_VERSION], LittleEndian(|w|, 2);
    LittleEndianRoundTrip(|w|, 2);
    MiddleOf(before, size, w + nonce + rest);
    MiddleOf(before + size, w, nonce + rest);
    MiddleOf(before + size + w, nonce, rest);
    Regroup(before, size, w, nonce, rest);
    assert before[..9] == ENCRYPTED_NAME && before[9] == RSA_VERSION;
  }

  lemma MiddleOf(a: Bytes, b: Bytes, c: Bytes)
    ensures (a + b + c)[..|a|] == a && (a + b + c)[|a|..|a| + |b|] == b
  {
  }

  lemma Regroup(a: Bytes, b: Bytes, c: Bytes, d: Bytes, e: Bytes)
    ensures a + b + c + d + e == a + b + (c + d + e) == (a + b) + c + (d + e)
  {
  }

  /** Opening undoes sealing, behind a head that was read right. */
  lemma OpenSealed(c: Cipher, key: Bytes, nonce: Bytes, head: Bytes, text: Bytes)
    requires Opens(c, key, nonce, Padded(head + text, |head|)[|head|..]) && head != []
    ensures
      var s := Seal(c, key, nonce, head, text);
      && s[..|head|] == head
      && var r := c.open(key, nonce, s[|head|..]);
      r.Ok? && Unpad(s[..|head|] + r.value, |head|) == Ok(text)
  {
    var s := Seal(c, key, nonce, head, text);
    UnpadPadded(head, text);
    assert s[..|head|] == head && s[|head|..] == c.seal(key, nonce, Padded(head + text, |head|)[|head|..]);
  }

  /** Decryption undoes encryption, with or without a wrapped key. */
  lemma EncryptionRoundTrip(t: Tools, s: Settings, unwrap: Option<Bytes -> Result<Bytes>>, nonce: Bytes, random: Bytes, text: Bytes)
    requires IsLawful(t) && |nonce| == NONCE_LENGTH && CanUnwrap(s, unwrap, random) && Encrypt(t, s, nonce, random, text).Ok?
    ensures Decrypt(t, s.key, s.derivation, unwrap, Encrypt(t, s, nonce, random, text).value) == Ok(text)
  {
    if s.key != [] {
      var key := if s.wrap.Some? then random else DerivedKey(t, s.key, s.derivation);
      var wrapped := if s.wrap.Some? then Some(s.wrap.value(random)) else None;
      var head, start := Head(wrapped, nonce), if s.wrap.Some? then 12 + |s.wrap.value(random)| else 10;
      var plain := Padded(head + text, |head|)[|head|..];
      if s.wrap.Some? {
        WrappedHead(wrapped.value, nonce, t.cipher.seal(key, nonce, plain));
      } else {
        PlainHead(nonce, t.cipher.seal(key, nonce, plain));
      }
      assert Opens(t.cipher, key, nonce, plain);
      OpenSealed(t.cipher, key, nonce, head, text);
      assert ReadHead(t, s.key, s.derivation, unwrap, Seal(t.cipher, key, nonce, head, text)) == Ok((start, key));
    }
  }

  /** Without the private key nothing wrapped is read. */
  lemma WrappedNeedsKey(t: Tools, s: Settings, nonce: Bytes, random: Bytes, text: Bytes)
    requires |nonce| == NONCE_LENGTH && s.key != [] && s.wrap.Some? && |s.wrap.value(random)| < Power(2)
    requires Encrypt(t, s, nonce, random, text).Ok?
    ensures Decrypt(t, s.key, s.derivation, None, Encrypt(t, s, nonce, random, text).value).Err?
  {
    var head := Head(Some(s.wrap.value(random)), nonce);
    WrappedHead(s.wrap.value(random), nonce, t.cipher.seal(random, nonce, Padded(head + text, |head|)[|head|..]));
  }

  /** No encrypted chunk can be taken for a framed one. */
  lemma EncryptedIsNoFrame(t: Tools, s: Settings, nonce: Bytes, random: Bytes, text: Bytes)
    requires HasNoBanner(text) && Encrypt(t, s, nonce, random, text).Ok?
    ensures HasNoBanner(Encrypt(t, s, nonce, random, text).value)
  {
    var r := Encrypt(t, s, nonce, random, text).value;
    if s.key != [] && |r| > 10 {
      assert r[9] != BANNER[9];
      assert r[..10][9] == r[9];
    }
  }

  // ---------- whole files ----------

  /** What goes into a chunk file, before it is framed. */
  function Contents(t: Tools, s: Settings, nonce: Bytes, random: Bytes, data: Bytes): (r: Result<Bytes>) {
    match Compress(t, s.level, data)
    case Err => Err
    case Ok(text) => Encrypt(t, s, nonce, random, text)
  }

  predicate IsFramed(s: Settings) {
    s.d != 0 && s.p != 0
  }

  /** The file that is written for a chunk. */
  function File(t: Tools, s: Settings, nonce: Bytes, random: Bytes, data: Bytes): (r: Result<Bytes>) {
    match Contents(t, s, nonce, random, data)
    case Err => Err
    case Ok(payload) => Ok(if IsFramed(s) then Frame(t.coder, payload, s.d, s.p) else payload)
  }

  method WriteChunk(t: Tools, s: Settings, nonce: Bytes, random: Bytes, data: Bytes) returns (r: Result<Bytes>)
    ensures r == File(t, s, nonce, random, data)
  {
    r := Contents(t, s, nonce, random, data);
    if r.Ok? && s.d != 0 && s.p != 0 {
      var out := WriteFrame(t.coder, r.value, s.d, s.p);
      r := Ok(out);
    }
  }

  /** A file from which the contents of a chunk can still be read: the file itself if it is not framed, or a frame of which
      enough is left. */
  ghost predicate IsStored(t: Tools, s: Settings, payload: Bytes, file: Bytes) {
    if IsFramed(s) then IsCoder(t.coder, s.d, s.p) && FitsHeader(|payload|, s.d, s.p) && IsReadable(t.coder, file, payload, s.d, s.p)
    else file == payload
  }

  method RemovePaddingAndHead(s: Bytes, offset: nat) returns (r: Result<Bytes>)
    requires 0 < offset <= |s|
    ensures r == Unpad(s, offset)
  {
    r := RemovePadding(s);
    if r.Ok? {
      assert offset <= |r.value| ==> r.value[offset..] == s[offset..|r.value|];
      r := if offset <= |r.value| then Ok(r.value[offset..]) else Err;
    }
  }

  /** Decrypts what a frame held. */
  method DecryptContents(t: Tools, key: Bytes, derivation: Bytes, unwrap: Option<Bytes -> Result<Bytes>>, s: Bytes) returns (r: Result<Bytes>)
    ensures r == Decrypt(t, key, derivation, unwrap, s)
  {
    if key == [] {
      return Ok(s);
    }
    var head := ReadHead(t, key, derivation, unwrap, s);
    if head.Err? || !IsKey(head.value.1) {
      return Err;
    }
    var offset := head.value.0 + NONCE_LENGTH;
    var text := t.cipher.open(head.value.1, s[head.value.0..offset], s[offset..]);
    if text.Err? {
      return Err;
    }
    r := RemovePaddingAndHead(s[..offset] + text.value, offset);
  }

  /** A file that was not encrypted by this program. */
  predicate IsForeign(file: Bytes) {
    |file| < 22 || file[..9] != [100, 117, 112, 108, 105, 99, 97, 99, 121] || (file[9] != 0 && file[9] != 2)
  }

  /** Everything known about a file that was written with these settings and of which enough is left. */
  ghost predicate WasWritten(t: Tools, s: Settings, unwrap: Option<Bytes -> Result<Bytes>>, nonce: Bytes, random: Bytes, data: Bytes, file: Bytes) {
    && IsLawful(t) && |nonce| == NONCE_LENGTH && CanUnwrap(s, unwrap, random)
    && Contents(t, s, nonce, random, data).Ok? && IsStored(t, s, Contents(t, s, nonce, random, data).value, file)
  }

  /**
   Reads a chunk file: the data that was written comes back from every file of which enough is left, at every compression
   level, with and without encryption and framing, exactly when the compressed data is not a bare tag. A framed file of
   which too little is left is refused, and so is one that is not encrypted when it should be.
   */
  method ReadChunk(t: Tools, key: Bytes, derivation: Bytes, unwrap: Option<Bytes -> Result<Bytes>>, configured: nat, file: Bytes,
                   ghost s: Settings, ghost nonce: Bytes, ghost random: Bytes, ghost data: Bytes) returns (r: Result<Bytes>)
    ensures
      && key == s.key && derivation == s.derivation && configured == s.d && WasWritten(t, s, unwrap, nonce, random, data, file) ==>
        (r == Ok(data) <==> !IsBareTag(t, s.level, data))
    ensures IsFramedFile(file) && IsRefused(t.coder, file, configured) ==> r.Err?
    ensures !IsFramedFile(file) && key != [] && IsForeign(file) ==> r.Err?
  {
    ghost var written := key == s.key && derivation == s.derivation && configured == s.d && WasWritten(t, s, unwrap, nonce, random, data, file);
    ghost var payload := if written then Contents(t, s, nonce, random, data).value else [];
    if written {
      CompressedIsNoFrame(t, s.level, data);
      EncryptedIsNoFrame(t, s, nonce, random, Compress(t, s.level, data).value);
    }
    r := Unframe(t.coder, file, configured, payload, s.p);
    if r.Err? {
      return;
    }
    assert written ==> r == Ok(payload);
    if written {
      EncryptionRoundTrip(t, s, unwrap, nonce, random, Compress(t, s.level, data).value);
      CompressionRoundTrip(t, s.level, data);
    }
    r := DecryptContents(t, key, derivation, unwrap, r.value);
    if r.Ok? {
      r := Decompress(t, r.value);
    }
  }

  /** A file as it was written is stored, and so is one that lost at most as many shards as there are parity shards. */
  lemma DamagedIsStored(t: Tools, s: Settings, nonce: Bytes, random: Bytes, data: Bytes, file: Bytes, damaged: set<nat>)
    requires Contents(t, s, nonce, random, data).Ok? && HashesAre32(t.coder) && |damaged| <= s.p
    requires
      var payload := Contents(t, s, nonce, random, data).value;
      if IsFramed(s) then
        && IsCoder(t.coder, s.d, s.p) && FitsHeader(|payload|, s.d, s.p)
        && IsDamaged(t.coder, Frame(t.coder, payload, s.d, s.p), file, ShardSize(|payload|, s.d), s.d, s.p, damaged)
      else Ok(file) == File(t, s, nonce, random, data)
    ensures IsStored(t, s, Contents(t, s, nonce, random, data).value, file)
  {
    if IsFramed(s) {
      DamagedIsReadable(t.coder, Contents(t, s, nonce, random, data).value, file, s.d, s.p, damaged);
    }
  }


  /** A framed file may also be cut short, down to the minimum. */
  lemma TruncatedIsStored(t: Tools, s: Settings, nonce: Bytes, random: Bytes, data: Bytes, n: nat)
    requires File(t, s, nonce, random, data).Ok? && IsFramed(s) && IsCoder(t.coder, s.d, s.p) && HashesAre32(t.coder)
    requires
      var payload := Contents(t, s, nonce, random, data).value;
      FitsHeader(|payload|, s.d, s.p) && Minimum(s.d, s.p, ShardSize(|payload|, s.d)) < n <= |File(t, s, nonce, random, data).value|
    ensures IsStored(t, s, Contents(t, s, nonce, random, data).value, File(t, s, nonce, random, data).value[..n])
  {
    TruncatedIsReadable(t.coder, Contents(t, s, nonce, random, data).value, s.d, s.p, n);
  }

  lemma WrittenIsStored(t: Tools, s: Settings, nonce: Bytes, random: Bytes, data: Bytes)
    requires File(t, s, nonce, random, data).Ok?
    requires IsFramed(s) ==>
      IsCoder(t.coder, s.d, s.p) && HashesAre32(t.coder) && FitsHeader(|Contents(t, s, nonce, random, data).value|, s.d, s.p)
    ensures IsStored(t, s, Contents(t, s, nonce, random, data).value, File(t, s, nonce, random, data).value)
  {
    if IsFramed(s) {
      var file := File(t, s, nonce, random, data).value;
      MinimumBelowFrame(t.coder, Contents(t, s, nonce, random, data).value, s.d, s.p);
      TruncatedIsStored(t, s, nonce, random, data, |file|);
      assert file[..|file|] == file;
    }
  }

  /** Writes a chunk and reads it back. */
  method WriteAndRead(t: Tools, s: Settings, unwrap: Option<Bytes -> Result<Bytes>>, nonce: Bytes, random: Bytes, data: Bytes)
    returns (written: Result<Bytes>, r: Result<Bytes>)
    requires IsLawful(t) && |nonce| == NONCE_LENGTH && CanUnwrap(s, unwrap, random)
    requires IsFramed(s) && Contents(t, s, nonce, random, data).Ok? ==>
      IsCoder(t.coder, s.d, s.p) && HashesAre32(t.coder) && FitsHeader(|Contents(t, s, nonce, random, data).value|, s.d, s.p)
    ensures written == File(t, s, nonce, random, data)
    ensures written.Ok? ==> (r == Ok(data) <==> !IsBareTag(t, s.level, data))
  {
    written := WriteChunk(t, s, nonce, random, data);
    if written.Err? {
      return written, Err;
    }
    WrittenIsStored(t, s, nonce, random, data);
    r := ReadChunk(t, s.key, s.derivation, unwrap, s.d, written.value, s, nonce, random, data);
  }

  // ---------- tools that meet the assumptions ----------

  /** Keeps data as it is, behind the first byte of the zlib format. */
  function Keeper(): (c: Compressor) {
    Compressor((data: Bytes) => [120] + data, (s: Bytes) => if s == [] || s[0] != 120 then Err else Ok(s[1..]))
  }

  function SimpleTools(): (t: Tools) {
    Tools(Keeper(), Keeper(), Keeper(),
          Cipher((key: Bytes, nonce: Bytes, text: Bytes) => text, (key: Bytes, nonce: Bytes, s: Bytes) => Ok(s)),
          (derivation: Bytes, key: Bytes) => key, Mirror((s: Bytes) => Repeat(0, 32)))
  }

  lemma SimpleToolsAreLawful(p: nat)
    ensures IsLawful(SimpleTools()) && IsCoder(SimpleTools().coder, 1, p) && HashesAre32(SimpleTools().coder)
  {
    var t := SimpleTools();
    MirrorIsCoder((s: Bytes) => Repeat(0, 32), p);
    assert t.coder == Mirror((s: Bytes) => Repeat(0, 32));
    forall data: Bytes ensures Restores(Keeper(), data) && StartsRight(Keeper(), data) {
      assert ([120 as byte] + data)[1..] == data;
    }
  }
}
