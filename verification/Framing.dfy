/** The encrypted file format of temporary datasets (workers/python/storage.py). */
module Framing {
  import opened Wrappers

  newtype Byte = b: int | 0 <= b < 256

  type Bytes = seq<Byte>

  /** Encryption and decryption under the deployment's key. A token depends on when it is made, not only on the data. */
  datatype Cipher = Cipher(encrypt: (nat, Bytes) -> Bytes, decrypt: Bytes -> Option<Bytes>)

  datatype StorageError = NotConfigured | InvalidToken | TokenTooLong

  // b"PantaETLEncryptedChunksV1\n"
  const HEADER: Bytes := [0x50, 0x61, 0x6E, 0x74, 0x61, 0x45, 0x54, 0x4C, 0x45, 0x6E, 0x63, 0x72, 0x79,
                          0x70, 0x74, 0x65, 0x64, 0x43, 0x68, 0x75, 0x6E, 0x6B, 0x73, 0x56, 0x31, 0x0A]
  const CHUNK_SIZE: nat := 1024 * 1024
  const LENGTH_LIMIT: nat := 0x1_0000_0000

  // ---------- Frames ----------

  function BigEndian(n: nat): (bytes: Bytes)
    requires n < LENGTH_LIMIT
    ensures |bytes| == 4 && FromBigEndian(bytes) == n
  {
    var high, low := n / 0x1_0000, n % 0x1_0000;
    [(high / 256) as Byte, (high % 256) as Byte, (low / 256) as Byte, (low % 256) as Byte]
  }

  function FromBigEndian(bytes: Bytes): (n: nat)
    requires |bytes| == 4
    ensures n < LENGTH_LIMIT
  {
    ((bytes[0] as int * 256 + bytes[1] as int) * 256 + bytes[2] as int) * 256 + bytes[3] as int
  }

  lemma BigEndianIsUnique(bytes: Bytes)
    requires |bytes| == 4
    ensures BigEndian(FromBigEndian(bytes)) == bytes
  {
    var high := bytes[0] as int * 256 + bytes[1] as int;
    var low := bytes[2] as int * 256 + bytes[3] as int;
    assert FromBigEndian(bytes) == high * 0x1_0000 + low;
    assert FromBigEndian(bytes) / 0x1_0000 == high && FromBigEndian(bytes) % 0x1_0000 == low;
  }

  /** The most significant byte comes first: a smaller number is smaller at the first byte where the two differ. */
  lemma BigEndianIsOrdered(m: nat, n: nat)
    requires m < n < LENGTH_LIMIT
    ensures exists k :: 0 <= k < 4 && BigEndian(m)[..k] == BigEndian(n)[..k] && BigEndian(m)[k] < BigEndian(n)[k]
  {
    var a, b := BigEndian(m), BigEndian(n);
    var k := if a[0] != b[0] then 0 else if a[1] != b[1] then 1 else if a[2] != b[2] then 2 else 3;
    assert a[..k] == b[..k];
    assert FromBigEndian(a) < FromBigEndian(b);
  }

  /** A number below 256 stands in the last byte, and each byte further left counts 256 times as much. */
  lemma BigEndianPlaces(digit: Byte)
    ensures BigEndian(digit as nat) == [0, 0, 0, digit]
    ensures FromBigEndian([0, 0, 0, digit]) == digit as nat && FromBigEndian([0, 0, digit, 0]) == 256 * digit as nat
    ensures FromBigEndian([0, digit, 0, 0]) == 65536 * digit as nat && FromBigEndian([digit, 0, 0, 0]) == 16777216 * digit as nat
    ensures FromBigEndian([255, 255, 255, 255]) == 4294967295 == LENGTH_LIMIT - 1
  {
  }

  predicate Ascii(text: string) {
    forall i :: 0 <= i < |text| ==> text[i] < 128 as char
  }

  function AsciiBytes(text: string): (bytes: Bytes)
    requires Ascii(text)
    ensures |bytes| == |text| && forall i :: 0 <= i < |text| ==> bytes[i] as int == text[i] as int
  {
    seq(|text|, i requires 0 <= i < |text| => text[i] as int as Byte)
  }

  lemma HeaderText()
    ensures Ascii("PantaETLEncryptedChunksV1\n") && HEADER == AsciiBytes("PantaETLEncryptedChunksV1\n")
  {
    var text := "PantaETLEncryptedChunksV1\n";
    assert |text| == |HEADER|;
  }

  predicate Frameable(token: Bytes) {
    0 < |token| < LENGTH_LIMIT
  }

  predicate AllFrameable(tokens: seq<Bytes>) {
    forall i :: 0 <= i < |tokens| ==> Frameable(tokens[i])
  }

  /** The length of each token can be written down in four bytes. */
  predicate AllFit(tokens: seq<Bytes>) {
    forall i :: 0 <= i < |tokens| ==> |tokens[i]| < LENGTH_LIMIT
  }

  function Frame(token: Bytes): Bytes
    requires |token| < LENGTH_LIMIT
  {
    BigEndian(|token|) + token
  }

  function Frames(tokens: seq<Bytes>): Bytes
    requires AllFit(tokens)
  {
    if tokens == [] then [] else Frame(tokens[0]) + Frames(tokens[1..])
  }

  /** The tokens that a body consists of, if it is whole frames and no empty ones. */
  function Parse(body: Bytes): Option<seq<Bytes>> {
    if body == [] then Some([])
    else if |body| < 4 then None
    else
      var length := FromBigEndian(body[..4]);
      if length == 0 || 4 + length > |body| then None
      else After([body[4..4 + length]], Parse(body[4 + length..]))
  }

  function After(before: seq<Bytes>, rest: Option<seq<Bytes>>): Option<seq<Bytes>> {
    match rest
    case None => None
    case Some(tokens) => Some(before + tokens)
  }

  lemma ParseFrame(token: Bytes, rest: Bytes)
    requires Frameable(token)
    ensures Parse(Frame(token) + rest) == After([token], Parse(rest))
  {
    var body := Frame(token) + rest;
    assert body[..4] == BigEndian(|token|);
    assert body[4..4 + |token|] == token;
    assert body[4 + |token|..] == rest;
  }

  lemma {:induction false} ParseUndoesFrames(tokens: seq<Bytes>)
    requires AllFrameable(tokens)
    ensures Parse(Frames(tokens)) == Some(tokens)
  {
    if tokens != [] {
      var first, rest := tokens[0], tokens[1..];
      ParseUndoesFrames(rest);
      ParseFrame(first, Frames(rest));
      FramesFront(first, rest);
      assert tokens == [first] + rest;
    }
  }

  lemma FirstToken(body: Bytes) returns (token: Bytes, rest: Bytes)
    requires body != [] && Parse(body).Some?
    ensures Frameable(token) && body == Frame(token) + rest
    ensures Parse(rest).Some? && Parse(body).value == [token] + Parse(rest).value
  {
    var length := FromBigEndian(body[..4]);
    token, rest := body[4..4 + length], body[4 + length..];
    BigEndianIsUnique(body[..4]);
    assert body == body[..4] + token + rest;
  }

  lemma FramesFront(token: Bytes, tokens: seq<Bytes>)
    requires |token| < LENGTH_LIMIT && AllFit(tokens)
    ensures AllFit([token] + tokens) && Frames([token] + tokens) == Frame(token) + Frames(tokens)
  {
    assert ([token] + tokens)[1..] == tokens;
  }

  lemma {:induction false} FramesUndoParse(body: Bytes)
    requires Parse(body).Some?
    ensures AllFrameable(Parse(body).value) && Frames(Parse(body).value) == body
  {
    if body != [] {
      var token, rest := FirstToken(body);
      FramesUndoParse(rest);
      FramesFront(token, Parse(rest).value);
    }
  }

  // ---------- What a payload holds ----------

  function DecryptAll(tokens: seq<Bytes>, cipher: Cipher): Option<Bytes> {
    if tokens == [] then Some([])
    else
      var last := |tokens| - 1;
      Both(DecryptAll(tokens[..last], cipher), cipher.decrypt(tokens[last]))
  }

  function Both(a: Option<Bytes>, b: Option<Bytes>): Option<Bytes> {
    if a.Some? && b.Some? then Some(a.value + b.value) else None
  }

  predicate Chunked(payload: Bytes) {
    HEADER <= payload
  }

  function Decrypted(payload: Bytes, cipher: Cipher): Option<Bytes> {
    if !Chunked(payload) then cipher.decrypt(payload)
    else match Parse(payload[|HEADER|..])
      case None => None
      case Some(tokens) => DecryptAll(tokens, cipher)
  }

  /** The data in pieces of at most CHUNK_SIZE bytes, the last one not empty. */
  function Chunks(data: Bytes): seq<Bytes> {
    if data == [] then []
    else if |data| <= CHUNK_SIZE then [data]
    else [data[..CHUNK_SIZE]] + Chunks(data[CHUNK_SIZE..])
  }

  function Tokens(chunks: seq<Bytes>, cipher: Cipher): (tokens: seq<Bytes>)
    ensures |tokens| == |chunks|
    ensures forall i :: 0 <= i < |chunks| ==> tokens[i] == cipher.encrypt(i, chunks[i])
  {
    seq(|chunks|, i requires 0 <= i < |chunks| => cipher.encrypt(i, chunks[i]))
  }

  // ---------- Writing and reading ----------

  method EncryptFile(data: Bytes, cipher: Option<Cipher>) returns (file: Result<Bytes, StorageError>)
    ensures cipher.None? ==> file == Err(NotConfigured)
    ensures cipher.Some? ==>
              var tokens := Tokens(Chunks(data), cipher.value);
              if AllFit(tokens) then file == Ok(HEADER + Frames(tokens)) else file == Err(TokenTooLong)
  {
    if cipher.None? {
      return Err(NotConfigured);
    }
    ghost var chunks := Chunks(data);
    file := WriteFrames(HEADER, data, cipher.value, chunks, Tokens(chunks, cipher.value));
  }

  /** After what has been written, each chunk in turn as one frame. */
  method WriteFrames(written: Bytes, data: Bytes, cipher: Cipher, ghost chunks: seq<Bytes>, ghost tokens: seq<Bytes>)
      returns (file: Result<Bytes, StorageError>)
    requires chunks == Chunks(data) && |tokens| == |chunks|
    requires forall i :: 0 <= i < |chunks| ==> tokens[i] == cipher.encrypt(i, chunks[i])
    ensures if AllFit(tokens) then file == Ok(written + Frames(tokens)) else file == Err(TokenTooLong)
  {
    var output := written;
    var offset, n := 0, 0;
    while offset < |data|
      invariant offset <= |data| && n <= |chunks| && chunks[n..] == Chunks(data[offset..])
      invariant AllFit(tokens[..n]) && output == written + Frames(tokens[..n])
    {
      var size := if |data| - offset < CHUNK_SIZE then |data| - offset else CHUNK_SIZE;
      NextChunk(data, offset, chunks, n);
      var token := cipher.encrypt(n, data[offset..offset + size]);
      if |token| >= LENGTH_LIMIT {
        assert |tokens[n]| >= LENGTH_LIMIT;
        return Err(TokenTooLong);
      }
      NextFrame(tokens, n, written, output);
      output := output + Frame(token);
      offset, n := offset + size, n + 1;
    }
    assert tokens[..n] == tokens;
    file := Ok(output);
  }

  lemma NextChunk(data: Bytes, offset: nat, all: seq<Bytes>, n: nat)
    requires offset < |data| && n <= |all| && all[n..] == Chunks(data[offset..])
    ensures n < |all|
    ensures var size := if |data| - offset < CHUNK_SIZE then |data| - offset else CHUNK_SIZE;
            all[n] == data[offset..offset + size] && all[n + 1..] == Chunks(data[offset + size..])
  {
    var size := if |data| - offset < CHUNK_SIZE then |data| - offset else CHUNK_SIZE;
    var rest := data[offset..];
    FirstChunk(rest);
    Slices(data, offset, size);
    assert all[n] == all[n..][0];
    assert all[n + 1..] == all[n..][1..];
  }

  lemma Slices<T>(s: seq<T>, offset: nat, size: nat)
    requires offset + size <= |s|
    ensures s[offset..][..size] == s[offset..offset + size] && s[offset..][size..] == s[offset + size..]
  {
  }

  lemma NextFrame(tokens: seq<Bytes>, n: nat, written: Bytes, output: Bytes)
    requires n < |tokens| && AllFit(tokens[..n]) && |tokens[n]| < LENGTH_LIMIT && output == written + Frames(tokens[..n])
    ensures AllFit(tokens[..n + 1])
    ensures output + Frame(tokens[n]) == written + Frames(tokens[..n + 1])
  {
    OneMoreFrame(tokens, n);
  }

  lemma FirstChunk(data: Bytes)
    requires data != []
    ensures var size := if |data| < CHUNK_SIZE then |data| else CHUNK_SIZE;
            Chunks(data) == [data[..size]] + Chunks(data[size..])
  {
    if |data| <= CHUNK_SIZE {
      assert data[..|data|] == data && data[|data|..] == [];
    }
  }

  lemma OneMoreFrame(tokens: seq<Bytes>, n: nat)
    requires n < |tokens| && AllFit(tokens[..n]) && |tokens[n]| < LENGTH_LIMIT
    ensures AllFit(tokens[..n + 1]) && Frames(tokens[..n + 1]) == Frames(tokens[..n]) + Frame(tokens[n])
  {
    assert tokens[..n + 1] == tokens[..n] + [tokens[n]];
    FramesJoin(tokens[..n], [tokens[n]]);
    assert Frames([tokens[n]]) == Frame(tokens[n]) + Frames([]);
  }

  lemma {:induction false} FramesJoin(left: seq<Bytes>, right: seq<Bytes>)
    requires AllFit(left) && AllFit(right)
    ensures AllFit(left + right) && Frames(left + right) == Frames(left) + Frames(right)
  {
    if left == [] {
      assert left + right == right;
    } else {
      var first, rest := left[0], left[1..];
      FramesJoin(rest, right);
      FramesFront(first, rest);
      FramesFront(first, rest + right);
      assert left == [first] + rest && left + right == [first] + (rest + right);
      assert Frame(first) + (Frames(rest) + Frames(right)) == Frame(first) + Frames(rest) + Frames(right);
    }
  }

  /** Where the frames lie: after those of the tokens before it, four bytes of length and then the token. */
  lemma FrameLies(tokens: seq<Bytes>, i: nat)
    requires AllFit(tokens) && i < |tokens|
    ensures var start, length := |Frames(tokens[..i])|, |tokens[i]|;
            && |Frames(tokens[..i + 1])| == start + 4 + length <= |Frames(tokens)|
            && Frames(tokens)[start..start + 4] == BigEndian(length)
            && Frames(tokens)[start + 4..start + 4 + length] == tokens[i]
    ensures Frames(tokens[..0]) == [] && Frames(tokens[..|tokens|]) == Frames(tokens)
  {
    var start, length := |Frames(tokens[..i])|, |tokens[i]|;
    var front, frame, rest := Frames(tokens[..i]), Frame(tokens[i]), Frames(tokens[i + 1..]);
    OneMoreFrame(tokens, i);
    FramesJoin(tokens[..i + 1], tokens[i + 1..]);
    assert tokens == tokens[..i + 1] + tokens[i + 1..];
    assert Frames(tokens) == front + frame + rest;
    FrameBetween(front, tokens[i], rest);
    assert tokens[..|tokens|] == tokens;
  }

  lemma FrameBetween(front: Bytes, token: Bytes, rest: Bytes)
    requires |token| < LENGTH_LIMIT
    ensures var all, start := front + Frame(token) + rest, |front|;
            && |all| >= start + 4 + |token|
            && all[start..start + 4] == BigEndian(|token|) && all[start + 4..start + 4 + |token|] == token
  {
  }

  method DecryptPayload(payload: Bytes, cipher: Option<Cipher>) returns (data: Result<Bytes, StorageError>)
    ensures data == if cipher.None? then Err(NotConfigured)
                    else match Decrypted(payload, cipher.value) case None => Err(InvalidToken) case Some(d) => Ok(d)
    ensures cipher.Some? && !(HEADER <= payload) ==>
              data == if cipher.value.decrypt(payload).Some? then Ok(cipher.value.decrypt(payload).value) else Err(InvalidToken)
  {
    if cipher.None? {
      return Err(NotConfigured);
    }
    if !(HEADER <= payload) {
      var token := cipher.value.decrypt(payload);
      return if token.Some? then Ok(token.value) else Err(InvalidToken);
    }
    var offset := |HEADER|;
    var output: Bytes := [];
    ReadFromStart(payload, cipher.value);
    while offset < |payload|
      invariant |HEADER| <= offset <= |payload|
      invariant Decrypted(payload, cipher.value) == ReadOn(output, payload[offset..], cipher.value)
    {
      ReadStep(output, payload, offset, cipher.value);
      if offset + 4 > |payload| {
        return Err(InvalidToken);
      }
      var length := FromBigEndian(payload[offset..offset + 4]);
      offset := offset + 4;
      if length == 0 || offset + length > |payload| {
        return Err(InvalidToken);
      }
      var chunk := cipher.value.decrypt(payload[offset..offset + length]);
      if chunk.None? {
        return Err(InvalidToken);
      }
      output := output + chunk.value;
      offset := offset + length;
    }
    ReadToEnd(output, payload[offset..], cipher.value);
    data := Ok(output);
  }

  /** What reading comes to when `output` has been read and `rest` is still ahead. */
  function ReadOn(output: Bytes, rest: Bytes, cipher: Cipher): Option<Bytes> {
    match Parse(rest)
    case None => None
    case Some(tokens) => Both(Some(output), DecryptAll(tokens, cipher))
  }

  lemma ReadFromStart(payload: Bytes, cipher: Cipher)
    requires Chunked(payload)
    ensures Decrypted(payload, cipher) == ReadOn([], payload[|HEADER|..], cipher)
  {
    var whole := Decrypted(payload, cipher);
    assert whole.Some? ==> [] + whole.value == whole.value;
  }

  lemma ReadToEnd(output: Bytes, rest: Bytes, cipher: Cipher)
    requires rest == []
    ensures ReadOn(output, rest, cipher) == Some(output)
  {
    assert output + [] == output;
  }

  lemma ReadStep(output: Bytes, payload: Bytes, offset: nat, cipher: Cipher)
    requires offset < |payload|
    ensures ReadOn(output, payload[offset..], cipher)
         == (if offset + 4 > |payload| then None
             else
               var length := FromBigEndian(payload[offset..offset + 4]);
               if length == 0 || offset + 4 + length > |payload| then None
               else match cipher.decrypt(payload[offset + 4..offset + 4 + length])
                 case None => None
                 case Some(chunk) => ReadOn(output + chunk, payload[offset + 4 + length..], cipher))
  {
    ParseStep(payload, offset);
    if offset + 4 <= |payload| {
      var length := FromBigEndian(payload[offset..offset + 4]);
      if length != 0 && offset + 4 + length <= |payload| {
        var token, rest := payload[offset + 4..offset + 4 + length], Parse(payload[offset + 4 + length..]);
        if rest.Some? {
          ReadToken(output, token, rest.value, cipher);
        }
      }
    }
  }

  lemma ParseStep(payload: Bytes, offset: nat)
    requires offset < |payload|
    ensures Parse(payload[offset..])
         == (if offset + 4 > |payload| then None
             else
               var length := FromBigEndian(payload[offset..offset + 4]);
               if length == 0 || offset + 4 + length > |payload| then None
               else After([payload[offset + 4..offset + 4 + length]], Parse(payload[offset + 4 + length..])))
  {
    var body := payload[offset..];
    if offset + 4 <= |payload| {
      var length := FromBigEndian(payload[offset..offset + 4]);
      assert body[..4] == payload[offset..offset + 4];
      if length != 0 && offset + 4 + length <= |payload| {
        assert body[4..4 + length] == payload[offset + 4..offset + 4 + length];
        assert body[4 + length..] == payload[offset + 4 + length..];
      }
    }
  }

  lemma ReadToken(output: Bytes, token: Bytes, rest: seq<Bytes>, cipher: Cipher)
    ensures Both(Some(output), DecryptAll([token] + rest, cipher))
         == Both(Both(Some(output), cipher.decrypt(token)), DecryptAll(rest, cipher))
  {
    DecryptAllSplits([token], rest, cipher);
    var chunk := cipher.decrypt(token);
    assert chunk.Some? ==> [] + chunk.value == chunk.value;
    assert DecryptAll([token], cipher) == Both(Some([]), chunk) == chunk;
    BothAssociates(Some(output), chunk, DecryptAll(rest, cipher));
  }

  lemma BothAssociates(a: Option<Bytes>, b: Option<Bytes>, c: Option<Bytes>)
    ensures Both(a, Both(b, c)) == Both(Both(a, b), c)
  {
    if a.Some? && b.Some? && c.Some? {
      assert a.value + (b.value + c.value) == a.value + b.value + c.value;
    }
  }

  lemma {:induction false} DecryptAllSplits(left: seq<Bytes>, right: seq<Bytes>, cipher: Cipher)
    ensures DecryptAll(left + right, cipher)
         == Both(DecryptAll(left, cipher), DecryptAll(right, cipher))
  {
    if right == [] {
      assert left + right == left;
      var whole := DecryptAll(left, cipher);
      assert whole.Some? ==> whole.value + [] == whole.value;
    } else {
      var last := |right| - 1;
      DecryptAllSplits(left, right[..last], cipher);
      assert (left + right)[..|left| + last] == left + right[..last];
      BothAssociates(DecryptAll(left, cipher), DecryptAll(right[..last], cipher), cipher.decrypt(right[last]));
    }
  }

  // ---------- What the format promises ----------

  /** Decrypting what was encrypted, whenever it was, gives it back. */
  ghost predicate Inverts(cipher: Cipher) {
    forall i, chunk :: cipher.encrypt(i, chunk) != [] && cipher.decrypt(cipher.encrypt(i, chunk)) == Some(chunk)
  }

  function Concatenated(chunks: seq<Bytes>): Bytes {
    if chunks == [] then [] else Concatenated(chunks[..|chunks| - 1]) + chunks[|chunks| - 1]
  }

  lemma {:induction false} ConcatenatedFront(first: Bytes, rest: seq<Bytes>)
    ensures Concatenated([first] + rest) == first + Concatenated(rest)
  {
    if rest == [] {
      assert ([first] + rest)[..0] == [];
    } else {
      var all, some, last := [first] + rest, rest[..|rest| - 1], rest[|rest| - 1];
      ConcatenatedFront(first, some);
      assert all[..|rest|] == [first] + some && all[|rest|] == last;
      assert first + (Concatenated(some) + last) == first + Concatenated(some) + last;
    }
  }

  lemma {:induction false} ChunksAreTheData(data: Bytes)
    ensures Concatenated(Chunks(data)) == data
  {
    if data != [] {
      var size := if |data| < CHUNK_SIZE then |data| else CHUNK_SIZE;
      var head, tail := data[..size], data[size..];
      FirstChunk(data);
      ChunksAreTheData(tail);
      ConcatenatedFront(head, Chunks(tail));
      assert data == head + tail;
    }
  }

  /** The chunks by position: 1048576 bytes each, but for the last one, which has what is left. */
  lemma {:induction false} ChunkLies(data: Bytes, i: nat)
    requires i < |Chunks(data)|
    ensures var start := i * 1048576;
            && start < |data|
            && (i + 1 < |Chunks(data)| ==> start + 1048576 < |data| && Chunks(data)[i] == data[start..start + 1048576])
            && (i + 1 == |Chunks(data)| ==> |data| <= start + 1048576 && Chunks(data)[i] == data[start..])
    decreases i
  {
    if |data| > CHUNK_SIZE {
      var tail := data[CHUNK_SIZE..];
      assert Chunks(data) == [data[..CHUNK_SIZE]] + Chunks(tail);
      assert |Chunks(tail)| > 0;
      if i > 0 {
        ChunkLies(tail, i - 1);
        TailLies(data, (i - 1) * 1048576);
      }
    }
  }

  lemma TailLies(data: Bytes, start: nat)
    requires |data| > CHUNK_SIZE && start < |data| - CHUNK_SIZE
    ensures data[CHUNK_SIZE..][start..] == data[start + 1048576..]
    ensures start + 2097152 <= |data| ==> data[CHUNK_SIZE..][start..start + 1048576] == data[start + 1048576..start + 2097152]
  {
  }

  /** Every byte is in a chunk: there are none exactly for no data. */
  lemma ChunksCover(data: Bytes)
    ensures Chunks(data) == [] <==> data == []
  {
  }

  lemma {:induction false} TokensDecrypt(chunks: seq<Bytes>, n: nat, cipher: Cipher)
    requires n <= |chunks| && Inverts(cipher)
    ensures DecryptAll(Tokens(chunks, cipher)[..n], cipher) == Some(Concatenated(chunks[..n]))
  {
    if n > 0 {
      TokensDecrypt(chunks, n - 1, cipher);
      assert Tokens(chunks, cipher)[..n][..n - 1] == Tokens(chunks, cipher)[..n - 1];
      assert chunks[..n][..n - 1] == chunks[..n - 1];
    }
  }

  /** Data of every length comes back from its file. */
  lemma RoundTrip(data: Bytes, cipher: Cipher)
    requires Inverts(cipher) && AllFit(Tokens(Chunks(data), cipher))
    ensures Decrypted(HEADER + Frames(Tokens(Chunks(data), cipher)), cipher) == Some(data)
  {
    var chunks := Chunks(data);
    var tokens := Tokens(chunks, cipher);
    var file := HEADER + Frames(tokens);
    assert file[|HEADER|..] == Frames(tokens);
    ParseUndoesFrames(tokens);
    TokensDecrypt(chunks, |chunks|, cipher);
    assert tokens[..|chunks|] == tokens && chunks[..|chunks|] == chunks;
    ChunksAreTheData(data);
  }

  /** `payload` is the header and whole frames around `tokens`, which all decrypt. */
  ghost predicate IsFile(payload: Bytes, tokens: seq<Bytes>, cipher: Cipher) {
    && AllFrameable(tokens)
    && payload == HEADER + Frames(tokens)
    && forall i :: 0 <= i < |tokens| ==> cipher.decrypt(tokens[i]).Some?
  }

  lemma {:induction false} AllDecrypt(tokens: seq<Bytes>, cipher: Cipher)
    ensures DecryptAll(tokens, cipher).Some? <==> forall i :: 0 <= i < |tokens| ==> cipher.decrypt(tokens[i]).Some?
  {
    if tokens != [] {
      AllDecrypt(tokens[..|tokens| - 1], cipher);
    }
  }

  /** A chunked payload is accepted exactly when it is a file of decryptable tokens; these are unique. */
  lemma AcceptedIsFile(payload: Bytes, cipher: Cipher)
    requires Chunked(payload)
    ensures Decrypted(payload, cipher).Some? <==> exists tokens :: IsFile(payload, tokens, cipher)
    ensures forall tokens :: IsFile(payload, tokens, cipher) ==> Decrypted(payload, cipher) == DecryptAll(tokens, cipher)
  {
    var body := payload[|HEADER|..];
    forall tokens | IsFile(payload, tokens, cipher)
      ensures Decrypted(payload, cipher).Some? && Decrypted(payload, cipher) == DecryptAll(tokens, cipher)
    {
      assert body == Frames(tokens);
      ParseUndoesFrames(tokens);
      AllDecrypt(tokens, cipher);
    }
    if Decrypted(payload, cipher).Some? {
      FramesUndoParse(body);
      var tokens := Parse(body).value;
      AllDecrypt(tokens, cipher);
      assert payload == HEADER + body;
      assert IsFile(payload, tokens, cipher);
    }
  }

  /** Less than four bytes, a length of zero, or one that goes beyond the end: no frame begins like this. */
  predicate NoFrame(rest: Bytes) {
    && rest != []
    && (|rest| < 4 || rest[..4] == [0, 0, 0, 0] || FromBigEndian(rest[..4]) > |rest| - 4)
  }

  lemma NoFrameInFront(rest: Bytes)
    requires NoFrame(rest)
    ensures Parse(rest) == None
  {
    if |rest| >= 4 && rest[..4] == [0, 0, 0, 0] {
      assert FromBigEndian(rest[..4]) == 0;
    }
  }

  lemma FrameInFront(token: Bytes, frames: Bytes, rest: Bytes)
    requires |token| < LENGTH_LIMIT
    ensures Frame(token) + frames + rest == Frame(token) + (frames + rest)
  {
  }

  lemma {:induction false} NoFrameBehind(tokens: seq<Bytes>, rest: Bytes)
    requires AllFrameable(tokens) && NoFrame(rest)
    ensures Parse(Frames(tokens) + rest) == None
  {
    if tokens == [] {
      NoFrameInFront(rest);
      assert [] + rest == rest;
    } else {
      var first, more := tokens[0], tokens[1..];
      NoFrameBehind(more, rest);
      FrameInFront(first, Frames(more), rest);
      ParseFrame(first, Frames(more) + rest);
    }
  }

  lemma BodyOf(payload: Bytes, body: Bytes)
    requires payload == HEADER + body
    ensures Chunked(payload) && payload[|HEADER|..] == body
  {
  }

  /** Behind whole frames, what is no frame makes the payload invalid. */
  lemma RejectedBehindFrames(payload: Bytes, body: Bytes, tokens: seq<Bytes>, rest: Bytes, cipher: Cipher)
    requires payload == HEADER + body && AllFrameable(tokens) && body == Frames(tokens) + rest && NoFrame(rest)
    ensures Decrypted(payload, cipher) == None
  {
    BodyOf(payload, body);
    NoFrameBehind(tokens, rest);
  }

  /** And so does a token that does not decrypt. */
  lemma RejectedForToken(payload: Bytes, tokens: seq<Bytes>, i: nat, cipher: Cipher)
    requires AllFrameable(tokens) && payload == HEADER + Frames(tokens)
    requires i < |tokens| && cipher.decrypt(tokens[i]) == None
    ensures Decrypted(payload, cipher) == None
  {
    BodyOf(payload, Frames(tokens));
    ParseUndoesFrames(tokens);
    AllDecrypt(tokens, cipher);
  }

  /**
   * A file cut short behind its header is rejected inside a frame. Cut between two frames it is accepted, and
   * reads as the beginning of the data.
   */
  lemma CutFiles(payload: Bytes, tokens: seq<Bytes>, n: nat, cipher: Cipher)
    requires IsFile(payload, tokens, cipher) && |HEADER| <= n <= |payload|
    ensures Decrypted(payload[..n], cipher).Some? <==>
              exists k :: 0 <= k <= |tokens| && n == |HEADER| + |Frames(tokens[..k])|
    ensures Decrypted(payload[..n], cipher).Some? ==> Decrypted(payload, cipher).Some?
    ensures Decrypted(payload[..n], cipher).Some? ==> Decrypted(payload[..n], cipher).value <= Decrypted(payload, cipher).value
  {
    var cut := payload[..n];
    AcceptedIsFile(payload, cipher);
    AcceptedIsFile(cut, cipher);
    forall k | 0 <= k <= |tokens| && n == |HEADER| + |Frames(tokens[..k])| ensures IsFile(cut, tokens[..k], cipher) {
      CutBetweenFrames(payload, tokens, k, cipher);
    }
    if Decrypted(cut, cipher).Some? {
      var some :| IsFile(cut, some, cipher);
      CutIsPrefix(payload, tokens, n, some, cipher);
      assert DecryptAll(tokens, cipher).Some?;
    }
  }

  lemma CutBetweenFrames(payload: Bytes, tokens: seq<Bytes>, k: nat, cipher: Cipher)
    requires IsFile(payload, tokens, cipher) && k <= |tokens|
    ensures |HEADER| + |Frames(tokens[..k])| <= |payload|
    ensures IsFile(payload[..|HEADER| + |Frames(tokens[..k])|], tokens[..k], cipher)
  {
    FramesJoin(tokens[..k], tokens[k..]);
    assert tokens == tokens[..k] + tokens[k..];
    var front, rest := HEADER + Frames(tokens[..k]), Frames(tokens[k..]);
    assert payload == front + rest;
    assert (front + rest)[..|front|] == front;
  }

  lemma CutIsPrefix(payload: Bytes, tokens: seq<Bytes>, n: nat, some: seq<Bytes>, cipher: Cipher)
    requires IsFile(payload, tokens, cipher) && |HEADER| <= n <= |payload| && IsFile(payload[..n], some, cipher)
    ensures some <= tokens && tokens[..|some|] == some && n == |HEADER| + |Frames(some)|
    ensures DecryptAll(tokens, cipher).Some? && DecryptAll(some, cipher).Some?
    ensures DecryptAll(some, cipher).value <= DecryptAll(tokens, cipher).value
  {
    assert Frames(some) == payload[..n][|HEADER|..];
    assert Frames(tokens) == payload[|HEADER|..];
    FramesPrefix(some, tokens);
    AllDecrypt(tokens, cipher);
    assert tokens == some + tokens[|some|..];
    DecryptAllSplits(some, tokens[|some|..], cipher);
  }

  lemma {:induction false} FramesPrefix(some: seq<Bytes>, tokens: seq<Bytes>)
    requires AllFrameable(some) && AllFrameable(tokens) && Frames(some) <= Frames(tokens)
    ensures some <= tokens
  {
    if some != [] {
      assert |Frames(some)| >= 4;
      FirstFrame(some[0], Frames(some[1..]), tokens[0], Frames(tokens[1..]));
      FramesPrefix(some[1..], tokens[1..]);
      assert some == [some[0]] + some[1..] && tokens == [tokens[0]] + tokens[1..];
    }
  }

  lemma FirstFrame(a: Bytes, left: Bytes, b: Bytes, right: Bytes)
    requires Frameable(a) && Frameable(b) && Frame(a) + left <= Frame(b) + right
    ensures a == b && left <= right
  {
    var x, y := Frame(a) + left, Frame(b) + right;
    assert x[..4] == BigEndian(|a|) && y[..4] == BigEndian(|b|);
    assert x[..4] == y[..4];
    assert x[4..4 + |a|] == a && y[4..4 + |a|] == b;
    assert x[4 + |a|..] == left && y[4 + |a|..] == right;
  }
}
