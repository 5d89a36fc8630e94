/**
 * The stored form of an embedding: its float32 values as little-endian 4-byte words
 * (IEEE 754 binary32 bit patterns, kept opaque). Models `serializeVector` and
 * `deserializeVector` of internal/storage/sqlite/provider_pure.go.
 */
module VectorCodec {
  import opened Sequences

  type Byte = x: int | 0 <= x < 256
  /** The bit pattern of one float32. */
  type Word = x: int | 0 <= x < 0x1_0000_0000
  type Vec = seq<Word>

  function PutUint32(w: Word): (b: seq<Byte>)
    ensures |b| == 4
  {
    [w % 256, (w / 0x100) % 256, (w / 0x1_0000) % 256, w / 0x100_0000]
  }

  function Uint32(b: seq<Byte>): Word
    requires |b| == 4
  {
    var b0: int, b1: int, b2: int, b3: int := b[0], b[1], b[2], b[3];
    b0 + 0x100 * b1 + 0x1_0000 * b2 + 0x100_0000 * b3
  }

  lemma WordRoundTrip(w: Word)
    ensures Uint32(PutUint32(w)) == w
  {
    var q1, q2 := w / 0x100, w / 0x1_0000;
    assert q2 == q1 / 0x100;
    assert w / 0x100_0000 == q2 / 0x100;
  }

  lemma BytesRoundTrip(b: seq<Byte>)
    requires |b| == 4
    ensures PutUint32(Uint32(b)) == b
  {
    var w := Uint32(b);
    var b1: int, b2: int, b3: int := b[1], b[2], b[3];
    assert w / 0x100 == b1 + 0x100 * b2 + 0x1_0000 * b3;
    assert w / 0x1_0000 == b2 + 0x100 * b3;
    assert w / 0x100_0000 == b3;
  }

  function Encode(vec: Vec): (data: seq<Byte>) {
    if vec == [] then [] else PutUint32(vec[0]) + Encode(vec[1..])
  }

  function DecodeWords(data: seq<Byte>): (vec: Vec)
    requires |data| % 4 == 0
  {
    if data == [] then [] else [Uint32(data[..4])] + DecodeWords(data[4..])
  }

  /** Blobs of any other length decode to nothing. */
  function Decode(data: seq<Byte>): (vec: Vec) {
    if |data| % 4 != 0 then [] else DecodeWords(data)
  }

  lemma {:induction false} EncodeLength(vec: Vec)
    ensures |Encode(vec)| == 4 * |vec|
  {
    if vec != [] {
      EncodeLength(vec[1..]);
    }
  }

  /** Decoding undoes encoding, for every embedding. */
  lemma {:induction false} DecodeEncode(vec: Vec)
    ensures Decode(Encode(vec)) == vec
  {
    EncodeLength(vec);
    if vec != [] {
      var head, tail := PutUint32(vec[0]), Encode(vec[1..]);
      assert (head + tail)[..4] == head && (head + tail)[4..] == tail;
      EncodeLength(vec[1..]);
      DecodeEncode(vec[1..]);
      WordRoundTrip(vec[0]);
    }
  }

  lemma {:induction false} EncodedWord(vec: Vec, i: nat)
    requires i < |vec|
    ensures |Encode(vec)| == 4 * |vec| && Encode(vec)[4 * i..4 * i + 4] == PutUint32(vec[i])
  {
    EncodeLength(vec);
    EncodeLength(vec[1..]);
    var head, tail := PutUint32(vec[0]), Encode(vec[1..]);
    if i == 0 {
      assert (head + tail)[..4] == head;
    } else {
      EncodedWord(vec[1..], i - 1);
      assert (head + tail)[4 * i..4 * i + 4] == tail[4 * (i - 1)..4 * (i - 1) + 4];
    }
  }

  /** The i-th word takes four bytes, the least significant first. */
  lemma EncodedBytes(vec: Vec, i: nat)
    requires i < |vec|
    ensures var data := Encode(vec);
            && |data| == 4 * |vec|
            && data[4 * i] == vec[i] % 256 && data[4 * i + 1] == vec[i] / 256 % 256
            && data[4 * i + 2] == vec[i] / 65536 % 256 && data[4 * i + 3] == vec[i] / 16777216
  {
    EncodedWord(vec, i);
    var word := Encode(vec)[4 * i..4 * i + 4];
    assert word[0] == Encode(vec)[4 * i] && word[1] == Encode(vec)[4 * i + 1];
    assert word[2] == Encode(vec)[4 * i + 2] && word[3] == Encode(vec)[4 * i + 3];
  }

  lemma {:induction false} EncodeDecodeWords(data: seq<Byte>)
    requires |data| % 4 == 0
    ensures Encode(DecodeWords(data)) == data
  {
    if data != [] {
      EncodeDecodeWords(data[4..]);
      BytesRoundTrip(data[..4]);
      var vec := DecodeWords(data);
      assert vec[1..] == DecodeWords(data[4..]);
      assert data == data[..4] + data[4..];
    }
  }

  /** Encoding undoes decoding exactly on the blobs whose length is a multiple of four. */
  lemma EncodeDecode(data: seq<Byte>)
    ensures Encode(Decode(data)) == data <==> |data| % 4 == 0
  {
    if |data| % 4 == 0 {
      EncodeDecodeWords(data);
    }
  }

  lemma EncodeCons(word: Word, rest: Vec)
    ensures Encode([word] + rest) == PutUint32(word) + Encode(rest)
  {
    assert ([word] + rest)[1..] == rest;
  }

  lemma {:induction false} EncodeAppend(a: Vec, b: Vec)
    ensures Encode(a + b) == Encode(a) + Encode(b)
  {
    if |a| == 0 {
      EmptyConcat(b);
      EmptyConcat(Encode(b));
    } else {
      var word, rest := a[0], a[1..];
      EncodeAppend(rest, b);
      HeadConcat(a, b);
      EncodeCons(word, rest + b);
      EncodeCons(word, rest);
      ConcatAssociative(PutUint32(word), Encode(rest), Encode(b));
    }
  }

  lemma {:induction false} DecodeAppend(a: seq<Byte>, b: seq<Byte>)
    requires |a| % 4 == 0 && |b| % 4 == 0
    ensures |a + b| % 4 == 0
    ensures DecodeWords(a + b) == DecodeWords(a) + DecodeWords(b)
  {
    if a == [] {
      assert a + b == b;
    } else {
      DecodeAppend(a[4..], b);
      assert (a + b)[..4] == a[..4] && (a + b)[4..] == a[4..] + b;
    }
  }

  method SerializeVector(vec: Vec) returns (data: seq<Byte>)
    ensures data == Encode(vec)
    ensures |data| == 4 * |vec|
  {
    if |vec| == 0 {
      return [];
    }
    var buf := new Byte[|vec| * 4](_ => 0);
    for i := 0 to |vec|
      invariant buf[..4 * i] == Encode(vec[..i])
    {
      var word := PutUint32(vec[i]);
      ghost var before := buf[..4 * i];
      buf[4 * i], buf[4 * i + 1], buf[4 * i + 2], buf[4 * i + 3] := word[0], word[1], word[2], word[3];
      assert buf[..4 * (i + 1)] == before + word;
      assert Encode([vec[i]]) == word + Encode([]);
      EncodeAppend(vec[..i], [vec[i]]);
      assert vec[..i + 1] == vec[..i] + [vec[i]];
    }
    assert vec[..|vec|] == vec && buf[..] == buf[..4 * |vec|];
    EncodeLength(vec);
    data := buf[..];
  }

  method DeserializeVector(data: seq<Byte>) returns (vec: Vec)
    ensures vec == Decode(data)
    ensures |data| % 4 == 0 ==> |vec| == |data| / 4
  {
    if |data| == 0 || |data| % 4 != 0 {
      return [];
    }
    var words := new Word[|data| / 4](_ => 0);
    for i := 0 to words.Length
      invariant words[..i] == DecodeWords(data[..4 * i])
    {
      ghost var before := words[..i];
      words[i] := Uint32(data[4 * i..4 * i + 4]);
      assert words[..i + 1] == before + [words[i]];
      assert DecodeWords(data[4 * i..4 * i + 4]) == [words[i]] + DecodeWords([]) by {
        assert data[4 * i..4 * i + 4][..4] == data[4 * i..4 * i + 4];
      }
      DecodeAppend(data[..4 * i], data[4 * i..4 * i + 4]);
      assert data[..4 * (i + 1)] == data[..4 * i] + data[4 * i..4 * i + 4];
    }
    assert data[..4 * words.Length] == data && words[..] == words[..words.Length];
    vec := words[..];
  }
}
