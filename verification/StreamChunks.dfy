/** How the stream writers of src/core/data_stream.cpp split a write into chunks. */
module StreamChunks {
  import opened Bytes
  import opened Utf8

  /** kStreamChunkSize */
  const STREAM_CHUNK_SIZE := 15_000

  /** The last position in [offset, boundary] that does not split a character, if there is one. */
  function BackToCharacter(text: Chunk, offset: nat, boundary: nat): (b: nat)
    requires offset <= boundary < |text|
    ensures offset <= b <= boundary
    ensures b > offset ==> !IsContinuation(text[b])
    ensures forall i :: b < i <= boundary ==> IsContinuation(text[i])
  {
    if boundary > offset && IsContinuation(text[boundary])
    then BackToCharacter(text, offset, boundary - 1)
    else boundary
  }

  function ChunkSizeAt(text: Chunk, offset: nat): (size: nat)
    requires offset < |text|
    ensures 0 < size <= STREAM_CHUNK_SIZE && offset + size <= |text|
  {
    if |text| - offset <= STREAM_CHUNK_SIZE then |text| - offset
    else
      var b := BackToCharacter(text, offset, offset + STREAM_CHUNK_SIZE);
      if b == offset then STREAM_CHUNK_SIZE else b - offset
  }

  /** The chunks TextStreamWriter::Write sends for the rest of a text. */
  function TextChunks(text: Chunk, offset: nat): seq<Chunk>
    requires offset <= |text|
    decreases |text| - offset
  {
    if offset == |text| then []
    else
      var size := ChunkSizeAt(text, offset);
      [text[offset..offset + size]] + TextChunks(text, offset + size)
  }

  /** The chunks ByteStreamWriter::Write sends for the rest of its data. */
  function ByteChunks(data: Chunk, offset: nat): seq<Chunk>
    requires offset <= |data|
    decreases |data| - offset
  {
    if offset == |data| then []
    else
      var size := if |data| - offset < STREAM_CHUNK_SIZE then |data| - offset else STREAM_CHUNK_SIZE;
      [data[offset..offset + size]] + ByteChunks(data, offset + size)
  }

  /** Utf8AwareChunkSize: the backwards scan from the size limit. */
  method Utf8AwareChunkSize(text: Chunk, offset: nat) returns (size: nat)
    requires offset < |text|
    ensures size == ChunkSizeAt(text, offset)
  {
    size := if |text| - offset < STREAM_CHUNK_SIZE then |text| - offset else STREAM_CHUNK_SIZE;
    if offset + size == |text| { return; }

    var boundary := offset + size;
    while boundary > offset && IsContinuation(text[boundary])
      invariant offset <= boundary <= offset + size
      invariant BackToCharacter(text, offset, boundary) == BackToCharacter(text, offset, offset + size)
    {
      boundary := boundary - 1;
    }
    size := if boundary == offset then size else boundary - offset;
  }

  /** On any bytes at all, the chunks are non-empty, bounded and spell the text. */
  lemma {:induction false} TextChunksCover(text: Chunk, offset: nat)
    requires offset <= |text|
    ensures Concat(TextChunks(text, offset)) == text[offset..]
    ensures forall c :: c in TextChunks(text, offset) ==> 0 < |c| <= STREAM_CHUNK_SIZE
    decreases |text| - offset
  {
    if offset < |text| {
      var size := ChunkSizeAt(text, offset);
      TextChunksCover(text, offset + size);
      assert text[offset..] == text[offset..offset + size] + text[offset + size..];
    }
  }

  lemma {:induction false} ByteChunksCover(data: Chunk, offset: nat)
    requires offset <= |data|
    ensures Concat(ByteChunks(data, offset)) == data[offset..]
    ensures forall c :: c in ByteChunks(data, offset) ==> 0 < |c| <= STREAM_CHUNK_SIZE
    ensures |ByteChunks(data, offset)| == (|data| - offset + STREAM_CHUNK_SIZE - 1) / STREAM_CHUNK_SIZE
    decreases |data| - offset
  {
    if offset < |data| {
      var size := if |data| - offset < STREAM_CHUNK_SIZE then |data| - offset else STREAM_CHUNK_SIZE;
      ByteChunksCover(data, offset + size);
      assert data[offset..] == data[offset..offset + size] + data[offset + size..];
    }
  }

  /** The first chunk of the rest of a valid text ends between characters and is nearly full. */
  lemma FirstChunkIsText(text: Chunk, offset: nat)
    requires offset < |text| && WellFormed(text[offset..])
    ensures var end := offset + ChunkSizeAt(text, offset);
            && WellFormed(text[offset..end]) && WellFormed(text[end..])
            && (end < |text| ==> STREAM_CHUNK_SIZE - 3 <= end - offset)
  {
    var size, rest := ChunkSizeAt(text, offset), text[offset..];
    if offset + size < |text| {
      BoundaryWithinFour(rest, STREAM_CHUNK_SIZE - 3);
      var j :| STREAM_CHUNK_SIZE - 3 <= j < STREAM_CHUNK_SIZE + 1 && !IsContinuation(rest[j]);
      assert !IsContinuation(text[offset + j]);
      assert size >= STREAM_CHUNK_SIZE - 3 && !IsContinuation(rest[size]);
    }
    CutText(rest, size);
    assert rest[..size] == text[offset..offset + size];
    assert rest[size..] == text[offset + size..];
  }

  /** No character of a valid text is split, and only the last chunk may be short. */
  lemma {:induction false} TextChunksAreText(text: Chunk, offset: nat)
    requires offset <= |text| && WellFormed(text[offset..])
    ensures forall c :: c in TextChunks(text, offset) ==> WellFormed(c)
    ensures forall i :: 0 <= i < |TextChunks(text, offset)| - 1 ==>
              STREAM_CHUNK_SIZE - 3 <= |TextChunks(text, offset)[i]|
    decreases |text| - offset
  {
    if offset < |text| {
      var end := offset + ChunkSizeAt(text, offset);
      FirstChunkIsText(text, offset);
      TextChunksAreText(text, end);
      var tail := TextChunks(text, end);
      assert tail == [] ==> end == |text|;
      forall i | 0 <= i < |tail|
        ensures STREAM_CHUNK_SIZE - 3 <= |([text[offset..end]] + tail)[i]|
      {
        assert i > 0 ==> ([text[offset..end]] + tail)[i] == tail[i - 1];
      }
    }
  }

  /** A valid text of 16 MiB or less never meets the limit of 4096 chunks: 1119 suffice. */
  lemma TextChunkCount(text: Chunk)
    requires WellFormed(text) && |text| <= 16 * 1024 * 1024
    ensures |TextChunks(text, 0)| <= 1119
  {
    var parts := TextChunks(text, 0);
    assert text[0..] == text;
    TextChunksAreText(text, 0);
    TextChunksCover(text, 0);
    if parts != [] {
      CountNearlyFull(parts, STREAM_CHUNK_SIZE - 3);
    }
  }

  lemma CountNearlyFull(parts: seq<Chunk>, least: nat)
    requires parts != []
    requires forall i :: 0 <= i < |parts| - 1 ==> least <= |parts[i]|
    ensures least * (|parts| - 1) <= |Concat(parts)|
  {
    var full, last := parts[..|parts| - 1], parts[|parts| - 1];
    assert parts == full + [last];
    ConcatAppend(full, last);
    ConcatLength(parts);
    SizeAtLeastCount(full, least);
  }
}
