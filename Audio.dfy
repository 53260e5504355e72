/**
 * Recorded audio as the Translator component handles it: the recorder
 * delivers chunks, which the component keeps in arrival order, and the stop
 * handler joins them into one `audio/webm` blob.
 */
module Audio {

  newtype byte = x: int | 0 <= x < 256

  /** The data of one `dataavailable` event. */
  type Chunk = seq<byte>

  /** A `Blob`: its bytes and its content type. */
  datatype Blob = Blob(bytes: seq<byte>, mimeType: string)

  /** The content type the stop handler gives the recording. */
  const RecordingMimeType := "audio/webm"

  /** The bytes of `new Blob(chunks)`: the chunks' bytes joined in order. */
  function Concat(chunks: seq<Chunk>): (r: seq<byte>)
    ensures chunks == [] ==> r == []
    ensures chunks != [] ==> |chunks[0]| <= |r| && r[..|chunks[0]|] == chunks[0]
    ensures chunks != [] ==> |chunks[|chunks| - 1]| <= |r| && r[|r| - |chunks[|chunks| - 1]|..] == chunks[|chunks| - 1]
  {
    if chunks == [] then [] else chunks[0] + Concat(chunks[1..])
  }

  /** Joining two runs of chunks is joining their blobs. */
  lemma {:induction false} ConcatSplit(a: seq<Chunk>, b: seq<Chunk>)
    ensures Concat(a + b) == Concat(a) + Concat(b)
    decreases |a|
  {
    if a == [] {
      assert a + b == b;
    } else {
      assert (a + b)[0] == a[0] && (a + b)[1..] == a[1..] + b;
      ConcatSplit(a[1..], b);
    }
  }

  /** A chunk that arrives last ends up at the end of the blob. */
  lemma ConcatAppend(chunks: seq<Chunk>, c: Chunk)
    ensures Concat(chunks + [c]) == Concat(chunks) + c
  {
    ConcatSplit(chunks, [c]);
    assert Concat([c]) == c + Concat([]);
  }

  /**
   * The blob the stop handler builds from the buffered chunks: an
   * `audio/webm` blob holding the chunks' bytes in arrival order.
   */
  function RecordingBlob(chunks: seq<Chunk>): (b: Blob)
    ensures b.mimeType == RecordingMimeType
    ensures b.bytes == Concat(chunks)
    ensures chunks == [] ==> b.bytes == []
  {
    Blob(Concat(chunks), RecordingMimeType)
  }
}
