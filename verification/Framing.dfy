/** The transport framing of a body: extproc_response.go's `frame`. */
module Framing {
  import opened Common
  import opened Wire

  const STREAM_CHUNK_SIZE: nat := 61440

  /** How many chunks a body of `n` bytes needs; an empty body still needs one. */
  function ChunkCount(n: nat): (count: nat)
    ensures count >= 1
  {
    if n == 0 then 1 else (n + STREAM_CHUNK_SIZE - 1) / STREAM_CHUNK_SIZE
  }

  /** The i-th chunk: full-size except that the last takes what is left. */
  function Chunk(body: Bytes, i: nat): Bytes
    requires i < ChunkCount(|body|)
  {
    var from := i * STREAM_CHUNK_SIZE;
    if i == ChunkCount(|body|) - 1 then body[from..] else body[from..from + STREAM_CHUNK_SIZE]
  }

  function ChunkAnswers(direction: Direction, body: Bytes, hasTrailers: bool): seq<Answer> {
    seq(ChunkCount(|body|), i requires 0 <= i < ChunkCount(|body|) =>
      BodyAnswer(direction, Chunk(body, i), i == ChunkCount(|body|) - 1 && !hasTrailers))
  }

  function TrailerAnswers(direction: Direction, hasTrailers: bool): seq<Answer> {
    if hasTrailers then [TrailersAnswer(direction)] else []
  }

  /** The wire sequence of a mutation: its headers, the body in chunks, and a
      trailers answer when the source body ended in trailers. */
  function Framed(m: StreamedMutation, direction: Direction, hasTrailers: bool): seq<Answer> {
    [m.headers] + ChunkAnswers(direction, m.body, hasTrailers) + TrailerAnswers(direction, hasTrailers)
  }

  /** Cutting the next chunk off what is left of the body. */
  lemma NextChunk(body: Bytes, i: nat)
    requires i < ChunkCount(|body|)
    ensures var rest := RestFrom(body, i);
            var end := if |rest| <= STREAM_CHUNK_SIZE then |rest| else STREAM_CHUNK_SIZE;
      && rest[..end] == Chunk(body, i)
      && (|rest| == end <==> i + 1 == ChunkCount(|body|))
      && (|rest| != end ==> rest[end..] == RestFrom(body, i + 1))
  {
  }

  /** What is left of the body before the i-th chunk. */
  ghost function RestFrom(body: Bytes, i: nat): Bytes
    requires i < ChunkCount(|body|)
  {
    body[i * STREAM_CHUNK_SIZE..]
  }

  ghost function FirstAnswers(direction: Direction, body: Bytes, hasTrailers: bool, i: nat): seq<Answer>
    requires i <= ChunkCount(|body|)
  {
    ChunkAnswers(direction, body, hasTrailers)[..i]
  }

  lemma NextAnswer(direction: Direction, body: Bytes, hasTrailers: bool, i: nat)
    requires i < ChunkCount(|body|)
    ensures FirstAnswers(direction, body, hasTrailers, i + 1) == FirstAnswers(direction, body, hasTrailers, i)
      + [BodyAnswer(direction, Chunk(body, i), i + 1 == ChunkCount(|body|) && !hasTrailers)]
  {
  }

  method Frame(m: StreamedMutation, direction: Direction, hasTrailers: bool) returns (reps: seq<Answer>)
    ensures reps == Framed(m, direction, hasTrailers)
  {
    reps := [m.headers];
    var body := m.body;
    var done := false;
    ghost var i: nat := 0;
    while !done
      invariant i <= ChunkCount(|m.body|) && (done <==> i == ChunkCount(|m.body|))
      invariant !done ==> body == RestFrom(m.body, i)
      invariant reps == [m.headers] + FirstAnswers(direction, m.body, hasTrailers, i)
      decreases !done, |body|
    {
      NextChunk(m.body, i);
      NextAnswer(direction, m.body, hasTrailers, i);
      var end := if |body| <= STREAM_CHUNK_SIZE then |body| else STREAM_CHUNK_SIZE;
      var chunk := body[..end];
      body := body[end..];
      var last := |body| == 0;
      reps := reps + [BodyAnswer(direction, chunk, last && !hasTrailers)];
      done := last;
      i := i + 1;
    }
    if hasTrailers {
      reps := reps + [TrailersAnswer(direction)];
    }
  }

  function Chunks(body: Bytes): seq<Bytes> {
    seq(ChunkCount(|body|), i requires 0 <= i < ChunkCount(|body|) => Chunk(body, i))
  }

  lemma {:induction false} ChunksPrefix(body: Bytes, k: nat)
    requires k < ChunkCount(|body|)
    ensures Concat(Chunks(body)[..k]) == body[..k * STREAM_CHUNK_SIZE]
  {
    if k > 0 {
      ChunksPrefix(body, k - 1);
      assert Chunks(body)[..k] == Chunks(body)[..k - 1] + [Chunk(body, k - 1)];
      ConcatSnoc(Chunks(body)[..k - 1], Chunk(body, k - 1));
    }
  }

  /** The chunks put back together are the body. */
  lemma ChunksConcat(body: Bytes)
    ensures Concat(Chunks(body)) == body
  {
    var k := ChunkCount(|body|) - 1;
    ChunksPrefix(body, k);
    assert Chunks(body) == Chunks(body)[..k] + [Chunk(body, k)];
    ConcatSnoc(Chunks(body)[..k], Chunk(body, k));
  }

  predicate EndsStream(a: Answer) {
    match a
    case BodyAnswer(_, _, endOfStream) => endOfStream
    case TrailersAnswer(_) => true
    case _ => false
  }

  /** What any framed mutation looks like on the wire: the body comes whole, in
      max(1, ceil(n / 61440)) chunks of which all but the last are full, and the
      end is signalled exactly once, by the last message: the final chunk when
      there are no trailers, the trailers answer when there are. */
  lemma FramedWhole(m: StreamedMutation, direction: Direction, hasTrailers: bool)
    requires m.headers.HeadersAnswer?
    ensures var reps, chunks := Framed(m, direction, hasTrailers), Chunks(m.body);
      && Concat(chunks) == m.body
      && (m.body == [] ==> |chunks| == 1)
      && (m.body != [] ==> 61440 * (|chunks| - 1) < |m.body| <= 61440 * |chunks|)
      && (forall i :: 0 <= i < |chunks| - 1 ==> |chunks[i]| == 61440)
      && |reps| == 1 + |chunks| + (if hasTrailers then 1 else 0)
      && reps[0] == m.headers
      && (forall i :: 0 <= i < |chunks| ==>
            reps[i + 1].BodyAnswer? && reps[i + 1].direction == direction && reps[i + 1].chunk == chunks[i])
      && (forall i :: 0 <= i < |reps| ==> (EndsStream(reps[i]) <==> i == |reps| - 1))
      && (hasTrailers ==> reps[|reps| - 1] == TrailersAnswer(direction))
  {
    ChunksConcat(m.body);
  }
}
