/** Turning chunks into points: one embedding call and one fresh id per
    chunk, in chunk order, with the chunk itself as the payload. */
module Points {
  import opened Results

  /** An embedding vector; the collection fixes its length. */
  type Vector = seq<real>
  /** Stands for the UUID string that each point gets. */
  type PointId = nat

  datatype Payload = Payload(text: string)

  datatype Point = Point(id: PointId, vector: Vector, payload: Payload)

  /** A source of identifiers that never hands out the same one twice,
      in place of a random UUID generator. Every id below `next` has been
      handed out; none at or above it has. */
  class IdSource {
    var next: PointId

    constructor (start: PointId)
      ensures next == start
    {
      next := start;
    }

    predicate Issued(id: PointId)
      reads this
    {
      id < next
    }

    method Fresh() returns (id: PointId)
      modifies this
      ensures !old(Issued(id)) && Issued(id)
      ensures id == old(next) && next == old(next) + 1
    {
      id := next;
      next := next + 1;
    }
  }

  /** The points that embedding the chunks in order yields when the ids
      handed out start at first, or the first embedding failure. */
  function EmbedAll(chunks: seq<string>, embed: string -> Result<Vector>, first: PointId): Result<seq<Point>>
  {
    if chunks == [] then Success([])
    else
      var n := |chunks| - 1;
      match EmbedAll(chunks[..n], embed, first)
      case Failure(e) => Failure(e)
      case Success(ps) =>
        match embed(chunks[n])
        case Failure(e) => Failure(e)
        case Success(v) => Success(ps + [Point(first + n, v, Payload(chunks[n]))])
  }

  /** Once a prefix of the chunks fails, the whole batch fails the same way. */
  lemma {:induction false} FailureSticks(chunks: seq<string>, embed: string -> Result<Vector>, first: PointId, k: nat)
    requires k <= |chunks|
    requires EmbedAll(chunks[..k], embed, first).Failure?
    ensures EmbedAll(chunks, embed, first) == EmbedAll(chunks[..k], embed, first)
  {
    if k == |chunks| {
      assert chunks[..k] == chunks;
    } else {
      var n := |chunks| - 1;
      assert chunks[..n][..k] == chunks[..k];
      FailureSticks(chunks[..n], embed, first, k);
    }
  }

  /** A batch succeeds exactly when every chunk embeds; then it has one
      point per chunk, in chunk order, carrying that chunk's embedding and
      text under pairwise distinct ids from first on. */
  lemma {:induction false} EmbedAllSucceeds(chunks: seq<string>, embed: string -> Result<Vector>, first: PointId)
    ensures EmbedAll(chunks, embed, first).Success? <==>
            forall i :: 0 <= i < |chunks| ==> embed(chunks[i]).Success?
    ensures EmbedAll(chunks, embed, first).Success? ==>
            var ps := EmbedAll(chunks, embed, first).value;
            |ps| == |chunks| &&
            (forall i :: 0 <= i < |ps| ==>
               ps[i].id == first + i &&
               ps[i].vector == embed(chunks[i]).value &&
               ps[i].payload.text == chunks[i]) &&
            (forall i, j :: 0 <= i < j < |ps| ==> ps[i].id != ps[j].id)
  {
    if chunks != [] {
      var n := |chunks| - 1;
      var pre := chunks[..n];
      EmbedAllSucceeds(pre, embed, first);
      assert forall i :: 0 <= i < n ==> pre[i] == chunks[i];
    }
  }

  /** The numbering and payloads of a successful batch, without its vectors. */
  lemma {:induction false} EmbedAllIds(chunks: seq<string>, embed: string -> Result<Vector>, first: PointId)
    requires EmbedAll(chunks, embed, first).Success?
    ensures var ps := EmbedAll(chunks, embed, first).value;
            |ps| == |chunks| &&
            forall i :: 0 <= i < |ps| ==> ps[i].id == first + i && ps[i].payload.text == chunks[i]
  {
    EmbedAllSucceeds(chunks, embed, first);
  }

  /** Whether a batch succeeds does not depend on the ids it is given. */
  lemma {:induction false} EmbedAllAnyStart(chunks: seq<string>, embed: string -> Result<Vector>, first: PointId, other: PointId)
    requires EmbedAll(chunks, embed, first).Success?
    ensures EmbedAll(chunks, embed, other).Success?
  {
    EmbedAllSucceeds(chunks, embed, first);
    EmbedAllSucceeds(chunks, embed, other);
  }

  /** A failed batch carries the error of the first chunk that failed. */
  lemma {:induction false} EmbedAllFails(chunks: seq<string>, embed: string -> Result<Vector>, first: PointId)
    requires EmbedAll(chunks, embed, first).Failure?
    ensures exists i :: 0 <= i < |chunks| && embed(chunks[i]).Failure? &&
              (forall j :: 0 <= j < i ==> embed(chunks[j]).Success?) &&
              EmbedAll(chunks, embed, first).error == embed(chunks[i]).error
  {
    var n := |chunks| - 1;
    var pre := chunks[..n];
    assert forall i :: 0 <= i < n ==> pre[i] == chunks[i];
    if EmbedAll(pre, embed, first).Failure? {
      EmbedAllFails(pre, embed, first);
      var i :| 0 <= i < |pre| && embed(pre[i]).Failure? &&
               (forall j :: 0 <= j < i ==> embed(pre[j]).Success?) &&
               EmbedAll(pre, embed, first).error == embed(pre[i]).error;
      assert embed(chunks[i]).Failure?;
    } else {
      EmbedAllSucceeds(pre, embed, first);
      assert embed(chunks[n]).Failure?;
    }
  }

  /** The handler's loop: for each chunk, embed it, draw a fresh id
      and append the point. The first failing embedding aborts the batch. */
  method GetEmbedding(chunks: seq<string>, embed: string -> Result<Vector>, ids: IdSource)
    returns (r: Result<seq<Point>>)
    modifies ids
    ensures r == EmbedAll(chunks, embed, old(ids.next))
    ensures old(ids.next) <= ids.next <= old(ids.next) + |chunks|
    ensures r.Success? ==> ids.next == old(ids.next) + |chunks|
  {
    var points: seq<Point> := [];
    ghost var first := ids.next;
    for i := 0 to |chunks|
      invariant ids.next == first + i
      invariant EmbedAll(chunks[..i], embed, first) == Success(points)
    {
      assert chunks[..i + 1][..i] == chunks[..i];
      var response := embed(chunks[i]);
      if response.Failure? {
        FailureSticks(chunks, embed, first, i + 1);
        return Failure(response.error);
      }
      var pointId := ids.Fresh();
      points := points + [Point(pointId, response.value, Payload(chunks[i]))];
    }
    assert chunks[..|chunks|] == chunks;
    return Success(points);
  }
}
