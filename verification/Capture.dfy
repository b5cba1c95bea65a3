/** The bounded head-and-tail capture of a subprocess's output stream. */
module Capture {
  import opened Basics

  /**
   What a capture holds of a stream: it is the head, `dropped` bytes that are
   gone, and the tail, the head full before anything else is kept and the tail
   full before anything is dropped.
   */
  ghost predicate Summarises(head: Bytes, tail: Bytes, dropped: nat, headMax: nat, tailMax: nat, stream: Bytes) {
    && |stream| == |head| + dropped + |tail|
    && head == stream[..|head|] && tail == stream[|head| + dropped..]
    && |head| <= headMax && |tail| <= tailMax
    && (|head| < headMax ==> tail == [] && dropped == 0)
    && (dropped > 0 ==> |tail| == tailMax)
  }

  /** While the head has room it holds the whole stream. */
  lemma HeadTakes(head: Bytes, headMax: nat, tailMax: nat, stream: Bytes, more: Bytes)
    requires Summarises(head, [], 0, headMax, tailMax, stream) && |head| + |more| <= headMax
    ensures Summarises(head + more, [], 0, headMax, tailMax, stream + more)
  {
    assert head == stream && (stream + more)[..|head + more|] == head + more;
  }

  function Excess(kept: Bytes, tailMax: nat): nat {
    if |kept| > tailMax then |kept| - tailMax else 0
  }

  /** Beyond a full head the tail keeps the newest bytes. */
  lemma TailTakes(head: Bytes, tail: Bytes, dropped: nat, headMax: nat, tailMax: nat, stream: Bytes, more: Bytes)
    requires Summarises(head, tail, dropped, headMax, tailMax, stream) && |head| == headMax
    ensures var n := Excess(tail + more, tailMax);
      Summarises(head, (tail + more)[n..], dropped + n, headMax, tailMax, stream + more)
  {
    var n := Excess(tail + more, tailMax);
    assert (stream + more)[..|head|] == stream[..|head|];
    assert (stream + more)[|head| + dropped..] == tail + more;
    assert (stream + more)[|head| + dropped + n..] == (tail + more)[n..];
  }

  class StreamCapture {
    const headMax: nat
    const tailMax: nat
    var head: Bytes
    var tail: Bytes
    var total: nat
    var dropped: nat
    /** Everything fed so far. */
    ghost var stream: Bytes

    constructor (headMax: nat, tailMax: nat)
      ensures Valid() && stream == [] && this.headMax == headMax && this.tailMax == tailMax
    {
      this.headMax, this.tailMax := headMax, tailMax;
      head, tail, total, dropped, stream := [], [], 0, 0, [];
    }

    ghost predicate Valid()
      reads this
    {
      total == |stream| && Summarises(head, tail, dropped, headMax, tailMax, stream)
    }

    /** `feed` */
    method Feed(chunk: Bytes)
      requires Valid()
      modifies this
      ensures Valid() && stream == old(stream) + chunk
    {
      var left := chunk;
      total := total + |chunk|;
      if |head| < headMax {
        var room := headMax - |head|;
        var n := if room < |left| then room else |left|;
        HeadTakes(head, headMax, tailMax, stream, left[..n]);
        head, stream := head + left[..n], stream + left[..n];
        left := left[n..];
      }
      assert stream + left == old(stream) + chunk;
      if left != [] {
        TailTakes(head, tail, dropped, headMax, tailMax, stream, left);
        tail := tail + left;
        var excess := |tail| - tailMax;
        if excess > 0 {
          tail := tail[excess..];
          dropped := dropped + excess;
        }
        stream := stream + left;
      }
    }
  }

  function Concat(chunks: seq<Bytes>): Bytes {
    if chunks == [] then [] else Concat(chunks[..|chunks| - 1]) + chunks[|chunks| - 1]
  }

  /** `_drain`: whatever the chunks, the capture summarises their concatenation. */
  method Drain(chunks: seq<Bytes>, headMax: nat, tailMax: nat) returns (c: StreamCapture)
    ensures fresh(c) && c.Valid() && c.stream == Concat(chunks) && c.headMax == headMax && c.tailMax == tailMax
  {
    c := new StreamCapture(headMax, tailMax);
    var i := 0;
    while i < |chunks|
      invariant 0 <= i <= |chunks| && fresh(c) && c.Valid() && c.stream == Concat(chunks[..i])
      invariant c.headMax == headMax && c.tailMax == tailMax
    {
      c.Feed(chunks[i]);
      assert chunks[..i + 1][..i] == chunks[..i];
      i := i + 1;
    }
    assert chunks[..i] == chunks;
  }

  /** A stream has one summary, however it was cut into chunks. */
  lemma OneSummary(head: Bytes, tail: Bytes, dropped: nat, otherHead: Bytes, otherTail: Bytes, otherDropped: nat,
                   headMax: nat, tailMax: nat, stream: Bytes)
    requires Summarises(head, tail, dropped, headMax, tailMax, stream)
    requires Summarises(otherHead, otherTail, otherDropped, headMax, tailMax, stream)
    ensures head == otherHead && tail == otherTail && dropped == otherDropped
  {
    assert |head| == |otherHead|;
  }

  ghost predicate Ends(s: Bytes, suffix: Bytes) {
    |suffix| <= |s| && s[|s| - |suffix|..] == suffix
  }

  /** Every prefix short enough for the head is within it. */
  lemma HeadIsLongest(head: Bytes, tail: Bytes, dropped: nat, headMax: nat, tailMax: nat, stream: Bytes, prefix: Bytes)
    requires Summarises(head, tail, dropped, headMax, tailMax, stream)
    requires prefix <= stream && |prefix| <= headMax
    ensures prefix <= head
  {
  }

  /** Every ending of what follows the head that is short enough for the tail is within it. */
  lemma TailIsLongest(head: Bytes, tail: Bytes, dropped: nat, headMax: nat, tailMax: nat, stream: Bytes, suffix: Bytes)
    requires Summarises(head, tail, dropped, headMax, tailMax, stream)
    requires Ends(stream[|head|..], suffix) && |suffix| <= tailMax
    ensures Ends(tail, suffix)
  {
    var rest := stream[|head|..];
    assert tail == rest[dropped..];
    assert |suffix| <= |tail|;
    assert tail[|tail| - |suffix|..] == rest[dropped + (|tail| - |suffix|)..];
  }

  /** Nothing was dropped exactly when head and tail together are the stream, and exactly when it fits. */
  lemma VerbatimIffItFits(head: Bytes, tail: Bytes, dropped: nat, headMax: nat, tailMax: nat, stream: Bytes)
    requires Summarises(head, tail, dropped, headMax, tailMax, stream)
    ensures dropped == 0 <==> head + tail == stream
    ensures dropped == 0 <==> |stream| <= headMax + tailMax
  {
    if dropped == 0 {
      assert stream == stream[..|head|] + stream[|head|..];
    }
  }

  datatype Capped = Whole(data: Bytes) | Cut(head: Bytes, tail: Bytes, total: nat, dropped: nat)

  /** `cap_text` on the encoded text: as it is when it fits, else both ends and how much lay between them. */
  method CapText(data: Bytes, headBytes: nat, tailBytes: nat) returns (r: Capped)
    ensures |data| <= headBytes + tailBytes ==> r == Whole(data)
    ensures |data| > headBytes + tailBytes ==>
      r == Cut(data[..headBytes], data[|data| - tailBytes..], |data|, |data| - headBytes - tailBytes)
  {
    if |data| <= headBytes + tailBytes {
      return Whole(data);
    }
    var cap := new StreamCapture(headBytes, tailBytes);
    cap.Feed(data);
    assert cap.stream == data;
    VerbatimIffItFits(cap.head, cap.tail, cap.dropped, headBytes, tailBytes, data);
    r := Cut(cap.head, cap.tail, cap.total, cap.dropped);
  }
}
