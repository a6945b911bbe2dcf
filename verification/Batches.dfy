/** What a batch popped from the queue is, and how a queue falls into batches. */
module Batches {
  import opened ActorRecords

  /** Mentions of one discussion, each within the window of the one before. */
  ghost predicate MentionChain(b: seq<Event>, window: int) {
    && b != []
    && b[0].discussion.Some? && b[0].discussion.value != ""
    && (forall i | 0 <= i < |b| :: b[i].kind == Mention && b[i].discussion == b[0].discussion)
    && (window <= 0 || forall i | 1 <= i < |b| :: b[i].receivedAt - b[i - 1].receivedAt <= window)
  }

  ghost predicate ReviewBlock(b: seq<Event>) {
    b != [] && forall i | 0 <= i < |b| :: b[i].kind == AutoReview
  }

  /** The batches the runtime may run in one go. */
  ghost predicate Eligible(b: seq<Event>, window: int) {
    |b| == 1 || ReviewBlock(b) || MentionChain(b, window)
  }

  /** Extending an eligible batch keeps it eligible exactly when the event joins. */
  lemma EligibleExtends(b: seq<Event>, next: Event, window: int)
    requires Eligible(b, window)
    ensures Eligible(b + [next], window) <==> Joins(b, next, window)
  {
    var c := b + [next];
    assert c[0] == b[0] && c[|b|] == next;
    assert c[|b| - 1] == b[|b| - 1];
    if Joins(b, next, window) {
      if |b| == 1 {
        if b[0].kind == AutoReview { assert ReviewBlock(c); } else { assert MentionChain(c, window); }
      } else if ReviewBlock(b) {
        assert ReviewBlock(c);
      } else {
        assert b[0].kind == Mention;
        assert MentionChain(c, window);
      }
    }
    if ReviewBlock(c) {
      assert Joins(b, next, window);
    } else if MentionChain(c, window) {
      assert c[|b|].receivedAt - c[|b| - 1].receivedAt <= window || window <= 0;
      assert Joins(b, next, window);
    }
  }

  /** Eligibility is inherited by non-empty prefixes. */
  lemma EligiblePrefix(b: seq<Event>, n: nat, window: int)
    requires Eligible(b, window) && 1 <= n <= |b|
    ensures Eligible(b[..n], window)
  {
    if n > 1 {
      if ReviewBlock(b) { assert ReviewBlock(b[..n]); } else { assert MentionChain(b[..n], window); }
    }
  }

  lemma {:induction false} LengthFromIsLongest(queue: seq<Event>, taken: nat, window: int)
    requires 1 <= taken <= |queue|
    requires Eligible(queue[..taken], window)
    ensures var n := BatchLengthFrom(queue, taken, window);
            && Eligible(queue[..n], window)
            && (forall m | n < m <= |queue| :: !Eligible(queue[..m], window))
    decreases |queue| - taken
  {
    if taken < |queue| {
      EligibleExtends(queue[..taken], queue[taken], window);
      assert queue[..taken] + [queue[taken]] == queue[..taken + 1];
      if Joins(queue[..taken], queue[taken], window) {
        LengthFromIsLongest(queue, taken + 1, window);
      } else {
        forall m | taken < m <= |queue| ensures !Eligible(queue[..m], window) {
          assert queue[..m][..taken + 1] == queue[..taken + 1];
          if Eligible(queue[..m], window) { EligiblePrefix(queue[..m], taken + 1, window); }
        }
      }
    }
  }

  /** A popped batch is the longest eligible prefix of the queue. */
  lemma BatchIsLongestEligiblePrefix(queue: seq<Event>, window: int)
    requires queue != []
    ensures Eligible(queue[..BatchLength(queue, window)], window)
    ensures forall m | BatchLength(queue, window) < m <= |queue| :: !Eligible(queue[..m], window)
  {
    LengthFromIsLongest(queue, 1, window);
  }

  /** The batches that repeated pop and ack take from a queue nobody else touches. */
  function Partition(queue: seq<Event>, window: int): seq<seq<Event>>
    decreases |queue|
  {
    if queue == [] then []
    else
      var n := BatchLength(queue, window);
      [queue[..n]] + Partition(queue[n..], window)
  }

  function Flatten(batches: seq<seq<Event>>): seq<Event> {
    if batches == [] then [] else batches[0] + Flatten(batches[1..])
  }

  /** Nothing is lost, duplicated or reordered by batching. */
  lemma {:induction false} PartitionFlattens(queue: seq<Event>, window: int)
    ensures Flatten(Partition(queue, window)) == queue
    decreases |queue|
  {
    if queue != [] {
      var n := BatchLength(queue, window);
      PartitionFlattens(queue[n..], window);
      assert queue == queue[..n] + queue[n..];
    }
  }

  ghost predicate StartsReview(b: seq<Event>) {
    b != [] && b[0].kind == AutoReview
  }

  /** `next` begins a new batch: `b` could not have taken its first event. */
  ghost predicate Separated(b: seq<Event>, next: seq<Event>, window: int) {
    && b != [] && next != []
    && !Eligible(b + [next[0]], window)
    && !(StartsReview(b) && StartsReview(next))
  }

  ghost predicate Greedy(bs: seq<seq<Event>>, window: int) {
    && (forall i | 0 <= i < |bs| :: Eligible(bs[i], window))
    && (forall i | 1 <= i < |bs| :: Separated(bs[i - 1], bs[i], window))
  }

  /** Every batch is eligible, none could have been longer, and neighbouring
      batches are never both auto reviews: a block is coalesced whole. */
  lemma {:induction false} PartitionIsGreedy(queue: seq<Event>, window: int)
    ensures Greedy(Partition(queue, window), window)
    decreases |queue|
  {
    if queue != [] {
      var n := BatchLength(queue, window);
      var rest := Partition(queue[n..], window);
      PartitionIsGreedy(queue[n..], window);
      BatchIsLongestEligiblePrefix(queue, window);
      if n < |queue| {
        assert rest[0][0] == queue[n];
        assert queue[..n] + [queue[n]] == queue[..n + 1];
        assert Separated(queue[..n], rest[0], window);
      }
    }
  }
}
