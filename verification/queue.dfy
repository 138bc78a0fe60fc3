/** The lookahead-1 cursor of `useQueue`: a queue of items and the offset
    `current` of the next item to hand out. The closure's two mutable
    variables become the two fields of an immutable record, and every
    operation that changes them returns the new record. */
module Queue {
  import opened Results

  datatype QueueError = UnexpectedEndOfInput

  datatype Cursor<T> = Cursor(queue: seq<T>, current: nat) {

    /** The invariant every operation keeps: the offset never passes the end. */
    predicate Valid() {
      current <= |queue|
    }

    /** `hasMore`: some item is left to hand out. */
    function HasMore(): (b: bool)
      ensures b <==> current < |queue|
      ensures b ==> Valid()
    {
      current < |queue|
    }

    /** `position`: the zero-based offset; reading it changes nothing. */
    function Position(): (p: nat)
      ensures Valid() ==> p <= |queue|
      ensures p < |queue| <==> HasMore()
    {
      current
    }
  }

  /** What `advance` hands back: the item and the cursor after it. */
  datatype Advanced<T> = Advanced(item: T, next: Cursor<T>)

  /** `useQueue(queue)`: a cursor at the start of `q`. */
  function UseQueue<T>(q: seq<T>): (c: Cursor<T>)
    ensures c.Valid()
    ensures c.queue == q && c.Position() == 0
    ensures c.HasMore() <==> |q| > 0
  {
    Cursor(q, 0)
  }

  /** `advance`: hands out the current item and moves one step forward;
      fails when nothing is left. */
  function Advance<T>(c: Cursor<T>): (r: Result<Advanced<T>, QueueError>)
    ensures r.Err? <==> c.current >= |c.queue|
    ensures r.Err? ==> r.error == UnexpectedEndOfInput
    ensures r.Ok? ==> r.value.item == c.queue[c.current]
    ensures r.Ok? ==> r.value.next.queue == c.queue
    ensures r.Ok? ==> r.value.next.Position() == c.Position() + 1
    ensures r.Ok? ==> r.value.next.Valid()
  {
    if c.current >= |c.queue| then Err(UnexpectedEndOfInput)
    else Ok(Advanced(c.queue[c.current], c.(current := c.current + 1)))
  }

  /** `peek`: the current item without moving; fails when nothing is left. */
  function Peek<T>(c: Cursor<T>): (r: Result<T, QueueError>)
    ensures r.Err? <==> !c.HasMore()
    ensures r.Ok? ==> r.value == c.queue[c.current]
  {
    if c.current >= |c.queue| then Err(UnexpectedEndOfInput)
    else Ok(c.queue[c.current])
  }

  /** `reset`: forgets the queue and returns to offset zero. */
  function Reset<T>(c: Cursor<T>): (r: Cursor<T>)
    ensures r.Valid() && r.Position() == 0
    ensures r.queue == []
    ensures !r.HasMore()
  {
    Cursor([], 0)
  }

  /** `peek` names the item the next `advance` returns, and moves nothing. */
  lemma PeekAgreesWithAdvance<T>(c: Cursor<T>)
    ensures Peek(c).Ok? <==> Advance(c).Ok?
    ensures Peek(c).Ok? ==> Peek(c).value == Advance(c).value.item
    ensures Peek(c).Err? ==> Peek(c).error == Advance(c).error
  {
  }

  /** Every operation keeps `0 <= current <= queue.length`. */
  lemma OperationsKeepInvariant<T>(c: Cursor<T>)
    requires c.Valid()
    ensures Advance(c).Ok? ==> Advance(c).value.next.Valid()
    ensures Reset(c).Valid()
    ensures UseQueue(c.queue).Valid()
  {
  }

  /** After `reset` nothing is left: `hasMore` is false and both reads fail. */
  lemma ResetEmpties<T>(c: Cursor<T>)
    ensures !Reset(c).HasMore()
    ensures Advance(Reset(c)) == Err(UnexpectedEndOfInput)
    ensures Peek(Reset(c)) == Err(UnexpectedEndOfInput)
  {
  }

  /** Calling `advance` while `hasMore` holds hands out exactly the items not
      yet consumed, in order, and leaves the cursor at the end. */
  method Drain<T>(c: Cursor<T>) returns (items: seq<T>, last: Cursor<T>)
    requires c.Valid()
    ensures items == c.queue[c.current..]
    ensures last.queue == c.queue && !last.HasMore() && last.Valid()
    ensures last.Position() == |c.queue|
  {
    items := [];
    last := c;
    while last.HasMore()
      invariant last.queue == c.queue && last.Valid()
      invariant c.current <= last.current
      invariant items == c.queue[c.current..last.current]
      decreases |last.queue| - last.current
    {
      var step := Advance(last);
      SliceExtend(c.queue, c.current, last.current);
      items := items + [step.value.item];
      last := step.value.next;
    }
  }

  lemma SliceExtend<T>(s: seq<T>, i: nat, j: nat)
    requires i <= j < |s|
    ensures s[i..j + 1] == s[i..j] + [s[j]]
  {
  }
}
