/** What the dropping queue preserves, over every run of puts and gets. */
module QueueHistory {
  import opened Protocol
  import opened MediaData

  /** A queue with its history: frames are named by their position in `puts`. */
  datatype Queue = Queue(list: seq<Packet>, puts: seq<Packet>, handed: seq<nat>, dropped: seq<nat>)

  const EMPTY := Queue([], [], [], [])

  /** How many frames have left the queue. */
  function Gone(q: Queue): int { |q.puts| - |q.list| }

  function Range(from: nat, n: nat): (r: seq<nat>)
    ensures |r| == n && forall i :: 0 <= i < n ==> r[i] == from + i
  {
    seq(n, i requires 0 <= i < n => from + i)
  }

  function Put(q: Queue, p: Packet): Queue {
    q.(list := q.list + [p], puts := q.puts + [p])
  }

  /** getData on a queue that is not empty: drain, then take the front. */
  function Take(q: Queue): Queue
    requires q.list != [] && Gone(q) >= 0
  {
    var k := Lag(q.list);
    Queue(Drained(q.list)[1..], q.puts, q.handed + [Gone(q) + k], q.dropped + Range(Gone(q), k))
  }

  /** getData after a wait: take the front without draining. */
  function TakeWoken(q: Queue): Queue
    requires q.list != [] && Gone(q) >= 0
  {
    Queue(q.list[1..], q.puts, q.handed + [Gone(q)], q.dropped)
  }

  /** The frames still queued are the last ones put, in order. */
  ghost predicate Contiguous(q: Queue) {
    Gone(q) >= 0 && q.list == q.puts[Gone(q)..]
  }

  /** Every frame that left was either handed out or dropped, and only non-key frames were dropped. */
  ghost predicate Conserved(q: Queue) {
    && Gone(q) == |q.handed| + |q.dropped|
    && (forall i :: 0 <= i < Gone(q) ==> (i in q.handed <==> i !in q.dropped))
    && (forall d :: d in q.dropped ==> d < Gone(q) && d < |q.puts| && !IsKey(q.puts[d]))
  }

  /** Frames are handed out in order; each is the very next one or a key frame. */
  ghost predicate Ordered(q: Queue) {
    && (forall j :: 0 <= j < |q.handed| ==> q.handed[j] < Gone(q) && q.handed[j] < |q.puts|)
    && (forall j :: 0 < j < |q.handed| ==> q.handed[j - 1] < q.handed[j])
    && (q.handed != [] ==> q.handed[0] == 0 || IsKey(q.puts[q.handed[0]]))
    && (forall j :: 0 < j < |q.handed| ==> q.handed[j] == q.handed[j - 1] + 1 || IsKey(q.puts[q.handed[j]]))
    && (if Gone(q) == 0 then q.handed == [] else q.handed != [] && q.handed[|q.handed| - 1] == Gone(q) - 1)
  }

  ghost predicate Safe(q: Queue) {
    Contiguous(q) && Conserved(q) && Ordered(q)
  }

  lemma PutIsSafe(q: Queue, p: Packet)
    requires Safe(q)
    ensures Safe(Put(q, p)) && Gone(Put(q, p)) == Gone(q)
  {
    var t := Put(q, p);
    assert t.list == t.puts[Gone(t)..];
  }

  /** Frame Gone(q) + k is handed out after the k non-key frames before it are dropped. */
  function TakeAt(q: Queue, k: nat): Queue
    requires Gone(q) >= 0 && k < |q.list|
  {
    Queue(q.list[k + 1..], q.puts, q.handed + [Gone(q) + k], q.dropped + Range(Gone(q), k))
  }

  ghost predicate MayTakeAt(q: Queue, k: nat) {
    && k < |q.list|
    && (forall i :: 0 <= i < k ==> !IsKey(q.list[i]))
    && (k > 0 ==> IsKey(q.list[k]))
  }

  lemma TakeAtIsContiguous(q: Queue, k: nat)
    requires Contiguous(q) && k < |q.list|
    ensures Contiguous(TakeAt(q, k)) && Gone(TakeAt(q, k)) == Gone(q) + k + 1
  {
    var t := TakeAt(q, k);
    assert t.list == t.puts[Gone(q) + k + 1..];
  }

  lemma InRange(from: nat, n: nat, i: nat)
    ensures i in Range(from, n) <==> from <= i < from + n
  {
    if from <= i < from + n {
      assert Range(from, n)[i - from] == i;
    }
  }

  lemma TakeAtIsConserved(q: Queue, k: nat)
    requires Contiguous(q) && Conserved(q) && MayTakeAt(q, k)
    requires forall j :: j in q.handed ==> j < Gone(q)
    ensures Conserved(TakeAt(q, k))
  {
    var t, g := TakeAt(q, k), Gone(q);
    TakeAtIsContiguous(q, k);
    forall i: nat
      ensures i in t.dropped <==> i in q.dropped || g <= i < g + k
      ensures i in t.handed <==> i in q.handed || i == g + k
    {
      InRange(g, k, i);
    }
    assert forall i :: 0 <= i < g ==> (i in q.handed <==> i !in q.dropped);
    forall d | d in t.dropped
      ensures d < Gone(t) && d < |t.puts| && !IsKey(t.puts[d])
    {
      if d !in q.dropped {
        assert t.puts[d] == q.list[d - g];
      }
    }
  }

  lemma TakeAtIsOrdered(q: Queue, k: nat)
    requires Contiguous(q) && Ordered(q) && MayTakeAt(q, k)
    ensures Ordered(TakeAt(q, k))
  {
    var t := TakeAt(q, k);
    TakeAtIsContiguous(q, k);
    assert forall j :: 0 <= j < |q.handed| ==> t.handed[j] == q.handed[j];
    assert k > 0 ==> IsKey(t.puts[Gone(q) + k]);
  }

  lemma TakeIsTakeAt(q: Queue)
    requires q.list != [] && Gone(q) >= 0
    ensures MayTakeAt(q, Lag(q.list)) && Take(q) == TakeAt(q, Lag(q.list))
    ensures MayTakeAt(q, 0) && TakeWoken(q) == TakeAt(q, 0)
  {
    assert Drained(q.list)[1..] == q.list[Lag(q.list) + 1..];
    assert q.dropped + Range(Gone(q), 0) == q.dropped;
  }

  lemma TakeIsSafe(q: Queue)
    requires Safe(q) && q.list != []
    ensures Safe(Take(q))
  {
    var k := Lag(q.list);
    TakeIsTakeAt(q);
    TakeAtIsContiguous(q, k);
    TakeAtIsConserved(q, k);
    TakeAtIsOrdered(q, k);
  }

  lemma TakeWokenIsSafe(q: Queue)
    requires Safe(q) && q.list != []
    ensures Safe(TakeWoken(q))
  {
    TakeIsTakeAt(q);
    TakeAtIsContiguous(q, 0);
    TakeAtIsConserved(q, 0);
    TakeAtIsOrdered(q, 0);
  }

  // ----- Whole runs

  datatype Op = DoPut(packet: Packet) | DoTake | DoTakeWoken

  /** A take on an empty queue waits instead. */
  function Apply(q: Queue, op: Op): Queue {
    match op
    case DoPut(p) => Put(q, p)
    case DoTake => if q.list != [] && Gone(q) >= 0 then Take(q) else q
    case DoTakeWoken => if q.list != [] && Gone(q) >= 0 then TakeWoken(q) else q
  }

  function Run(q: Queue, ops: seq<Op>): Queue
    decreases |ops|
  {
    if ops == [] then q else Run(Apply(q, ops[0]), ops[1..])
  }

  lemma {:induction false} RunIsSafe(q: Queue, ops: seq<Op>)
    requires Safe(q)
    ensures Safe(Run(q, ops))
    decreases |ops|
  {
    if ops != [] {
      match ops[0] {
        case DoPut(p) => PutIsSafe(q, p);
        case DoTake => if q.list != [] { TakeIsSafe(q); }
        case DoTakeWoken => if q.list != [] { TakeWokenIsSafe(q); }
      }
      RunIsSafe(Apply(q, ops[0]), ops[1..]);
    }
  }

  /** Over every run from the empty queue: frames put are frames handed out, dropped and still
      queued; no key frame is dropped; and a frame handed out is the first one ever put, the one put
      right after the previous one handed out, or a key frame. */
  lemma QueueSafety(ops: seq<Op>)
    ensures var q := Run(EMPTY, ops);
            && |q.puts| == |q.handed| + |q.dropped| + |q.list|
            && q.list == q.puts[|q.handed| + |q.dropped|..]
            && (forall d :: d in q.dropped ==> d < |q.puts| && d !in q.handed && !IsKey(q.puts[d]))
            && (forall j :: 0 <= j < |q.handed| ==> q.handed[j] < |q.puts|)
            && (forall j :: 0 <= j < |q.handed| ==>
                  || IsKey(q.puts[q.handed[j]])
                  || q.handed[j] == if j == 0 then 0 else q.handed[j - 1] + 1)
            && (forall i, j :: 0 <= i < j < |q.handed| ==> q.handed[i] < q.handed[j])
  {
    RunIsSafe(EMPTY, ops);
    Increasing(Run(EMPTY, ops));
  }

  lemma {:induction false} IncreasingTo(q: Queue, i: nat, j: nat)
    requires Ordered(q) && i < j < |q.handed|
    ensures q.handed[i] < q.handed[j]
    decreases j
  {
    if i < j - 1 {
      IncreasingTo(q, i, j - 1);
    }
  }

  lemma Increasing(q: Queue)
    requires Ordered(q)
    ensures forall i, j :: 0 <= i < j < |q.handed| ==> q.handed[i] < q.handed[j]
  {
    forall i, j | 0 <= i < j < |q.handed|
      ensures q.handed[i] < q.handed[j]
    {
      IncreasingTo(q, i, j);
    }
  }
}
