/**
  The rate-limited work queue of client-go, by its documented behaviour: a key that is added while it
  is processed is processed again afterwards, and a key waiting out its back-off is added when that ends.
 */
module WorkQueue {

  /** keys: in line; dirty: wants processing; processing: handed out; waiting: backing off. */
  datatype QueueState = QueueState(keys: seq<string>, dirty: set<string>, processing: set<string>, waiting: set<string>)

  const EMPTY := QueueState([], {}, {}, {})

  function Added(q: QueueState, k: string): QueueState {
    if k in q.dirty then q
    else if k in q.processing then q.(dirty := q.dirty + {k})
    else q.(dirty := q.dirty + {k}, keys := q.keys + [k])
  }

  function Taken(q: QueueState): QueueState
    requires q.keys != []
  {
    var k := q.keys[0];
    q.(keys := q.keys[1..], processing := q.processing + {k}, dirty := q.dirty - {k})
  }

  function Finished(q: QueueState, k: string): QueueState {
    var p := q.(processing := q.processing - {k});
    if k in q.dirty then p.(keys := q.keys + [k]) else p
  }

  function BackedOff(q: QueueState, k: string): QueueState {
    q.(waiting := q.waiting + {k})
  }

  function Released(q: QueueState, k: string): QueueState {
    Added(q.(waiting := q.waiting - {k}), k)
  }

  /** In line is exactly what is dirty and not being processed, each key once. */
  ghost predicate Valid(q: QueueState) {
    && (forall k :: k in q.keys <==> k in q.dirty && k !in q.processing)
    && (forall i, j :: 0 <= i < j < |q.keys| ==> q.keys[i] != q.keys[j])
  }

  lemma AddedValid(q: QueueState, k: string)
    requires Valid(q)
    ensures Valid(Added(q, k)) && Added(q, k).dirty == q.dirty + {k}
  {
  }

  lemma TakenValid(q: QueueState)
    requires Valid(q) && q.keys != []
    ensures Valid(Taken(q)) && q.keys[0] in q.dirty && q.keys[0] !in q.processing
  {
  }

  /** A finished key is back in line exactly if it was added meanwhile. */
  lemma FinishedValid(q: QueueState, k: string)
    requires Valid(q) && k in q.processing
    ensures Valid(Finished(q, k))
    ensures k in Finished(q, k).keys <==> k in q.dirty
  {
  }

  class RateLimitingQueue {
    var keys: seq<string>
    var dirty: set<string>
    var processing: set<string>
    var waiting: set<string>

    ghost function State(): QueueState
      reads this
    {
      QueueState(keys, dirty, processing, waiting)
    }

    constructor ()
      ensures State() == EMPTY
    {
      keys, dirty, processing, waiting := [], {}, {}, {};
    }

    method Add(k: string)
      modifies this
      ensures State() == Added(old(State()), k)
    {
      if k in dirty {
        return;
      }
      dirty := dirty + {k};
      if k in processing {
        return;
      }
      keys := keys + [k];
    }

    method Get() returns (k: string)
      requires keys != []
      modifies this
      ensures k == old(keys)[0] && State() == Taken(old(State()))
    {
      k := keys[0];
      keys := keys[1..];
      processing := processing + {k};
      dirty := dirty - {k};
    }

    method Done(k: string)
      modifies this
      ensures State() == Finished(old(State()), k)
    {
      processing := processing - {k};
      if k in dirty {
        keys := keys + [k];
      }
    }

    method AddRateLimited(k: string)
      modifies this
      ensures State() == BackedOff(old(State()), k)
    {
      waiting := waiting + {k};
    }

    method Release(k: string)
      modifies this
      ensures State() == Released(old(State()), k)
    {
      waiting := waiting - {k};
      Add(k);
    }
  }
}
