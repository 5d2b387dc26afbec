/** The fields of engine/src/rpc/dispatcher.cpp guarded by its in-flight
    mutex, and each locked section as a function of their value. */
module RpcRegistry {

  // Arrival number of a queued payload. One routed as it arrives comes after
  // every cancel already received.
  datatype Arrival = OnArrival | Numbered(n: nat)

  // An in-flight request: the message that holds the id, and its token.
  datatype Entry = Entry(holder: nat, cancelled: bool)

  // A remembered cancel: the latest payload queued when it came, and the
  // cancel message itself.
  datatype Early = Early(upTo: nat, cancel: nat)

  datatype Registry = Registry(inflight: map<int, Entry>, queuedRoutes: nat, lastQueued: nat, early: map<int, Early>)

  const MAX_EARLY_CANCELLED := 1024

  const EMPTY := Registry(map[], 0, 0, map[])

  function QueueRoute(r: Registry): Registry {
    r.(queuedRoutes := r.queuedRoutes + 1, lastQueued := r.lastQueued + 1)
  }

  function FinishRoute(r: Registry): Registry
    requires r.queuedRoutes > 0
  {
    if r.queuedRoutes > 1 then r.(queuedRoutes := r.queuedRoutes - 1)
    else r.(queuedRoutes := 0, early := map[])
  }

  // Whether a remembered cancel is for a request that arrived so.
  predicate AppliesTo(early: Early, arrival: Arrival) {
    arrival.Numbered? && arrival.n <= early.upTo
  }

  function RegisterId(r: Registry, id: int, holder: nat, arrival: Arrival): Registry {
    if id in r.inflight then r
    else if id in r.early then
      r.(inflight := r.inflight[id := Entry(holder, AppliesTo(r.early[id], arrival))], early := r.early - {id})
    else r.(inflight := r.inflight[id := Entry(holder, false)])
  }

  // Whether a cancel for an id not in flight is remembered.
  predicate Remembers(r: Registry, id: int, arrival: Arrival) {
    id !in r.inflight && arrival == OnArrival && r.queuedRoutes > 0
    && (|r.early| < MAX_EARLY_CANCELLED || id in r.early)
  }

  function CancelId(r: Registry, id: int, arrival: Arrival, c: nat): Registry {
    if id in r.inflight then r.(inflight := r.inflight[id := r.inflight[id].(cancelled := true)])
    else if Remembers(r, id, arrival) then r.(early := r.early[id := Early(r.lastQueued, c)])
    else r
  }

  function EraseId(r: Registry, id: int): Registry {
    r.(inflight := r.inflight - {id})
  }

  // The mutex-guarded fields, updated in place.
  class InflightTable {
    var inflight: map<int, Entry>
    var queuedRoutes: nat
    var lastQueued: nat
    var early: map<int, Early>

    ghost function Value(): Registry
      reads this
    {
      Registry(inflight, queuedRoutes, lastQueued, early)
    }

    constructor ()
      ensures Value() == EMPTY
    {
      inflight, queuedRoutes, lastQueued, early := map[], 0, 0, map[];
    }

    method Queue() returns (arrival: nat)
      modifies this
      ensures Value() == QueueRoute(old(Value()))
      // A number above every one given before, and nothing is forgotten.
      ensures arrival == lastQueued > old(lastQueued) && queuedRoutes > 0
      ensures inflight == old(inflight) && early == old(early)
    {
      queuedRoutes := queuedRoutes + 1;
      lastQueued := lastQueued + 1;
      arrival := lastQueued;
    }

    // Once nothing is queued, no remembered cancel can apply any more.
    method Finish()
      requires queuedRoutes > 0
      modifies this
      ensures Value() == FinishRoute(old(Value()))
      ensures queuedRoutes == 0 ==> early == map[]
    {
      queuedRoutes := queuedRoutes - 1;
      if queuedRoutes > 0 { return; }
      early := map[];
    }

    method Register(id: int, holder: nat, arrival: Arrival) returns (inUse: bool)
      modifies this
      ensures inUse == (id in old(inflight))
      ensures Value() == RegisterId(old(Value()), id, holder, arrival)
    {
      inUse := false;
      if id in inflight {
        inUse := true;
      } else {
        inflight := inflight[id := Entry(holder, false)];
        if id in early {
          if AppliesTo(early[id], arrival) {
            inflight := inflight[id := Entry(holder, true)];
          }
          early := early - {id};
        }
      }
    }

    method Cancel(id: int, arrival: Arrival, c: nat)
      modifies this
      ensures Value() == CancelId(old(Value()), id, arrival, c)
    {
      if id in inflight {
        inflight := inflight[id := inflight[id].(cancelled := true)];
        return;
      }
      if arrival != OnArrival || queuedRoutes == 0 { return; }
      if |early| < MAX_EARLY_CANCELLED || id in early {
        early := early[id := Early(lastQueued, c)];
      }
    }

    method Erase(id: int)
      modifies this
      ensures Value() == EraseId(old(Value()), id)
      // The id is free again, every other id's entry as it was.
      ensures id !in inflight
      ensures forall other :: other != id ==>
        (other in inflight <==> other in old(inflight)) && (other in inflight ==> inflight[other] == old(inflight)[other])
      ensures queuedRoutes == old(queuedRoutes) && lastQueued == old(lastQueued) && early == old(early)
    {
      inflight := inflight - {id};
    }
  }
}
