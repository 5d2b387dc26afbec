/** The strand of engine/src/util/strand.h: its two locked sections, on the
    fields and as functions of their value. */
module TaskStrand {
  import opened Wrappers

  datatype Lane = Lane(queue: seq<nat>, draining: bool)

  const IDLE := Lane([], false)

  // The posting side: a drain job is needed only when none is under way.
  function Pushed(lane: Lane, task: nat): Lane {
    Lane(lane.queue + [task], true)
  }

  function NeedsDrain(lane: Lane): bool { !lane.draining }

  // The draining side: the next task, or the end of the job.
  function NextTask(lane: Lane): Option<nat> {
    if lane.queue == [] then None else Some(lane.queue[0])
  }

  function Taken(lane: Lane): Lane {
    if lane.queue == [] then lane.(draining := false) else lane.(queue := lane.queue[1..])
  }

  class Strand {
    var queue: seq<nat>
    var draining: bool

    ghost function Value(): Lane
      reads this
    {
      Lane(queue, draining)
    }

    constructor ()
      ensures Value() == IDLE
    {
      queue, draining := [], false;
    }

    // True when the caller has to post a drain job.
    method Post(task: nat) returns (drain: bool)
      modifies this
      ensures Value() == Pushed(old(Value()), task) && drain == NeedsDrain(old(Value()))
      // Last in line, and a drain is under way or to be posted.
      ensures old(queue) < queue && queue[|queue| - 1] == task && draining && (old(draining) || drain)
    {
      queue := queue + [task];
      if draining { return false; }
      draining := true;
      return true;
    }

    // One turn of the drain loop.
    method Next() returns (task: Option<nat>)
      modifies this
      ensures task == NextTask(old(Value())) && Value() == Taken(old(Value()))
      // Nothing is lost: the drain ends only with nothing queued.
      ensures old(queue) == (if task.Some? then [task.value] else []) + queue
      ensures task.None? ==> queue == [] && !draining
      ensures task.Some? ==> draining == old(draining)
    {
      if |queue| == 0 {
        draining := false;
        return None;
      }
      task := Some(queue[0]);
      queue := queue[1..];
    }
  }
}
