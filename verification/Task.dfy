/** The window of a block download: heights are reported in any order, `start` is the least
    height still missing, and the callback runs when none is.  A timeout or a cancellation
    ends the task early. */
module Tasks {

  datatype TaskError = Success | AlreadyRunning | NotRunning | StartBigThanEnd

  /** The least height of first..end that has not been reported, or end + 1. */
  function LeastMissing(first: int, end: int, reported: set<int>): (m: int)
    requires first <= end + 1
    ensures first <= m <= end + 1
    ensures forall h :: first <= h < m ==> h in reported
    ensures m <= end ==> m !in reported
    decreases end + 1 - first
  {
    if first > end || first !in reported then first else LeastMissing(first + 1, end, reported)
  }

  /** These properties determine it, so it does not depend on the order of the reports. */
  lemma {:induction false} LeastMissingUnique(first: int, end: int, reported: set<int>, m: int)
    requires first <= m <= end + 1
    requires forall h :: first <= h < m ==> h in reported
    requires m <= end ==> m !in reported
    ensures LeastMissing(first, end, reported) == m
    decreases end + 1 - first
  {
    if first < m { LeastMissingUnique(first + 1, end, reported, m); }
  }

  /** The whole range has been reported exactly if nothing is missing. */
  lemma CoveredExactly(first: int, end: int, reported: set<int>)
    requires first <= end + 1
    ensures LeastMissing(first, end, reported) == end + 1 <==> forall h :: first <= h <= end ==> h in reported
  {
    if forall h :: first <= h <= end ==> h in reported { LeastMissingUnique(first, end, reported, end + 1); }
  }

  class Task {
    var start: int
    var end: int
    var isruning: bool
    var donelist: set<int>
    var hasCb: bool
    var hasTimeoutCb: bool
    var callbacks: nat               // how often this task's callback was run
    var timeouts: seq<int>           // the heights given to the timeout callback
    ghost var first: int             // the start the task was begun with
    ghost var reported: set<int>     // heights reported while it was running

    ghost predicate Valid()
      reads this
    {
      && first <= end + 1
      && start == LeastMissing(first, end, reported)
      && (isruning ==> start <= end && (forall h :: start <= h <= end ==> (h in donelist <==> h in reported)))
      && callbacks == (if hasCb && start == end + 1 && first <= end then 1 else 0)
    }

    constructor ()
      ensures Valid() && !isruning
    {
      start, end, isruning, donelist, hasCb, hasTimeoutCb, callbacks, timeouts := 0, -1, false, {}, false, false, 0, [];
      first, reported := 0, {};
    }

    method Start(start: int, end: int, cb: bool, timeoutcb: bool) returns (err: TaskError)
      requires Valid()
      modifies this
      ensures Valid()
      ensures err == if old(isruning) then AlreadyRunning else if start > end then StartBigThanEnd else Success
      ensures err != Success ==> unchanged(this)
      ensures err == Success ==> isruning && this.start == first == start && this.end == end && reported == {}
                                 && hasCb == cb && hasTimeoutCb == timeoutcb && timeouts == []
    {
      if isruning {
        return AlreadyRunning;
      }
      if start > end {
        return StartBigThanEnd;
      }
      isruning := true;
      this.start, this.end := start, end;
      hasCb, hasTimeoutCb := cb, timeoutcb;
      donelist := {};
      callbacks, timeouts, first, reported := 0, [], start, {};
      return Success;
    }

    /** Report `height`: whatever came before, `start` becomes the least height of the range that
        is not yet reported, and the task ends with its callback when there is none. */
    method Done(height: int)
      requires Valid()
      modifies this
      ensures Valid() && first == old(first) && end == old(end) && timeouts == old(timeouts)
      ensures hasCb == old(hasCb) && hasTimeoutCb == old(hasTimeoutCb)
      ensures !old(isruning) ==> unchanged(this)
      ensures old(isruning) ==>
                && reported == old(reported) + {height}
                && start == LeastMissing(first, end, reported)
                && (isruning <==> start <= end)
                && callbacks == if !isruning && hasCb then 1 else 0
    {
      if !isruning {
        return;
      }
      reported := reported + {height};
      if start <= height <= end {
        Advance(height);
      } else {
        LeastMissingUnique(first, end, reported, start);
      }
    }

    method Advance(height: int)
      requires isruning && first <= start <= height <= end && callbacks == 0
      requires forall h :: first <= h < start ==> h in reported
      requires height in reported && (height != start ==> start !in reported)
      requires forall h :: start <= h <= end && h != height ==> (h in donelist <==> h in reported)
      modifies `start, `isruning, `callbacks, `donelist
      ensures Valid() && (isruning <==> start <= end)
    {
      if height == start {
        start := start + 1;
        var i := start;
        while i <= end
          invariant i == start && first < start <= end + 1 && isruning && callbacks == 0
          invariant forall h :: first <= h < start ==> h in reported
          invariant forall h :: start <= h <= end ==> (h in donelist <==> h in reported)
        {
          if i !in donelist {
            break;
          }
          donelist := donelist - {i};
          start := i + 1;
          i := i + 1;
        }
        if start > end {
          var _ := Stop(true);
        }
      }
      LeastMissingUnique(first, end, reported, start);
      donelist := donelist + {height};
    }

    method Stop(runcb: bool) returns (err: TaskError)
      modifies `isruning, `callbacks
      ensures err == if old(isruning) then Success else NotRunning
      ensures !isruning && callbacks == old(callbacks) + if old(isruning) && hasCb && runcb then 1 else 0
    {
      if !isruning {
        return NotRunning;
      }
      isruning := false;
      if hasCb && runcb {
        callbacks := callbacks + 1;
      }
      return Success;
    }

    /** Ends a running task without its callback. */
    method Cancel() returns (err: TaskError)
      requires Valid()
      modifies `isruning, `callbacks
      ensures Valid() && !isruning && callbacks == old(callbacks)
      ensures err == if old(isruning) then Success else NotRunning
    {
      err := Stop(false);
    }

    /** The timer fires: a running task ends and the least missing height is reported, once. */
    method Timeout()
      requires Valid()
      modifies `isruning, `callbacks, `timeouts
      ensures Valid() && !isruning && callbacks == old(callbacks)
      ensures timeouts ==
              old(timeouts) + if old(isruning) && hasTimeoutCb then [LeastMissing(first, end, reported)] else []
      ensures old(isruning) ==> first <= LeastMissing(first, end, reported) <= end
    {
      var err := Stop(false);
      if err == Success {
        if hasTimeoutCb {
          timeouts := timeouts + [start];
        }
      }
    }
  }
}
