/** Delivery of the sequence log to a subscriber of blocks or headers.  Every event of the task's
    loop is one method; the outcome of a post and of loading a block are parameters. */
module Pushes {
  import opened Blocks
  import S = BlockStores

  const PUSH_BLOCK_MAX_SEQ := 10
  const PUSH_MAX_SIZE := 1048576
  const MAX_FAILURES := 3

  /** One element of a post: a sequence number with its log entry. */
  datatype BlockSeq = BlockSeq(num: int, entry: S.Entry)

  /** Loading what an entry refers to: its size, or an error. */
  type Loader = S.Entry -> Option<nat>

  function SizeOf(load: Loader, e: S.Entry): nat {
    match load(e)
    case Some(n) => n
    case None => 0
  }

  function TotalSize(load: Loader, seqs: seq<BlockSeq>): nat {
    if seqs == [] then 0 else TotalSize(load, seqs[..|seqs| - 1]) + SizeOf(load, seqs[|seqs| - 1].entry)
  }

  /** `seqs` are the log entries numbered from `start` on. */
  ghost predicate Consecutive(log: map<int, S.Entry>, start: int, seqs: seq<BlockSeq>) {
    forall k :: 0 <= k < |seqs| ==> seqs[k].num == start + k && seqs[k].num in log && seqs[k].entry == log[seqs[k].num]
  }

  /** Whether a batch with these elements takes `e` as well. */
  predicate Fits(load: Loader, seqs: seq<BlockSeq>, e: S.Entry, maxSize: int) {
    TotalSize(load, seqs) == 0 || TotalSize(load, seqs) + SizeOf(load, e) < maxSize
  }

  ghost predicate AllFit(load: Loader, seqs: seq<BlockSeq>, maxSize: int) {
    forall k :: 0 <= k < |seqs| ==> Fits(load, seqs[..k], seqs[k].entry, maxSize)
  }

  lemma AllFitPush(load: Loader, seqs: seq<BlockSeq>, maxSize: int, x: BlockSeq)
    requires AllFit(load, seqs, maxSize) && Fits(load, seqs, x.entry, maxSize)
    ensures AllFit(load, seqs + [x], maxSize)
    ensures TotalSize(load, seqs + [x]) == TotalSize(load, seqs) + SizeOf(load, x.entry)
  {
    assert (seqs + [x])[..|seqs|] == seqs;
    forall k | 0 <= k < |seqs| + 1
      ensures Fits(load, (seqs + [x])[..k], (seqs + [x])[k].entry, maxSize)
    {
      if k < |seqs| { assert (seqs + [x])[..k] == seqs[..k]; }
    }
  }

  /** A batch was filled greedily: each element fitted, and it ends only at `count` elements or
      at one that does not fit. */
  ghost predicate Greedy(load: Loader, log: map<int, S.Entry>, start: int, count: int, maxSize: int,
                         seqs: seq<BlockSeq>) {
    && 1 <= |seqs| <= count
    && AllFit(load, seqs, maxSize)
    && (|seqs| < count ==> start + |seqs| in log && !Fits(load, seqs, log[start + |seqs|], maxSize))
  }

  ghost predicate Unreadable(log: map<int, S.Entry>, load: Loader, n: int) {
    n !in log || load(log[n]).None?
  }

  /** How many numbers the next batch may have. */
  function BatchCount(lastSeq: int, last: int): int {
    if PUSH_BLOCK_MAX_SEQ > lastSeq - last then lastSeq - last else PUSH_BLOCK_MAX_SEQ
  }

  /** `p` is the batch after `last`. */
  ghost predicate NextBatch(db: S.Db, load: Loader, last: int, p: seq<BlockSeq>) {
    && p != [] && |p| <= BatchCount(db.lastSeq, last)
    && Consecutive(db.seqs, last + 1, p)
    && Greedy(load, db.seqs, last + 1, BatchCount(db.lastSeq, last), PUSH_MAX_SIZE, p)
  }

  /** The batch that starts at `start`, with the number of its last element. */
  method GetSeqs(log: map<int, S.Entry>, load: Loader, start: int, seqCount: int, maxSize: int)
    returns (err: bool, seqs: seq<BlockSeq>, updateSeq: int)
    requires seqCount >= 1
    ensures !err ==> Consecutive(log, start, seqs) && Greedy(load, log, start, seqCount, maxSize, seqs)
    ensures !err ==> 1 <= |seqs| <= seqCount && updateSeq == start + |seqs| - 1
    ensures !err ==> forall k :: 0 <= k < |seqs| ==> load(seqs[k].entry).Some?
    ensures err ==> updateSeq == -1 && seqs == []
    ensures err <==> Blocked(log, load, start, seqCount, maxSize)
  {
    hide Batch, TotalSize, Consecutive, Greedy, Unreadable, Blocked;
    seqs := [];
    EmptyBatch(log, load, start, maxSize);
    var totalSize := 0;
    var i := 0;
    while i < seqCount
      invariant i == |seqs| <= seqCount && Batch(log, load, start, maxSize, seqs) && totalSize == TotalSize(load, seqs)
    {
      if start + i !in log || load(log[start + i]).None? {
        Stuck(log, load, start, seqCount, maxSize, seqs);
        return true, [], -1;
      }
      var e := log[start + i];
      var size := load(e).value;
      if totalSize == 0 || totalSize + size < maxSize {
        BatchPush(log, load, start, maxSize, seqs);
        seqs := seqs + [BlockSeq(start + i, e)];
        totalSize := totalSize + size;
      } else {
        break;
      }
      i := i + 1;
    }
    BatchEnd(log, load, start, seqCount, maxSize, seqs);
    NotStuck(log, load, start, seqCount, maxSize, seqs);
    return false, seqs, seqs[0].num + |seqs| - 1;
  }

  /** Every element so far is the next log entry, can be loaded and fitted. */
  ghost predicate Batch(log: map<int, S.Entry>, load: Loader, start: int, maxSize: int, seqs: seq<BlockSeq>) {
    && Consecutive(log, start, seqs) && AllFit(load, seqs, maxSize)
    && (forall k :: 0 <= k < |seqs| ==> load(seqs[k].entry).Some?)
  }

  lemma EmptyBatch(log: map<int, S.Entry>, load: Loader, start: int, maxSize: int)
    ensures Batch(log, load, start, maxSize, []) && TotalSize(load, []) == 0
  {
  }

  /** Filling a batch meets an entry that cannot be read before it is full. */
  ghost predicate Blocked(log: map<int, S.Entry>, load: Loader, start: int, count: int, maxSize: int) {
    exists seqs: seq<BlockSeq> ::
      |seqs| < count && Batch(log, load, start, maxSize, seqs) && Unreadable(log, load, start + |seqs|)
  }

  lemma Stuck(log: map<int, S.Entry>, load: Loader, start: int, count: int, maxSize: int, seqs: seq<BlockSeq>)
    requires Batch(log, load, start, maxSize, seqs) && |seqs| < count
    requires start + |seqs| !in log || load(log[start + |seqs|]).None?
    ensures Blocked(log, load, start, count, maxSize)
  {
    hide Batch;
  }

  /** A batch that ended otherwise met none. */
  lemma NotStuck(log: map<int, S.Entry>, load: Loader, start: int, count: int, maxSize: int, seqs: seq<BlockSeq>)
    requires Batch(log, load, start, maxSize, seqs) && |seqs| <= count
    requires |seqs| < count ==>
               && start + |seqs| in log && load(log[start + |seqs|]).Some?
               && !Fits(load, seqs, log[start + |seqs|], maxSize)
    ensures !Blocked(log, load, start, count, maxSize)
  {
    hide Fits;
    forall other: seq<BlockSeq> | |other| < count && Batch(log, load, start, maxSize, other)
      ensures !Unreadable(log, load, start + |other|)
    {
      NextFits(log, load, start, maxSize, seqs, other);
      assert |other| < |seqs| ==> seqs[|other|].num == start + |other|;
    }
  }

  /** There is only one greedy batch. */
  lemma GreedyUnique(log: map<int, S.Entry>, load: Loader, start: int, count: int, maxSize: int, a: seq<BlockSeq>,
                     b: seq<BlockSeq>)
    requires Consecutive(log, start, a) && Greedy(load, log, start, count, maxSize, a)
    requires Consecutive(log, start, b) && Greedy(load, log, start, count, maxSize, b)
    ensures a == b
  {
    hide Fits;
    NotLonger(log, load, start, count, maxSize, a, b);
    NotLonger(log, load, start, count, maxSize, b, a);
  }

  lemma NotLonger(log: map<int, S.Entry>, load: Loader, start: int, count: int, maxSize: int, a: seq<BlockSeq>,
                  b: seq<BlockSeq>)
    requires Consecutive(log, start, a) && Greedy(load, log, start, count, maxSize, a)
    requires Consecutive(log, start, b) && Greedy(load, log, start, count, maxSize, b)
    ensures |b| <= |a|
  {
    hide Fits;
    NextFits(log, load, start, maxSize, a, b);
  }

  /** A longer batch took the entry after a shorter one. */
  lemma NextFits(log: map<int, S.Entry>, load: Loader, start: int, maxSize: int, a: seq<BlockSeq>, b: seq<BlockSeq>)
    requires Consecutive(log, start, a) && Consecutive(log, start, b) && AllFit(load, b, maxSize)
    ensures |a| < |b| ==> start + |a| in log && Fits(load, a, log[start + |a|], maxSize)
  {
    hide Fits;
    if |a| < |b| {
      assert b[..|a|] == a;
      assert Fits(load, b[..|a|], b[|a|].entry, maxSize);
    }
  }

  lemma BatchPush(log: map<int, S.Entry>, load: Loader, start: int, maxSize: int, seqs: seq<BlockSeq>)
    requires Batch(log, load, start, maxSize, seqs)
    requires start + |seqs| in log && load(log[start + |seqs|]).Some? && Fits(load, seqs, log[start + |seqs|], maxSize)
    ensures var e := log[start + |seqs|];
            var seqs' := seqs + [BlockSeq(start + |seqs|, e)];
            Batch(log, load, start, maxSize, seqs') && TotalSize(load, seqs') == TotalSize(load, seqs) + load(e).value
  {
    hide AllFit, TotalSize;
    AllFitPush(load, seqs, maxSize, BlockSeq(start + |seqs|, log[start + |seqs|]));
  }

  lemma BatchEnd(log: map<int, S.Entry>, load: Loader, start: int, count: int, maxSize: int, seqs: seq<BlockSeq>)
    requires Batch(log, load, start, maxSize, seqs) && count >= 1 && |seqs| <= count
    requires |seqs| < count ==> start + |seqs| in log && !Fits(load, seqs, log[start + |seqs|], maxSize)
    ensures seqs != [] && seqs[0].num == start
    ensures Consecutive(log, start, seqs) && Greedy(load, log, start, count, maxSize, seqs)
    ensures forall k :: 0 <= k < |seqs| ==> load(seqs[k].entry).Some?
  {
  }

  /** The posts cover the numbers after `base` without gap or overlap, none is empty. */
  ghost predicate Chained(log: map<int, S.Entry>, base: int, posts: seq<seq<BlockSeq>>, last: int)
    decreases |posts|
  {
    if posts == [] then last == base
    else
      var p := posts[|posts| - 1];
      p != [] && Consecutive(log, last - |p| + 1, p) && Chained(log, base, posts[..|posts| - 1], last - |p|)
  }

  function Concat(posts: seq<seq<BlockSeq>>): seq<BlockSeq> {
    if posts == [] then [] else Concat(posts[..|posts| - 1]) + posts[|posts| - 1]
  }

  /** What the subscriber received in all: every number after `base` up to `last` once, in order. */
  lemma {:induction false} DeliveredInOrder(log: map<int, S.Entry>, base: int, posts: seq<seq<BlockSeq>>, last: int)
    requires Chained(log, base, posts, last)
    ensures |Concat(posts)| == last - base && Consecutive(log, base + 1, Concat(posts))
    decreases |posts|
  {
    if posts != [] {
      var p := posts[|posts| - 1];
      DeliveredInOrder(log, base, posts[..|posts| - 1], last - |p|);
    }
  }

  /** The log only grows. */
  ghost predicate Grows(log: map<int, S.Entry>, log': map<int, S.Entry>) {
    forall n :: n in log ==> n in log' && log'[n] == log[n]
  }

  lemma {:induction false} ChainedGrows(log: map<int, S.Entry>, log': map<int, S.Entry>, base: int,
                                        posts: seq<seq<BlockSeq>>, last: int)
    requires Chained(log, base, posts, last) && Grows(log, log')
    ensures Chained(log', base, posts, last)
    decreases |posts|
  {
    if posts != [] {
      var p := posts[|posts| - 1];
      ChainedGrows(log, log', base, posts[..|posts| - 1], last - |p|);
    }
  }

  lemma ChainedPush(log: map<int, S.Entry>, base: int, posts: seq<seq<BlockSeq>>, last: int, p: seq<BlockSeq>)
    requires Chained(log, base, posts, last) && p != [] && Consecutive(log, last + 1, p)
    ensures Chained(log, base, posts + [p], last + |p|)
  {
    assert (posts + [p])[..|posts|] == posts;
  }

  /** The task of one subscription. */
  class PushTask {
    var running: bool
    var stored: int                     // the last pushed number as it is on disk
    var lastProcessedseq: int
    var continueFailCount: int
    var postFail2Sleep: int
    var posts: seq<seq<BlockSeq>>       // the posts the subscriber accepted
    ghost var base: int                 // the stored number when the task started
    ghost var log: map<int, S.Entry>    // the log as last seen

    ghost predicate Valid()
      reads this
    {
      && Chained(log, base, posts, lastProcessedseq)
      && stored <= lastProcessedseq
      && 0 <= continueFailCount <= MAX_FAILURES
      && (running ==> continueFailCount < MAX_FAILURES)
    }

    constructor (stored: int)
      ensures Valid() && running && posts == [] && base == lastProcessedseq == this.stored == stored
      ensures continueFailCount == 0
      ensures log == map[] && postFail2Sleep == 0
    {
      running, this.stored, lastProcessedseq := true, stored, stored;
      continueFailCount, postFail2Sleep, posts := 0, 0, [];
      base, log := stored, map[];
    }

    /** A wake-up of the task itself only counts the pause after a failure down. */
    method OnRun()
      requires Valid() && running
      modifies `postFail2Sleep
      ensures Valid()
      ensures postFail2Sleep == if old(postFail2Sleep) > 0 then old(postFail2Sleep) - 1 else old(postFail2Sleep)
    {
      if postFail2Sleep > 0 {
        postFail2Sleep := postFail2Sleep - 1;
      }
    }

    /** A failed post: nothing advances, and the third in a row ends the task. */
    method Fail(pause: int)
      requires Valid() && running
      modifies `running, `continueFailCount, `postFail2Sleep
      ensures Valid() && continueFailCount == old(continueFailCount) + 1
      ensures !running <==> continueFailCount == MAX_FAILURES
      ensures postFail2Sleep == if running then pause else old(postFail2Sleep)
    {
      continueFailCount := continueFailCount + 1;
      if continueFailCount >= MAX_FAILURES {
        running := false;
        return;
      }
      postFail2Sleep := pause;
    }

    method Deliver(data: seq<BlockSeq>, updateSeq: int, saved: bool)
      requires Valid() && running && data != [] && Consecutive(log, lastProcessedseq + 1, data)
      requires updateSeq == lastProcessedseq + |data|
      modifies `posts, `stored, `continueFailCount, `lastProcessedseq
      ensures Valid() && posts == old(posts) + [data] && lastProcessedseq == updateSeq && continueFailCount == 0
      ensures stored == if saved then updateSeq else old(stored)
    {
      hide Chained, Consecutive;
      ChainedPush(log, base, posts, lastProcessedseq, data);
      posts := posts + [data];
      if saved {
        stored := updateSeq;
      }
      continueFailCount := 0;
      lastProcessedseq := updateSeq;
    }

    /** A batch is due: no pause is left and there is a new number. */
    predicate Due(lastSeq: int)
      reads this
    {
      postFail2Sleep <= 1 && lastProcessedseq < lastSeq
    }

    /** It can be read. */
    ghost predicate Ready(db: S.Db, load: Loader)
      reads this
    {
      && Due(db.lastSeq)
      && !Blocked(db.seqs, load, lastProcessedseq + 1, BatchCount(db.lastSeq, lastProcessedseq), PUSH_MAX_SIZE)
    }

    /** The pause after one more event. */
    function Paused(): int
      reads this
    {
      if postFail2Sleep > 0 then postFail2Sleep - 1 else postFail2Sleep
    }

    /** A new sequence number was announced: unless pausing, post the next batch.  `posted` and
        `saved` say whether the post and the recording of progress succeed. */
    method OnSeqUpdate(db: S.Db, load: Loader, posted: bool, saved: bool, pause: int)
      requires Valid() && running && Grows(log, db.seqs)
      modifies this
      ensures Valid() && base == old(base) && log == db.seqs
      ensures !(posted && old(Ready(db, load))) ==>
                posts == old(posts) && lastProcessedseq == old(lastProcessedseq) && stored == old(stored)
      ensures !old(Ready(db, load)) ==>
                running && continueFailCount == old(continueFailCount) && postFail2Sleep == old(Paused())
      ensures old(Ready(db, load)) && !posted ==>
                && continueFailCount == old(continueFailCount) + 1 && (running <==> continueFailCount < MAX_FAILURES)
                && postFail2Sleep == if running then pause else old(Paused())
      ensures old(Ready(db, load)) && posted ==>
                && running && continueFailCount == 0 && postFail2Sleep == old(Paused())
                && |posts| == |old(posts)| + 1 && posts[..|old(posts)|] == old(posts)
                && NextBatch(db, load, old(lastProcessedseq), posts[|old(posts)|])
                && lastProcessedseq == old(lastProcessedseq) + |posts[|old(posts)|]| <= db.lastSeq
                && stored == if saved then lastProcessedseq else old(stored)
    {
      hide Chained, Greedy, Consecutive, Grows, Unreadable, Blocked;
      ChainedGrows(log, db.seqs, base, posts, lastProcessedseq);
      log := db.seqs;
      if postFail2Sleep > 0 {
        postFail2Sleep := postFail2Sleep - 1;
        if postFail2Sleep > 0 {
          return;
        }
      }
      if lastProcessedseq >= db.lastSeq {
        return;
      }
      var seqCount := PUSH_BLOCK_MAX_SEQ;
      if seqCount > db.lastSeq - lastProcessedseq {
        seqCount := db.lastSeq - lastProcessedseq;
      }
      var err, data, updateSeq := GetSeqs(db.seqs, load, lastProcessedseq + 1, seqCount, PUSH_MAX_SIZE);
      if err {
        return;
      }
      if !posted {
        Fail(pause);
        return;
      }
      Deliver(data, updateSeq, saved);
    }
  }

  // ----- What a subscriber can rebuild -----

  function Entries(seqs: seq<BlockSeq>): (es: seq<S.Entry>)
    ensures |es| == |seqs| && forall k :: 0 <= k < |seqs| ==> es[k] == seqs[k].entry
  {
    seq(|seqs|, k requires 0 <= k < |seqs| => seqs[k].entry)
  }

  lemma {:induction false} ReplayPrefix(log: seq<S.Entry>, n: nat)
    requires S.Replay(log).Some? && n <= |log|
    ensures S.Replay(log[..n]).Some?
    decreases |log|
  {
    if n < |log| {
      ReplayPrefix(log[..|log| - 1], n);
      assert log[..|log| - 1][..n] == log[..n];
    } else {
      assert log[..n] == log;
    }
  }

  /** A subscriber that started with the first entry can replay what it received at any time, and
      once it has received everything it holds exactly the best chain. */
  lemma SubscriberRebuildsBest(db: S.Db, best: seq<Block>, posts: seq<seq<BlockSeq>>, last: int)
    requires S.LogAgrees(db, best) && Chained(db.seqs, -1, posts, last) && last <= db.lastSeq
    ensures S.Replay(Entries(Concat(posts))).Some?
    ensures last == db.lastSeq ==> S.Replay(Entries(Concat(posts))) == Some(Hashes(best))
  {
    hide S.Replay, Chained, Concat;
    DeliveredInOrder(db.seqs, -1, posts, last);
    assert Entries(Concat(posts)) == S.Log(db)[..last + 1];
    ReplayPrefix(S.Log(db), last + 1);
    assert last == db.lastSeq ==> S.Log(db)[..last + 1] == S.Log(db);
  }
}
